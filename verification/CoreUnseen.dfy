/** A machine on which nobody sees `execute_direct` take the operands of another
    instruction: in every one of its runs the committed state is that of the sequential
    machine, and in some of them it happens. */
module CoreUnseen {
  import opened Words
  import opened Wrappers
  import opened Isa
  import opened Core
  import opened CoreInvariant
  import opened CoreStream
  import opened CoreTheorems
  import R = RenamingSpec

  const SYSTEM := Instr(System, 0, 0, 0, 0)
  const ILLEGAL := Instr(Fault(2), 0, 0, 0, 0)
  const BACK := Ok(ZERO, 0, true)

  /** System instructions and traps go back to address 0, where an illegal instruction is. */
  function Idler(): Machine {
    Machine(
      (pc: Addr) => if pc == 4 then SYSTEM else ILLEGAL,
      (i: Instr, pc: Addr, v1: Word, v2: Word) => BACK,
      (i: Instr, v: Word) => 0,
      (i: Instr, pc: Addr, v1: Word, v2: Word, csr: Csr) => (BACK, csr),
      (csr: Csr, pc: Addr, interrupt: bool, cause: nat, tval: Addr) => (csr, 0),
      (csr: Csr) => csr)
  }

  function Start(): Arch {
    Arch(0, seq(32, (i: nat) => ZERO), map[], map[])
  }

  // ----- what every run keeps

  predicate Simple(i: Instr) {
    i == SYSTEM || i == ILLEGAL
  }

  predicate SimpleEntry(e: Entry) {
    e.pdst == 0 && e.src1 == 0 && e.src2 == 0 && Simple(e.d.instr)
  }

  /** A result that leads to address 0 when it retires. */
  predicate LeadsBack(r: Result) {
    r.Error? || (r.next == 0 && r.flush)
  }

  /** The first instruction of this epoch is at address 0, or will be. */
  predicate StartsAtZero(s: seq<Decoded>, epoch: nat, pc: Addr) {
    if s == [] then pc == 0
    else if s[0].epoch == epoch then s[0].pc == 0
    else StartsAtZero(s[1..], epoch, pc)
  }

  ghost predicate Registers(c: State) {
    && c.table == R.Initial() && |c.regs| == R.PHYS_REGS && (forall k :: 0 <= k < |c.regs| ==> c.regs[k] == ZERO)
    && c.iq == map[] && c.lsu == Lsu([], [], [], [], [], [], [], map[]) && c.killed == {} && c.csr == map[]
  }

  ghost predicate Queues(c: State) {
    && c.base <= |c.log| && (forall id :: 0 <= id < |c.log| ==> SimpleEntry(c.log[id]))
    && (forall k :: 0 <= k < |c.front.queue| ==> Simple(c.front.queue[k].instr))
    && (c.front.renamed.Some? ==>
          c.front.renamed.value.src1 == 0 && c.front.renamed.value.src2 == 0
          && Simple(c.front.renamed.value.d.instr))
    && (forall k :: 0 <= k < |c.direct| ==> c.direct[k] == (0, 0))
  }

  ghost predicate Results(c: State) {
    && (forall id :: id in c.fu ==> id < |c.log| && c.fu[id].Error?)
    && (forall id :: id in c.results && !(id < |c.log| && c.log[id].d.epoch < c.epoch) ==> LeadsBack(c.results[id]))
  }

  ghost predicate Flow(c: State)
    requires c.base <= |c.log|
  {
    && (forall k :: 0 <= k < |Stream(c)| ==> Stream(c)[k].epoch <= c.epoch)
    && StartsAtZero(Stream(c), c.epoch, c.front.pc)
  }

  ghost predicate Idle(c: State) {
    Registers(c) && Queues(c) && Results(c) && Flow(c)
  }

  lemma {:induction false} IdleShape(c: State)
    requires Idle(c)
    ensures Shape(c)
  {
  }

  lemma {:induction false} IdleAgrees(c: State)
    requires Idle(c)
    ensures Agrees(c, Start())
  {
    IdleShape(c);
    if c.base < |c.log| {
      assert Stream(c)[0] == c.log[c.base].d;
    }
  }

  lemma {:induction false} IdleFirst()
    ensures Idle(Init(0, map[], map[]))
  {
    assert Stream(Init(0, map[], map[])) == [];
  }

  // ----- the stream

  lemma {:induction false} Appended(s: seq<Decoded>, epoch: nat, pc: Addr, d: Decoded, pc': Addr)
    requires StartsAtZero(s, epoch, pc) && d.epoch == epoch && d.pc == pc
    ensures StartsAtZero(s + [d], epoch, pc')
  {
    if s != [] {
      assert (s + [d])[1..] == s[1..] + [d];
      if s[0].epoch != epoch {
        Appended(s[1..], epoch, pc, d, pc');
      }
    }
  }

  lemma {:induction false} Dropped(a: seq<Decoded>, d: Decoded, b: seq<Decoded>, epoch: nat, pc: Addr)
    requires StartsAtZero(a + [d] + b, epoch, pc) && d.epoch != epoch
    ensures StartsAtZero(a + b, epoch, pc)
  {
    if a == [] {
      assert (a + [d] + b)[1..] == b && a + b == b;
    } else {
      assert (a + [d] + b)[1..] == a[1..] + [d] + b && (a + b)[1..] == a[1..] + b;
      if a[0].epoch != epoch {
        Dropped(a[1..], d, b, epoch, pc);
      }
    }
  }

  lemma {:induction false} AllOld(s: seq<Decoded>, epoch: nat)
    requires forall k :: 0 <= k < |s| ==> s[k].epoch < epoch
    ensures StartsAtZero(s, epoch, 0)
  {
    if s != [] {
      AllOld(s[1..], epoch);
    }
  }

  // ----- the rules

  lemma {:induction false} OnlyThese(c: State, e: Event)
    requires Idle(c) && Shape(c) && Enabled(Idler(), c, e)
    ensures e.Fetch? || e.Rename? || e.Drop? || e.Dispatch? || e.WriteBack? || e.ExecDirect? || e.Discard? || e.Commit?
  {
    hide Shape, Flow, Results;
  }

  lemma {:induction false} FetchIdle(c: State, pred: Addr)
    requires Idle(c)
    ensures Idle(DoFetch(Idler(), c, pred))
  {
    var c' := DoFetch(Idler(), c, pred);
    var d := Decoded(c.front.pc, pred, Idler().imem(c.front.pc), c.epoch);
    assert Stream(c') == Stream(c) + [d];
    Appended(Stream(c), c.epoch, c.front.pc, d, pred);
    hide Stream, StartsAtZero;
  }

  lemma {:induction false} SameStream(c: State, c': State)
    requires Flows(c) && c'.base <= |c'.log| && Stream(c') == Stream(c) && c'.epoch == c.epoch
    requires c'.front.pc == c.front.pc
    ensures Flows(c')
  {
    hide Stream, StartsAtZero;
  }

  ghost predicate Flows(c: State) {
    c.base <= |c.log| && Flow(c)
  }

  lemma {:induction false} RenameIdle(c: State)
    requires Idle(c) && Shape(c) && Enabled(Idler(), c, Rename)
    ensures Idle(DoRename(c))
  {
    var c' := DoRename(c);
    assert Stream(c') == Stream(c);
    SameStream(c, c');
    hide Flow;
  }

  lemma {:induction false} DropKeepsRest(c: State)
    requires Queues(c) && Results(c)
    ensures Queues(DoDrop(c)) && Results(DoDrop(c))
  {
  }

  lemma {:induction false} DropIdle(c: State)
    requires Idle(c) && Shape(c) && Enabled(Idler(), c, Drop)
    ensures Idle(DoDrop(c))
  {
    hide Headers, StartsAtZero, Results, SimpleEntry;
    DropKeepsRest(c);
    var c' := DoDrop(c);
    var a, d, b := Headers(c.log, c.base), c.front.renamed.value.d, c.front.queue;
    assert Stream(c) == a + [d] + b && Stream(c') == a + b;
    Dropped(a, d, b, c.epoch, c.front.pc);
    forall k | 0 <= k < |a + b|
      ensures (a + b)[k].epoch <= c.epoch
    {
      assert (a + b)[k] == (a + [d] + b)[if k < |a| then k else k + 1];
    }
  }

  lemma {:induction false} DispatchIdle(c: State)
    requires Idle(c) && Shape(c) && Enabled(Idler(), c, Dispatch)
    ensures Idle(DoDispatch(c))
  {
    var c' := DoDispatch(c);
    assert Stream(c') == Stream(c);
    SameStream(c, c');
    hide Flow;
  }

  lemma {:induction false} CompleteIdle(c: State, slot: nat, r: Result)
    requires Idle(c) && Shape(c)
    requires (slot < |c.log| && c.log[slot].d.epoch < c.epoch) || LeadsBack(r)
    ensures Idle(Complete(c, slot, 0, r))
  {
    var c' := Complete(c, slot, 0, r);
    assert Stream(c') == Stream(c);
    SameStream(c, c');
    hide Flow, Shape;
  }

  lemma {:induction false} WriteIdle(c: State, id: nat)
    requires Idle(c) && Shape(c) && id in c.fu
    ensures Idle(DoWriteBack(c, id))
  {
    var d := c.(fu := c.fu - {id});
    assert Stream(d) == Stream(c);
    SameStream(c, d);
    hide Flow, Complete;
    IdleShape(d);
    CompleteIdle(d, SlotNumber(c.base, id), c.fu[id]);
  }

  lemma {:induction false} ExecIdle(c: State, r: Result)
    requires Idle(c) && Shape(c) && Enabled(Idler(), c, ExecDirect(r))
    ensures Idle(DoExecDirect(Idler(), c, r))
  {
    assert Stream(c)[0] == c.log[c.base].d;
    CompleteIdle(c, c.base, r);
    var d, c' := Complete(c, c.base, 0, r), DoExecDirect(Idler(), c, r);
    assert c' == d.(direct := c.direct[1..]);
    assert Stream(c') == Stream(d);
    SameStream(d, c');
    hide Flow, Complete, Shape;
  }

  /** The head leaves the stream. */
  lemma {:induction false} HeadLeaves(c: State, c': State)
    requires Idle(c) && c.base < |c.log| && c'.log == c.log && c'.base == c.base + 1
    requires c'.front.renamed == c.front.renamed && c'.front.queue == c.front.queue
    ensures Stream(c) != [] && Stream(c)[0] == c.log[c.base].d && Stream(c') == Stream(c)[1..]
  {
    hide Registers, Results, Flow, Queues;
    StreamHead(c);
    assert Stream(c') == Stream(c.(base := c.base + 1));
  }

  lemma {:induction false} DiscardIs(c: State)
    requires Idle(c) && Shape(c) && Enabled(Idler(), c, Discard)
    ensures R.Shape(c.table) && c.base < |c.log| && DoDiscard(c) == DeqRob(c, false, None)
    ensures c.log[c.base].d.epoch != c.epoch
  {
    hide Flow, Results;
    assert DmemCommit(c) == c;
  }

  lemma {:induction false} DiscardIdle(c: State)
    requires Idle(c) && Shape(c) && Enabled(Idler(), c, Discard)
    ensures Idle(DoDiscard(c))
  {
    hide Shape, DoDiscard, Enabled, R.Commit, R.Initial, R.Shape, Stream;
    DiscardIs(c);
    TableStays(false, false);
    HeadLeaves(c, DeqRob(c, false, None));
  }

  lemma {:induction false} TableStays(keep: bool, flush: bool)
    ensures R.Commit(R.Initial(), 0, 0, keep, flush) == R.Initial()
  {
  }

  lemma {:induction false} FlushIdle(c: State, keep: bool)
    requires Idle(c) && R.Shape(c.table) && c.base < |c.log|
    ensures Idle(DeqRob(c, keep, Some(0)))
  {
    hide R.Commit, R.Initial, R.Shape, Stream, StartsAtZero;
    TableStays(keep, true);
    var c' := DeqRob(c, keep, Some(0));
    HeadLeaves(c, c');
    AllOld(Stream(c'), c'.epoch);
  }

  lemma {:induction false} CommitIs(c: State) returns (keep: bool)
    requires Idle(c) && Shape(c) && Enabled(Idler(), c, Commit)
    ensures R.Shape(c.table) && c.base < |c.log| && DoCommit(Idler(), c) == DeqRob(c, keep, Some(0))
  {
    hide R.Commit, R.Initial, Flow;
    keep := c.results[c.base].Ok?;
    assert DmemCommit(c) == c;
    assert c.(csr := c.csr) == c;
    hide DeqRob, DmemCommit;
  }

  lemma {:induction false} CommitIdle(c: State)
    requires Idle(c) && Shape(c) && Enabled(Idler(), c, Commit)
    ensures Idle(DoCommit(Idler(), c))
  {
    hide Idle, Shape, DeqRob, DoCommit, R.Shape, Enabled;
    var keep := CommitIs(c);
    FlushIdle(c, keep);
  }

  /** The sequential machine traps at address 0, again and again. */
  lemma {:induction false} StartStays(c: State, e: Event)
    ensures ArchAfter(Idler(), c, Start(), e) == Start()
  {
  }

  lemma {:induction false} EveryRule(c: State, e: Event)
    requires Idle(c) && Shape(c) && Enabled(Idler(), c, e)
    ensures Idle(Apply(Idler(), c, e)) && ArchAfter(Idler(), c, Start(), e) == Start()
  {
    OnlyThese(c, e);
    StartStays(c, e);
    hide Idle, Shape, Enabled, DoFetch, DoRename, DoDrop, DoDispatch, DoWriteBack, DoExecDirect, DoDiscard, DoCommit,
         ArchAfter;
    match e
    case Fetch(pred) => FetchIdle(c, pred);
    case Rename => RenameIdle(c);
    case Drop => DropIdle(c);
    case Dispatch => DispatchIdle(c);
    case WriteBack(id) => WriteEnabled(c, id); WriteIdle(c, id);
    case ExecDirect(r) => ExecIdle(c, r);
    case Discard => DiscardIdle(c);
    case Commit => CommitIdle(c);
  }

  lemma {:induction false} WriteEnabled(c: State, id: nat)
    requires Shape(c) && Enabled(Idler(), c, WriteBack(id))
    ensures id in c.fu
  {
    hide Shape;
  }

  /** In every run of this machine, whatever happens, nothing that is committed differs. */
  lemma {:induction false} NobodySees(cs: seq<State>, es: seq<Event>, k: nat)
    requires Run(Idler(), cs, es, 0, map[], map[]) && k <= |es|
    ensures Idle(cs[k]) && Agrees(cs[k], Start())
    ensures k > 0 ==> ArchAfter(Idler(), cs[k - 1], Start(), es[k - 1]) == Start()
  {
    hide Idle, Shape, Enabled, Apply, Agrees, ArchAfter, Init;
    if k == 0 {
      IdleFirst();
    } else {
      NobodySees(cs, es, k - 1);
      EveryRule(cs[k - 1], es[k - 1]);
    }
    IdleAgrees(cs[k]);
  }

  // ----- and it happens

  const FIRST := Decoded(0, 4, ILLEGAL, 0)
  const SECOND := Decoded(4, 8, SYSTEM, 0)

  /** The first rules fetch an illegal instruction and a system instruction and bring them
      to the reorder buffer. */
  function Rule(k: nat): Event {
    match k
    case 0 => Fetch(4)
    case 1 => Fetch(8)
    case 2 => Rename
    case 3 => Dispatch
    case 4 => Rename
    case 5 => Dispatch
    case _ => ExecDirect(BACK)
  }

  /** The state after `k` rules. */
  function S(k: nat): State {
    var log := [Entry(FIRST, 0, 0, 0)];
    var trap := map[0 := Error(2, 0)];
    match k
    case 0 => At([], Front(0, [], None), map[], [])
    case 1 => At([], Front(4, [FIRST], None), map[], [])
    case 2 => At([], Front(8, [FIRST, SECOND], None), map[], [])
    case 3 => At([], Front(8, [SECOND], Some(Renamed(FIRST, 0, 0))), map[], [])
    case 4 => At(log, Front(8, [SECOND], None), trap, [])
    case 5 => At(log, Front(8, [], Some(Renamed(SECOND, 0, 0))), trap, [])
    case _ => At(log + [Entry(SECOND, 0, 0, 0)], Front(8, [], None), trap, [(0, 0)])
  }

  function At(log: seq<Entry>, front: Front, fu: map<nat, Result>, direct: seq<(nat, nat)>): State {
    State(0, 0, log, R.Initial(), seq(R.PHYS_REGS, i => ZERO), front, map[], fu, map[], direct,
          Lsu([], [], [], [], [], [], [], map[]), {}, map[])
  }

  lemma {:induction false} Shapes(k: nat)
    requires k <= 6
    ensures Shape(S(k)) && R.NameOf(R.Initial(), 0) == 0 && |R.Initial().free| > 0
  {
  }

  lemma {:induction false} RuleFires(k: nat)
    requires k <= 5
    ensures Shape(S(k)) && Enabled(Idler(), S(k), Rule(k)) && Apply(Idler(), S(k), Rule(k)) == S(k + 1)
  {
    Shapes(k);
    hide Shape, R.NameOf, R.Initial;
  }

  lemma {:induction false} LastFires()
    ensures Shape(S(6)) && Enabled(Idler(), S(6), Rule(6)) && TakesAnothers(S(6), Rule(6))
  {
    Shapes(6);
    hide Shape, R.Initial;
  }

  /** A run in which `execute_direct` takes the operands of another instruction, so that no
      sequential state is related any more; yet by `NobodySees` neither this run nor any
      that goes on from it commits anything else than the sequential machine. */
  lemma {:induction false} TakenUnseen() returns (cs: seq<State>, es: seq<Event>)
    ensures Run(Idler(), cs, es, 0, map[], map[]) && es != []
    ensures TakesAnothers(cs[|es| - 1], es[|es| - 1]) && !Related(Idler(), cs[|es|])
    ensures forall i :: 0 <= i < |cs| ==> Agrees(cs[i], Start())
  {
    hide Shape, Enabled, Apply, Agrees, Related, TakesAnothers, S, Rule;
    LastFires();
    cs := seq(7, (i: nat) => S(i)) + [Apply(Idler(), S(6), Rule(6))];
    es := seq(7, (i: nat) => Rule(i));
    FirstState();
    forall i | 0 <= i < 6
      ensures Shape(S(i)) && Enabled(Idler(), S(i), Rule(i)) && Apply(Idler(), S(i), Rule(i)) == S(i + 1)
    {
      RuleFires(i);
    }
    forall i | 0 <= i < |cs|
      ensures Agrees(cs[i], Start())
    {
      NobodySees(cs, es, i);
    }
    NoneBefore();
    NotRelated(cs, es);
  }

  lemma {:induction false} NoneBefore()
    ensures forall i :: 0 <= i < 6 ==> !Rule(i).ExecDirect?
  {
  }

  lemma {:induction false} FirstState()
    ensures S(0) == Init(0, map[], map[])
  {
  }

  lemma {:induction false} NotRelated(cs: seq<State>, es: seq<Event>)
    requires Run(Idler(), cs, es, 0, map[], map[]) && es != [] && |cs| == |es| + 1
    requires TakesAnothers(cs[|es| - 1], es[|es| - 1])
    requires forall i :: 0 <= i < |es| - 1 ==> !es[i].ExecDirect?
    ensures !Related(Idler(), cs[|es|])
  {
    hide Shape, Enabled, Apply, Inv, Follows;
    var n := |es| - 1;
    RunLast(Idler(), cs, es, 0, map[], map[]);
    var archs := RunFollows(Idler(), cs[..n + 1], es[..n], 0, map[], map[]);
    FollowsMeans(cs[..n + 1], es[..n], archs);
    StepSimulates(Idler(), cs[n], archs[n], es[n]);
  }

  lemma {:induction false} FollowsMeans(cs: seq<State>, es: seq<Event>, archs: seq<Arch>)
    requires Follows(Idler(), cs, es, archs, 0, map[], map[])
    ensures |cs| == |archs| == |es| + 1 && Inv(Idler(), cs[|es|], archs[|es|])
  {
    hide Inv, Shape, Enabled, Apply, Agrees, ArchAfter, Init;
  }
}
