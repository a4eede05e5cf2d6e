/** What the simulation says about whole runs of the core. */
module CoreTheorems {
  import opened Bits
  import opened Words
  import opened Wrappers
  import opened Isa
  import opened LsuSpec
  import opened Core
  import opened CoreInvariant
  import opened CoreRenaming
  import opened CoreQueues
  import opened CoreExecute
  import opened CoreDispatch
  import opened CoreRetire
  import R = RenamingSpec

  /** The sequential machine moves only when the core commits or takes an interrupt. */
  function ArchAfter(m: Machine, c: State, a: Arch, e: Event): Arch
    requires Isa.Valid(a)
  {
    match e
    case Commit => ArchCommit(m, c, a)
    case Interrupt(cause) => Isa.Interrupt(m, a, cause)
    case _ => a
  }

  /** `execute_direct` fires on an instruction with a fetch or decode exception, which
      has the DIRECT tag but nothing in the queue: it takes the sources of a system
      instruction behind it. */
  predicate TakesAnothers(c: State, e: Event) {
    e.ExecDirect? && c.base < |c.log| && KindAt(c.log, c.base).Fault?
  }

  /** Forward simulation, one rule of the core at a time, but for that case. */
  lemma {:induction false} RuleSimulates(m: Machine, c: State, a: Arch, e: Event)
    requires Inv(m, c, a) && Shape(c) && Enabled(m, c, e) && !TakesAnothers(c, e)
    ensures Inv(m, Apply(m, c, e), ArchAfter(m, c, a, e))
  {
    hide Inv, Shape, Blocked, QueuesHoldHead, Executed;
    match e
    case Fetch(pred) => FetchKeeps(m, c, a, pred);
    case Rename => RenameKeeps(m, c, a);
    case Drop => DropKeeps(m, c, a);
    case Dispatch => DispatchKeeps(m, c, a);
    case Issue(id) => IssueKeeps(m, c, a, id);
    case ConnectLoad(k) => ConnectLoadKeeps(m, c, a, k);
    case ConnectStore(k) => ConnectStoreKeeps(m, c, a, k);
    case IssueStore(k) => IssueStoreKeeps(m, c, a, k);
    case IssueLoad(k) => IssueLoadKeeps(m, c, a, k);
    case CacheRead => CacheReadKeeps(m, c, a);
    case CacheWrite => CacheWriteKeeps(m, c, a);
    case LoadResponse(k) => LoadResponseKeeps(m, c, a, k);
    case DrainStore => DrainKeeps(m, c, a);
    case WriteBack(id) => WriteBackKeeps(m, c, a, id);
    case ExecDirect(r) => ExecDirectKeeps(m, c, a, r);
    case Discard => DiscardKeeps(m, c, a);
    case Commit => CommitKeeps(m, c, a);
    case Interrupt(cause) => InterruptKeeps(m, c, a, cause);
  }

  /** In that case the queue loses sources that are still needed. */
  lemma {:induction false} WrongSources(m: Machine, c: State, a: Arch, r: Result, a': Arch)
    requires Inv(m, c, a) && Shape(c) && Enabled(m, c, ExecDirect(r)) && TakesAnothers(c, ExecDirect(r))
    ensures !Inv(m, DoExecDirect(m, c, r), a')
  {
    hide StreamInv, RenInv, QueueInv, StampInv, TokenInv, LoadTokens, StoreTokens, ReadingInv, RequestInv, ArchInv,
         DestInv, IssueInv, ComputeInv, LoadValues, StoreValues, BufferInv, KilledInv, FreshInv, CsrInv, Shape,
         Executed;
    DirectWrite(c.log, c.base, c.results, c.direct, c.base, r);
    hide *;
    LosesSources(m, c, r, a');
  }

  lemma {:induction false} LosesSources(m: Machine, c: State, r: Result, a': Arch)
    requires Shape(c) && Enabled(m, c, ExecDirect(r))
    requires DirectInv(c.log, c.base, c.results[c.base := r], c.direct)
    ensures !Inv(m, DoExecDirect(m, c, r), a')
  {
    hide StreamInv, RenInv, QueueInv, StampInv, TokenInv, LoadTokens, StoreTokens, ReadingInv, RequestInv, ArchInv,
         DestInv, IssueInv, ComputeInv, LoadValues, StoreValues, BufferInv, KilledInv, FreshInv, CsrInv;
    assert |c.direct[1..]| < |c.direct|;
  }

  /** Every rule keeps the simulation relation exactly when it is not that case, which
      leaves a state that no sequential state is related to. */
  lemma {:induction false} StepSimulates(m: Machine, c: State, a: Arch, e: Event)
    requires Inv(m, c, a) && Shape(c) && Enabled(m, c, e)
    ensures !TakesAnothers(c, e) ==> Inv(m, Apply(m, c, e), ArchAfter(m, c, a, e))
    ensures TakesAnothers(c, e) ==> forall a' :: !Inv(m, Apply(m, c, e), a')
  {
    hide Inv, Shape, Enabled, Blocked, QueuesHoldHead, Executed;
    if !TakesAnothers(c, e) {
      RuleSimulates(m, c, a, e);
    } else {
      forall a'
        ensures !Inv(m, Apply(m, c, e), a')
      {
        WrongSources(m, c, a, e.r, a');
      }
    }
  }

  lemma {:induction false} InitHolds(m: Machine, pc: Addr, mem: Memory, csr: Csr)
    ensures Inv(m, Init(pc, mem, csr), Arch(pc, seq(32, (i: nat) => ZERO), mem, csr))
  {
    var c := Init(pc, mem, csr);
    var a := Arch(pc, seq(32, (i: nat) => ZERO), mem, csr);
    hide *;
    InitialFields(pc, mem, csr);
    InitialTable();
    InitialQueues(m, c, mem);
    InitialValues(m, c, a);
    InitialRest(m, c, a);
  }

  lemma {:induction false} InitialFields(pc: Addr, mem: Memory, csr: Csr)
    ensures var c := Init(pc, mem, csr);
            && c.log == [] && c.base == 0 && c.epoch == 0 && c.table == R.Initial() && AllZero(c.regs, R.PHYS_REGS)
            && c.lsu == Lsu([], [], [], [], [], [], [], mem) && c.iq == map[] && c.fu == map[] && c.results == map[]
                  && c.killed == {} && c.direct == []
            && c.front == Front(pc, [], None) && c.csr == csr
    ensures AllZero(seq(32, (i: nat) => ZERO), R.ARCH_REGS)
  {
  }

  lemma {:induction false} InitialRest(m: Machine, c: State, a: Arch)
    requires c.log == [] && c.base == 0 && c.front == Front(a.pc, [], None) && c.csr == a.csr && c.results == map[]
    requires AllZero(a.regs, R.ARCH_REGS) && c.direct == []
    requires RenInv(c.log, c.base, c.epoch, c.table, c.front.renamed)
    requires QueueInv(c.log, c.base, c.lsu.loads, c.lsu.stores, c.lsu.tags) && StampInv(c.log, c.lsu.stores)
    requires TokenInv(c.log, c.base, c.iq, c.fu, c.results)
    requires LoadTokens(c.lsu.loads, c.iq.Keys, Out(c)) && StoreTokens(c.lsu.stores, c.iq.Keys, Out(c))
    requires ReadingInv(c.lsu.loads, Reading(c.lsu.pend, c.lsu.rreq), Out(c)) && RequestInv(c.lsu.loads, c.lsu.rreq)
    requires BufferInv(c.lsu.mem, c.lsu.wreq, c.lsu.stb, a.mem) && KilledInv(c.log, c.base, c.killed)
    requires ArchInv(c.table.naming, c.table.busy, c.regs, a.regs)
    requires DestInv(c.log, c.base, c.table.busy, c.regs, c.results)
    requires IssueInv(c.log, c.base, c.epoch, c.table.busy, c.iq)
    requires ComputeInv(m, c.log, c.base, c.epoch, c.regs, Out(c))
    requires LoadValues(m, c.log, c.epoch, c.regs, c.lsu.loads, c.iq.Keys, Out(c))
    requires StoreValues(m, c.log, c.epoch, c.regs, c.lsu.stores, c.iq.Keys, Out(c))
    requires FreshInv(c.log, c.epoch, c.killed, c.lsu.loads, c.lsu.wreq, c.lsu.rreq, c.lsu.pend, Out(c), a.mem)
    ensures Inv(m, c, a)
  {
    assert Stream(c) == [];
    hide StreamInv, RenInv, QueueInv, StampInv, DirectInv, TokenInv, LoadTokens, StoreTokens, ReadingInv, RequestInv,
         ArchInv, DestInv, IssueInv, ComputeInv, LoadValues, StoreValues, BufferInv, KilledInv, FreshInv, Out,
         Reading, Stream;
    EmptyStream(m, c.epoch, a.pc);
  }

  predicate AllZero(regs: seq<Word>, n: nat) {
    |regs| == n && forall r :: 0 <= r < n ==> regs[r] == ZERO
  }

  lemma {:induction false} EmptyStream(m: Machine, epoch: nat, pc: Addr)
    ensures StreamInv(m, [], epoch, pc, pc)
  {
  }

  lemma {:induction false} InitialQueues(m: Machine, c: State, mem: Memory)
    requires c.log == [] && c.base == 0 && c.lsu == Lsu([], [], [], [], [], [], [], mem) && c.iq == map[]
    requires c.fu == map[] && c.results == map[] && c.killed == {}
    ensures QueueInv(c.log, c.base, c.lsu.loads, c.lsu.stores, c.lsu.tags) && StampInv(c.log, c.lsu.stores)
    ensures TokenInv(c.log, c.base, c.iq, c.fu, c.results)
    ensures LoadTokens(c.lsu.loads, c.iq.Keys, Out(c)) && StoreTokens(c.lsu.stores, c.iq.Keys, Out(c))
    ensures ReadingInv(c.lsu.loads, Reading(c.lsu.pend, c.lsu.rreq), Out(c)) && RequestInv(c.lsu.loads, c.lsu.rreq)
    ensures BufferInv(c.lsu.mem, c.lsu.wreq, c.lsu.stb, mem) && KilledInv(c.log, c.base, c.killed)
  {
  }

  lemma {:induction false} InitialValues(m: Machine, c: State, a: Arch)
    requires c.log == [] && c.base == 0 && c.lsu.loads == [] && c.lsu.stores == [] && c.iq == map[] && c.fu == map[]
    requires c.results == map[]
    requires c.table == R.Initial() && AllZero(c.regs, R.PHYS_REGS) && AllZero(a.regs, R.ARCH_REGS)
    ensures ArchInv(c.table.naming, c.table.busy, c.regs, a.regs)
    ensures DestInv(c.log, c.base, c.table.busy, c.regs, c.results)
    ensures IssueInv(c.log, c.base, c.epoch, c.table.busy, c.iq)
    ensures ComputeInv(m, c.log, c.base, c.epoch, c.regs, Out(c))
    ensures LoadValues(m, c.log, c.epoch, c.regs, c.lsu.loads, c.iq.Keys, Out(c))
    ensures StoreValues(m, c.log, c.epoch, c.regs, c.lsu.stores, c.iq.Keys, Out(c))
    ensures FreshInv(c.log, c.epoch, c.killed, c.lsu.loads, c.lsu.wreq, c.lsu.rreq, c.lsu.pend, Out(c), a.mem)
  {
  }

  lemma {:induction false} InitialTable()
    ensures RenInv([], 0, 0, R.Initial(), None)
    ensures forall r :: 0 <= r < R.ARCH_REGS ==> R.Initial().naming[r] == r
    ensures R.Initial().busy == {}
  {
    InitialPartition();
    hide Partition;
  }

  lemma {:induction false} Range(lo: nat, hi: nat, s: seq<nat>)
    requires lo <= hi && s == seq<nat>(hi - lo, i requires 0 <= i < hi - lo => lo + i)
    ensures forall p: nat :: multiset(s)[p] == if lo <= p < hi then 1 else 0
    decreases hi - lo
  {
    if lo < hi {
      var t := s[..hi - lo - 1];
      assert s == t + [hi - 1];
      Range(lo, hi - 1, t);
      assert multiset(s) == multiset(t) + multiset{hi - 1};
    }
  }

  lemma {:induction false} InitialPartition()
    ensures Partition([], 0, R.Initial().naming, R.Initial().free)
  {
    var t := R.Initial();
    Range(0, R.ARCH_REGS, t.naming);
    Range(R.ARCH_REGS, R.PHYS_REGS, t.free);
  }

  // ----- runs

  /** The rules fired one after another from reset. */
  ghost predicate Run(m: Machine, cs: seq<State>, es: seq<Event>, pc: Addr, mem: Memory, csr: Csr) {
    && |cs| == |es| + 1
    && cs[0] == Init(pc, mem, csr)
    && forall i :: 0 <= i < |es| ==> Shape(cs[i]) && Enabled(m, cs[i], es[i]) && cs[i + 1] == Apply(m, cs[i], es[i])
  }

  /** Nothing, one instruction, or an interrupt. */
  ghost predicate ArchStep(m: Machine, a: Arch, a': Arch)
    requires Isa.Valid(a)
  {
    a' == a || a' == Step(m, a) || exists cause :: a' == Isa.Interrupt(m, a, cause)
  }

  ghost predicate Sequential(m: Machine, archs: seq<Arch>) {
    && (forall i :: 0 <= i < |archs| ==> Isa.Valid(archs[i]))
    && forall i :: 0 <= i < |archs| - 1 ==> ArchStep(m, archs[i], archs[i + 1])
  }

  /** The committed registers, memory and program counter of the core are those of
      the sequential machine. `pc` is that of the oldest instruction still to commit. */
  ghost predicate Agrees(c: State, a: Arch) {
    && Shape(c) && |a.regs| == R.ARCH_REGS
    && (forall r :: 0 <= r < R.ARCH_REGS ==> c.table.naming[r] < R.PHYS_REGS && c.regs[c.table.naming[r]] == a.regs[r])
    && Drained(c.lsu.mem, c.lsu.wreq) == a.mem
    && (c.base < |c.log| && c.log[c.base].d.epoch == c.epoch ==> c.log[c.base].d.pc == a.pc)
    && (!(HeadDone(c) && KindAt(c.log, c.base).System?) ==> c.csr == a.csr)
  }

  lemma {:induction false} InvAgrees(m: Machine, c: State, a: Arch)
    requires Inv(m, c, a)
    ensures Agrees(c, a)
  {
    InvShape(m, c, a);
    if c.base < |c.log| && c.log[c.base].d.epoch == c.epoch {
      HeadIsNext(m, c, a);
    }
    hide StreamInv, RenInv, QueueInv, StampInv, DirectInv, TokenInv, LoadTokens, StoreTokens, ReadingInv, RequestInv,
         DestInv, IssueInv, ComputeInv, LoadValues, StoreValues, FreshInv, KilledInv, Shape;
  }

  /** A run of the core that follows the sequential machine. */
  ghost predicate Follows(m: Machine, cs: seq<State>, es: seq<Event>, archs: seq<Arch>, pc: Addr, mem: Memory,
        csr: Csr) {
    && Run(m, cs, es, pc, mem, csr) && |archs| == |cs| && Sequential(m, archs)
    && archs[0] == Arch(pc, seq(32, (i: nat) => ZERO), mem, csr)
    && (forall i :: 0 <= i < |cs| ==> Inv(m, cs[i], archs[i]) && Agrees(cs[i], archs[i]))
    && forall i :: 0 <= i < |es| ==> archs[i + 1] == ArchAfter(m, cs[i], archs[i], es[i])
  }

  lemma {:induction false} FollowsFirst(m: Machine, pc: Addr, mem: Memory, csr: Csr)
    ensures var c, a := Init(pc, mem, csr), Arch(pc, seq(32, (i: nat) => ZERO), mem, csr);
            Follows(m, [c], [], [a], pc, mem, csr) && Inv(m, c, a) && Shape(c)
  {
    hide Inv, Agrees, ArchStep, Shape, Init;
    var c, a := Init(pc, mem, csr), Arch(pc, seq(32, (i: nat) => ZERO), mem, csr);
    InitHolds(m, pc, mem, csr);
    InvAgrees(m, c, a);
    InvValid(m, c, a);
    InvShape(m, c, a);
  }

  lemma {:induction false} FollowsNext(m: Machine, cs: seq<State>, es: seq<Event>, archs: seq<Arch>, pc: Addr,
        mem: Memory, csr: Csr, e: Event)
    requires Follows(m, cs, es, archs, pc, mem, csr) && cs != []
    requires var c := cs[|cs| - 1]; Shape(c) && Enabled(m, c, e) && !TakesAnothers(c, e)
    ensures |archs| == |cs| && Isa.Valid(archs[|archs| - 1])
    ensures var c, a := cs[|cs| - 1], archs[|archs| - 1];
            var c', a' := Apply(m, c, e), ArchAfter(m, c, a, e);
            Follows(m, cs + [c'], es + [e], archs + [a'], pc, mem, csr) && Inv(m, c', a') && Shape(c')
  {
    hide Inv, Shape, Enabled, Apply, Agrees, ArchStep, TakesAnothers, ArchAfter, Init;
    var c, a := cs[|cs| - 1], archs[|archs| - 1];
    var c', a' := Apply(m, c, e), ArchAfter(m, c, a, e);
    StepSimulates(m, c, a, e);
    InvAgrees(m, c', a');
    InvValid(m, c', a');
    InvShape(m, c', a');
    OneStep(m, c, a, e);
  }

  predicate NeverTakesAnothers(cs: seq<State>, es: seq<Event>)
    requires |cs| == |es| + 1
  {
    forall i :: 0 <= i < |es| ==> !TakesAnothers(cs[i], es[i])
  }

  lemma {:induction false} RunFirst(m: Machine, cs: seq<State>, es: seq<Event>, pc: Addr, mem: Memory, csr: Csr)
    requires Run(m, cs, es, pc, mem, csr) && es == []
    ensures cs == [Init(pc, mem, csr)]
  {
    hide Init;
  }

  lemma {:induction false} RunLast(m: Machine, cs: seq<State>, es: seq<Event>, pc: Addr, mem: Memory, csr: Csr)
    requires Run(m, cs, es, pc, mem, csr) && es != []
    ensures var n := |es| - 1;
            && |cs| == n + 2 && Run(m, cs[..n + 1], es[..n], pc, mem, csr)
            && Shape(cs[n]) && Enabled(m, cs[n], es[n])
            && cs == cs[..n + 1] + [Apply(m, cs[n], es[n])] && es == es[..n] + [es[n]]
    ensures NeverTakesAnothers(cs, es) ==>
              var n := |es| - 1; NeverTakesAnothers(cs[..n + 1], es[..n]) && !TakesAnothers(cs[n], es[n])
  {
    hide Shape, Enabled, Apply, TakesAnothers, Init;
  }

  lemma {:induction false} RunFollows(m: Machine, cs: seq<State>, es: seq<Event>, pc: Addr, mem: Memory,
        csr: Csr) returns (archs: seq<Arch>)
    requires Run(m, cs, es, pc, mem, csr) && |cs| == |es| + 1 && NeverTakesAnothers(cs, es)
    ensures Follows(m, cs, es, archs, pc, mem, csr)
    decreases |es|
  {
    hide Run, NeverTakesAnothers, Shape, Enabled, Apply, TakesAnothers, ArchAfter, Init, Follows;
    if es == [] {
      RunFirst(m, cs, es, pc, mem, csr);
      FollowsFirst(m, pc, mem, csr);
      archs := [Arch(pc, seq(32, (i: nat) => ZERO), mem, csr)];
    } else {
      RunLast(m, cs, es, pc, mem, csr);
      var n := |es| - 1;
      var before := RunFollows(m, cs[..n + 1], es[..n], pc, mem, csr);
      FollowsNext(m, cs[..n + 1], es[..n], before, pc, mem, csr, es[n]);
      archs := before + [ArchAfter(m, cs[n], before[n], es[n])];
    }
  }

  /** Every run of the out-of-order core is a run of the sequential machine: after
      every rule the committed state is the state of the machine that executed the
      committed instructions one at a time. */
  lemma {:induction false} RunRefines(m: Machine, cs: seq<State>, es: seq<Event>, pc: Addr, mem: Memory,
        csr: Csr) returns (archs: seq<Arch>)
    requires Run(m, cs, es, pc, mem, csr) && forall i :: 0 <= i < |es| ==> !TakesAnothers(cs[i], es[i])
    ensures |archs| == |cs| && archs[0] == Arch(pc, seq(32, (i: nat) => ZERO), mem, csr) && Sequential(m, archs)
    ensures forall i :: 0 <= i < |cs| ==> Inv(m, cs[i], archs[i]) && Agrees(cs[i], archs[i])
    ensures forall i :: 0 <= i < |es| ==> archs[i + 1] == ArchAfter(m, cs[i], archs[i], es[i])
  {
    hide Inv, Shape, Enabled, Apply, TakesAnothers, ArchAfter, Init, Agrees, ArchStep;
    archs := RunFollows(m, cs, es, pc, mem, csr);
  }

  /** A run stays related to the sequential machine exactly when `execute_direct` never
      fires on an instruction with a fetch or decode exception. */
  lemma {:induction false} RunRelatedExactly(m: Machine, cs: seq<State>, es: seq<Event>, pc: Addr, mem: Memory,
        csr: Csr)
    requires Run(m, cs, es, pc, mem, csr)
    ensures (forall i :: 0 <= i < |cs| ==> Related(m, cs[i]))
          <==> (forall i :: 0 <= i < |es| ==> !TakesAnothers(cs[i], es[i]))
  {
    hide Inv, Shape, Enabled, Apply, Agrees, ArchStep, TakesAnothers;
    if forall i :: 0 <= i < |es| ==> !TakesAnothers(cs[i], es[i]) {
      var archs := RunRefines(m, cs, es, pc, mem, csr);
      assert forall i :: 0 <= i < |cs| ==> Inv(m, cs[i], archs[i]);
    } else {
      var i :| 0 <= i < |es| && TakesAnothers(cs[i], es[i]);
      if Related(m, cs[i]) {
        var a :| Inv(m, cs[i], a);
        StepSimulates(m, cs[i], a, es[i]);
        assert !Related(m, cs[i + 1]);
      }
    }
  }

  ghost predicate Related(m: Machine, c: State) {
    exists a :: Inv(m, c, a)
  }

  lemma {:induction false} InvValid(m: Machine, c: State, a: Arch)
    requires Inv(m, c, a)
    ensures Isa.Valid(a)
  {
  }

  lemma {:induction false} OneStep(m: Machine, c: State, a: Arch, e: Event)
    requires Isa.Valid(a)
    ensures ArchStep(m, a, ArchAfter(m, c, a, e))
  {
    hide Step, Isa.Interrupt;
  }

  // ----- what the relation says of the state

  /** Physical registers 1 to 47: each is a committed name, the destination of an
      instruction in flight, or in the free list; in one place only. */
  lemma {:induction false} RegistersArePartitioned(m: Machine, c: State, a: Arch, p: nat)
    requires Inv(m, c, a) && 1 <= p < R.PHYS_REGS
    ensures c.base <= |c.log|
    ensures p in c.table.naming || p in Pdsts(c.log, c.base) || p in c.table.free
    ensures multiset(c.table.naming)[p] + multiset(Pdsts(c.log, c.base))[p] + multiset(c.table.free)[p] == 1
  {
    hide StreamInv, QueueInv, StampInv, DirectInv, TokenInv, LoadTokens, StoreTokens, ReadingInv, RequestInv, ArchInv,
         DestInv, IssueInv, ComputeInv, LoadValues, StoreValues, BufferInv, FreshInv, KilledInv, CsrInv;
    assert Owners(c.log, c.base, c.table.naming, c.table.free)[p] == 1;
  }

  /** Rename answers with the destination of the youngest writer of this epoch in
      flight, or else with the committed name. */
  lemma {:induction false} RenameFindsYoungestWriter(m: Machine, c: State, a: Arch, arch: nat) returns (w: Option<nat>)
    requires Inv(m, c, a) && arch < R.ARCH_REGS
    ensures R.Shape(c.table)
    ensures w.None? ==> R.NameOf(c.table, arch) == c.table.naming[arch]
    ensures w.None? ==> forall id :: c.base <= id < |c.log| ==> !Writes(c.log[id], c.epoch, arch)
    ensures w.Some? ==> c.base <= w.value < |c.log| && Writes(c.log[w.value], c.epoch, arch)
    ensures w.Some? ==> R.NameOf(c.table, arch) == c.log[w.value].pdst
    ensures w.Some? ==> forall id :: w.value < id < |c.log| ==> !Writes(c.log[id], c.epoch, arch)
  {
    hide StreamInv, QueueInv, StampInv, DirectInv, TokenInv, LoadTokens, StoreTokens, ReadingInv, RequestInv, ArchInv,
         DestInv, IssueInv, ComputeInv, LoadValues, StoreValues, BufferInv, FreshInv, KilledInv, CsrInv, Partition;
    w := LookupMeaning(c.log, c.base, |c.log|, c.table.naming, c.epoch, arch);
  }

  /** What a commit gives back is never in the free list already: the linked free
      list of the renaming table stays acyclic. */
  lemma {:induction false} ReleasedIsNotFree(m: Machine, c: State, a: Arch, keep: bool)
    requires Inv(m, c, a) && c.base < |c.log| && |c.table.naming| == R.ARCH_REGS
    ensures var released := if keep then c.table.naming[Dest(c.log[c.base].d.instr)] else c.log[c.base].pdst;
            released < R.PHYS_REGS && released !in c.table.free
  {
    hide StreamInv, QueueInv, StampInv, DirectInv, TokenInv, LoadTokens, StoreTokens, ReadingInv, RequestInv, ArchInv,
         DestInv, IssueInv, ComputeInv, LoadValues, StoreValues, BufferInv, FreshInv, KilledInv, CsrInv, RenInv;
    RenDistinct(c.log, c.base, c.epoch, c.table, c.front.renamed);
  }

  /** A waiting instruction whose source is not ready waits for an older instruction
      that has no result yet: no wake-up is lost and the oldest can always issue. */
  lemma {:induction false} WaitsForOlder(m: Machine, c: State, a: Arch, id: nat) returns (j: nat)
    requires Inv(m, c, a) && id in c.iq && id < |c.log| && c.log[id].d.epoch == c.epoch && !Ready(c, id)
    ensures c.base <= j < id && j !in c.results && (c.log[j].pdst == c.log[id].src1 || c.log[j].pdst == c.log[id].src2)
  {
    hide StreamInv, QueueInv, StampInv, DirectInv, LoadTokens, StoreTokens, ReadingInv, RequestInv,
         ComputeInv, LoadValues, StoreValues, BufferInv, FreshInv, KilledInv, CsrInv, Partition, Lookup;
    assert Sources(c.log[id], c.log, c.base, id, c.table.naming, c.epoch);
    assert SourcesReady(c.log[id], id, c.table.busy, c.iq);
    var i := c.log[id].d.instr;
    var w1 := LookupMeaning(c.log, c.base, id, c.table.naming, c.epoch, i.rs1);
    var w2 := LookupMeaning(c.log, c.base, id, c.table.naming, c.epoch, i.rs2);
    j := if c.log[id].src1 in c.table.busy then w1.value else w2.value;
  }

  /** Sixteen-entry indices never name two instructions in flight. */
  lemma {:induction false} IndicesAreUnique(m: Machine, c: State, a: Arch, i: nat, j: nat)
    requires Inv(m, c, a) && InFlight(c, i) && InFlight(c, j)
    ensures i % ROB_SIZE == j % ROB_SIZE <==> i == j
  {
    assert i - j < ROB_SIZE && j - i < ROB_SIZE by {
      hide StreamInv, RenInv, QueueInv, StampInv, DirectInv, TokenInv, LoadTokens, StoreTokens, ReadingInv,
           RequestInv, ArchInv, DestInv, IssueInv, ComputeInv, LoadValues, StoreValues, BufferInv, FreshInv,
           KilledInv, CsrInv;
    }
  }

  /** At most two epochs are in flight, and eight-bit ages and epochs compare as the
      unbounded ones. */
  lemma {:induction false} AgesAndEpochsCompare(m: Machine, c: State, a: Arch, i: nat, j: nat)
    requires Inv(m, c, a) && InFlight(c, i) && InFlight(c, j)
    ensures c.epoch - 1 <= c.log[i].d.epoch <= c.epoch
    ensures i < j ==> c.log[i].d.epoch <= c.log[j].d.epoch
    ensures IsBefore(i % AGES, j % AGES) <==> i <= j
    ensures c.log[i].d.epoch % AGES == c.log[j].d.epoch % AGES <==> c.log[i].d.epoch == c.log[j].d.epoch
  {
    hide RenInv, QueueInv, StampInv, DirectInv, TokenInv, LoadTokens, StoreTokens, ReadingInv, RequestInv, ArchInv,
         DestInv, IssueInv, ComputeInv, LoadValues, StoreValues, BufferInv, FreshInv, KilledInv, CsrInv, Chain;
    var s := Stream(c);
    assert s[i - c.base] == c.log[i].d && s[j - c.base] == c.log[j].d;
    IsBeforeIsOrder(i, j);
  }

  /** The blocking test of a load finds exactly the stores that are older, of its
      epoch, and known to write its word. */
  lemma {:induction false} BlocksOnOlderStores(m: Machine, c: State, a: Arch, k: nat, j: nat)
    requires Inv(m, c, a) && Shape(c) && k < |c.lsu.loads| && j < |c.lsu.stores| && c.lsu.loads[k].addr.Some?
    ensures var load, store, addr := c.lsu.loads[k].entry, c.lsu.stores[j], c.lsu.loads[k].addr.value;
            Conflicts(store, addr, c.log[load].d.epoch % AGES, load % AGES)
            <==> store.addr.Some? && WordOf(store.addr.value) == WordOf(addr)
                 && store.entry < load && c.log[store.entry].d.epoch == c.log[load].d.epoch
  {
    var load, store := c.lsu.loads[k].entry, c.lsu.stores[j];
    AgesAndEpochsCompare(m, c, a, store.entry, load);
    assert StampInv(c.log, c.lsu.stores);
    hide Inv;
  }

  /** When a memory instruction with a result reaches the head, the head of the tag
      queue and of its own queue are its own, and a store knows its address and data. */
  lemma {:induction false} CommitFindsItsQueueEntry(m: Machine, c: State, a: Arch)
    requires Inv(m, c, a) && HeadDone(c) && IsMemory(KindAt(c.log, c.base))
    ensures c.lsu.tags != [] && (c.lsu.tags[0].LoadTag? <==> KindAt(c.log, c.base).Load?)
    ensures c.lsu.tags[0].LoadTag? ==> c.lsu.loads != [] && c.lsu.loads[0].entry == c.base
    ensures c.lsu.tags[0].StoreTag? ==> c.lsu.stores != [] && c.lsu.stores[0].entry == c.base
    ensures c.lsu.tags[0].StoreTag? ==> c.lsu.stores[0].addr.Some? && c.lsu.stores[0].data.Some?
  {
    hide StreamInv, RenInv, QueueInv, StampInv, DirectInv, TokenInv, LoadTokens, ReadingInv, RequestInv, ArchInv,
         DestInv, IssueInv, ComputeInv, LoadValues, StoreValues, BufferInv, FreshInv, KilledInv, CsrInv;
    QueuePop(c.log, c.base, c.lsu);
    assert c.base in Out(c);
  }

  /** `execute_direct` never lacks the operands of a system instruction: while it waits
      at the head, its own sources are first in the queue, and written. */
  lemma {:induction false} SystemFindsItsSources(m: Machine, c: State, a: Arch)
    requires Inv(m, c, a) && c.base < |c.log| && KindAt(c.log, c.base).System? && c.base !in c.results
    ensures c.direct != [] && c.direct[0] == (c.log[c.base].src1, c.log[c.base].src2)
    ensures c.log[c.base].d.epoch == c.epoch ==>
              var i := c.log[c.base].d.instr;
              Shape(c) && Executed(m, c) == m.system(i, a.pc, a.regs[i.rs1], a.regs[i.rs2], a.csr)
  {
    InvShape(m, c, a);
    hide QueueInv, StampInv, TokenInv, LoadTokens, StoreTokens, ReadingInv, RequestInv, DestInv,
         IssueInv, ComputeInv, LoadValues, StoreValues, BufferInv, FreshInv, KilledInv, Shape;
    DirectWrite(c.log, c.base, c.results, c.direct, c.base, Error(0, 0));
    if c.log[c.base].d.epoch == c.epoch {
      HeadOperands(c, a);
      HeadIsNext(m, c, a);
      OperandValues(m, c, c.base);
    }
  }

  /** The speculative-load theorem: a load of the current epoch that commits without
      its killed bit returned the value of the word left by all older committed
      stores, whatever the order in which it and they executed. */
  lemma {:induction false} CommittedLoadIsSequential(m: Machine, c: State, a: Arch)
    requires Inv(m, c, a) && HeadDone(c) && c.log[c.base].d.epoch == c.epoch && c.base !in c.killed
    requires KindAt(c.log, c.base).Load?
    ensures Agrees(c, a)
    ensures var e, k := c.log[c.base], KindAt(c.log, c.base);
            var memory := Drained(c.lsu.mem, c.lsu.wreq);
            var addr := m.address(e.d.instr, c.regs[c.table.naming[e.d.instr.rs1]]);
            c.results[c.base] == LoadResult(memory, k.size, k.signed, addr, e.d.pc)
  {
    InvAgrees(m, c, a);
    HeadLoad(m, c, a);
    hide Inv, LoadResult;
  }
}
