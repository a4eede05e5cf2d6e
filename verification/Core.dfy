/** The out-of-order core of src/CoreOOO.bsv with the load/store unit of
    src/lsu/LSU.bsv, one atomic step per rule.

    Every dispatched instruction has a number, its position in `log`; `base` is
    the reorder buffer's head, so `log[base..]` is what the reorder buffer holds.
    The hardware's index, age and epoch fields are these numbers truncated
    (`CoreTheorems.IndicesAreUnique`, `CoreTheorems.AgesAndEpochsCompare`). */
module Core {
  import opened Bits
  import opened Words
  import opened Wrappers
  import opened Isa
  import opened LsuSpec
  import R = RenamingSpec

  const ROB_SIZE := 16
  const DIRECT_SIZE := 4

  /** A fetched instruction; `pred` is the predicted next pc. */
  datatype Decoded = Decoded(pc: Addr, pred: Addr, instr: Instr, epoch: nat)

  datatype Entry = Entry(d: Decoded, pdst: nat, src1: nat, src2: nat)

  /** An instruction whose sources were renamed and that waits for dispatch. */
  datatype Renamed = Renamed(d: Decoded, src1: nat, src2: nat)

  /** The front end: the pc it will fetch next and the decoded queue. */
  datatype Front = Front(pc: Addr, queue: seq<Decoded>, renamed: Option<Renamed>)

  datatype Tag = LoadTag | StoreTag

  /** `wreq` are the committed stores the cache has not performed, `rreq` the
      reads it has not performed, `pend` the words read and not yet returned. */
  datatype Lsu = Lsu(
    loads: seq<LoadSlot<nat>>, stores: seq<StoreSlot<nat>>, tags: seq<Tag>,
    stb: seq<Beat>, wreq: seq<Beat>,
    rreq: seq<(nat, Addr)>, pend: seq<(nat, Word)>, mem: Memory)

  datatype State = State(
    epoch: nat, base: nat, log: seq<Entry>,
    table: R.Table, regs: seq<Word>, front: Front,
    iq: map<nat, (bool, bool)>,    // waiting instructions, with the ready flags of their sources
    fu: map<nat, Result>,          // computed results on their way to write-back
    results: map<nat, Result>,     // results written in the reorder buffer
    direct: seq<(nat, nat)>,       // source registers of the system instructions not executed yet
    lsu: Lsu, killed: set<nat>, csr: Csr)

  datatype Event =
    | Fetch(pred: Addr)
    | Rename
    | Drop
    | Dispatch
    | Issue(id: nat)
    | ConnectLoad(k: nat)
    | ConnectStore(k: nat)
    | IssueStore(k: nat)
    | IssueLoad(k: nat)
    | CacheRead
    | CacheWrite
    | LoadResponse(k: nat)
    | DrainStore
    | WriteBack(id: nat)
    | ExecDirect(r: Result)
    | Discard
    | Commit
    | Interrupt(cause: nat)

  // ----- reading the state

  predicate InFlight(c: State, id: nat) {
    c.base <= id < |c.log|
  }

  function KindAt(log: seq<Entry>, id: nat): Kind
    requires id < |log|
  {
    log[id].d.instr.kind
  }

  predicate IsMemory(k: Kind) {
    k.Load? || k.Store?
  }

  /** Has a head, with a result. */
  predicate HeadDone(c: State) {
    c.base < |c.log| && c.base in c.results
  }

  /** Executed at the head of the reorder buffer: the hardware's DIRECT tag, which
      an instruction with a fetch or decode exception carries too. */
  predicate IsDirect(k: Kind) {
    k.System? || k.Fault?
  }

  /** The structural facts that make the rules well defined; part of the
      invariant of `CoreInvariant`. */
  ghost predicate Shape(c: State) {
    && R.Shape(c.table)
    && |c.regs| == R.PHYS_REGS
    && c.base <= |c.log|
    && (forall id: nat :: InFlight(c, id) ==> c.log[id].src1 < R.PHYS_REGS && c.log[id].src2 < R.PHYS_REGS)
    && (forall id: nat :: InFlight(c, id) ==> c.log[id].pdst < R.PHYS_REGS)
    && (forall id :: id in c.iq ==> InFlight(c, id) && (KindAt(c.log, id).Compute? || IsMemory(KindAt(c.log, id))))
    && (forall id :: id in c.fu ==> id < |c.log| && c.log[id].pdst < R.PHYS_REGS)
    && (forall k :: 0 <= k < |c.direct| ==> c.direct[k].0 < R.PHYS_REGS && c.direct[k].1 < R.PHYS_REGS)
    && (forall k :: 0 <= k < |c.lsu.loads| ==>
          InFlight(c, c.lsu.loads[k].entry) && KindAt(c.log, c.lsu.loads[k].entry).Load?)
    && (forall k :: 0 <= k < |c.lsu.stores| ==>
          InFlight(c, c.lsu.stores[k].entry) && KindAt(c.log, c.lsu.stores[k].entry).Store?
                && c.lsu.stores[k].age < AGES)
  }

  predicate Ready(c: State, id: nat) {
    id in c.iq && c.iq[id].0 && c.iq[id].1
  }

  function Result1(c: State, id: nat): Word
    requires Shape(c) && InFlight(c, id)
  {
    c.regs[c.log[id].src1]
  }

  function Result2(c: State, id: nat): Word
    requires Shape(c) && InFlight(c, id)
  {
    c.regs[c.log[id].src2]
  }

  function AddressOf(m: Machine, c: State, id: nat): Addr
    requires Shape(c) && InFlight(c, id)
  {
    m.address(c.log[id].d.instr, Result1(c, id))
  }

  /** The blocking test of `issueLoad`: a committed store of the same word still in
      the store buffer, or an older one of the same epoch in the store queue. */
  predicate Blocked(c: State, k: nat)
    requires Shape(c) && k < |c.lsu.loads| && c.lsu.loads[k].addr.Some?
  {
    var id, addr := c.lsu.loads[k].entry, c.lsu.loads[k].addr.value;
    || (exists j :: 0 <= j < |c.lsu.stb| && c.lsu.stb[j].addr == WordOf(addr))
    || (exists j :: 0 <= j < |c.lsu.stores| &&
          Conflicts(c.lsu.stores[j], addr, c.log[id].d.epoch % AGES, id % AGES))
  }

  predicate Enabled(m: Machine, c: State, e: Event)
    requires Shape(c)
  {
    match e
    case Fetch(_) => true
    case Rename => c.front.queue != [] && c.front.renamed.None?
    case Drop => c.front.renamed.Some? && c.front.renamed.value.d.epoch != c.epoch
    case Dispatch =>
      && c.front.renamed.Some?
      && c.front.renamed.value.d.epoch == c.epoch
      && |c.log| - c.base < ROB_SIZE
      && |c.table.free| > 0
      && (c.front.renamed.value.d.instr.kind.Load? ==> |c.lsu.loads| < LQ_SIZE)
      && (c.front.renamed.value.d.instr.kind.Store? ==> |c.lsu.stores| < SQ_SIZE)
      && (c.front.renamed.value.d.instr.kind.System? ==> |c.direct| < DIRECT_SIZE)
    case Issue(id) => Ready(c, id) && KindAt(c.log, id).Compute?
    case ConnectLoad(k) => k < |c.lsu.loads| && Ready(c, c.lsu.loads[k].entry)
    case ConnectStore(k) => k < |c.lsu.stores| && Ready(c, c.lsu.stores[k].entry)
    case IssueStore(k) =>
      k < |c.lsu.stores| && c.lsu.stores[k].addr.Some? && c.lsu.stores[k].data.Some? && !c.lsu.stores[k].issued
    case IssueLoad(k) =>
      k < |c.lsu.loads| && c.lsu.loads[k].addr.Some? && !c.lsu.loads[k].executed && !Blocked(c, k)
    case CacheRead => c.lsu.rreq != []
    case CacheWrite => c.lsu.wreq != []
    case LoadResponse(k) =>
      c.lsu.pend != [] && k < |c.lsu.loads| && c.lsu.loads[k].entry == c.lsu.pend[0].0 && c.lsu.loads[k].addr.Some?
    case DrainStore => |c.lsu.stb| > |c.lsu.wreq|
    case WriteBack(id) => id in c.fu
    case ExecDirect(r) =>
      && c.base < |c.log| && IsDirect(KindAt(c.log, c.base)) && c.base !in c.results && c.direct != []
      && (c.log[c.base].d.epoch == c.epoch ==> r == Executed(m, c).0)
    case Discard => HeadDone(c) && c.log[c.base].d.epoch != c.epoch && QueuesHoldHead(c)
    case Commit => HeadDone(c) && c.log[c.base].d.epoch == c.epoch && QueuesHoldHead(c)
    case Interrupt(_) =>
      HeadDone(c) && c.log[c.base].d.epoch == c.epoch && KindAt(c.log, c.base).Compute? && c.base !in c.killed
  }

  /** What `execDirect` gives for the head, on the registers named first in the queue. */
  function Executed(m: Machine, c: State): (Result, Csr)
    requires Shape(c) && c.base < |c.log| && c.direct != []
  {
    var d := c.log[c.base].d;
    m.system(d.instr, d.pc, c.regs[c.direct[0].0], c.regs[c.direct[0].1], c.csr)
  }

  /** The implicit guards of `lsu.commit` for a memory instruction. */
  predicate QueuesHoldHead(c: State)
    requires Shape(c) && HeadDone(c)
  {
    IsMemory(KindAt(c.log, c.base)) ==>
      && c.lsu.tags != []
      && (c.lsu.tags[0].LoadTag? ==> c.lsu.loads != [])
      && (c.lsu.tags[0].StoreTag? ==>
            && c.lsu.stores != [] && c.lsu.stores[0].addr.Some? && c.lsu.stores[0].data.Some?
            && KindAt(c.log, c.lsu.stores[0].entry).Store?
            && |c.lsu.stb| < STB_SIZE)
  }

  // ----- the rules

  function DoFetch(m: Machine, c: State, pred: Addr): State {
    c.(front := c.front.(pc := pred, queue := c.front.queue + [Decoded(c.front.pc, pred, m.imem(c.front.pc), c.epoch)]))
  }

  function DoRename(c: State): State
    requires Shape(c) && c.front.queue != []
  {
    var d := c.front.queue[0];
    c.(front := c.front.(queue := c.front.queue[1..], renamed := Some(
         Renamed(d, R.NameOf(c.table, d.instr.rs1), R.NameOf(c.table, d.instr.rs2)))))
  }

  function DoDrop(c: State): State {
    c.(front := c.front.(renamed := None))
  }

  /** The queues an instruction enters at dispatch, next to the reorder buffer. */
  function EnterLsu(l: Lsu, id: nat, d: Decoded): Lsu {
    match d.instr.kind
    case Load(_, _) => l.(loads := l.loads + [LoadSlot(id, None, false)], tags := l.tags + [LoadTag])
    case Store(_) =>
      l.(stores := l.stores + [StoreSlot(id, d.epoch % AGES, id % AGES, None, None, false)],
            tags := l.tags + [StoreTag])
    case _ => l
  }

  function DoDispatch(c: State): State
    requires Shape(c) && c.front.renamed.Some? && |c.table.free| > 0
  {
    var r := c.front.renamed.value;
    var i := r.d.instr;
    var id := |c.log|;
    c.(log := c.log + [Entry(r.d, R.Allocated(c.table, Dest(i)), r.src1, r.src2)],
       table := R.Allocate(c.table, Dest(i)),
       front := c.front.(renamed := None),
       lsu := EnterLsu(c.lsu, id, r.d),
       fu := if i.kind.Fault? then c.fu[id := Error(i.kind.cause, r.d.pc)] else c.fu,
       iq := if i.kind.Compute? || IsMemory(i.kind)
             then c.iq[id := (r.src1 !in c.table.busy, r.src2 !in c.table.busy)] else c.iq,
       direct := if i.kind.System? then c.direct + [(r.src1, r.src2)] else c.direct)
  }

  function DoIssue(m: Machine, c: State, id: nat): State
    requires Shape(c) && id in c.iq
  {
    c.(iq := c.iq - {id},
       fu := c.fu[id := m.exec(c.log[id].d.instr, c.log[id].d.pc, Result1(c, id), Result2(c, id))])
  }

  function DoConnectLoad(m: Machine, c: State, k: nat): State
    requires Shape(c) && k < |c.lsu.loads|
  {
    var s := c.lsu.loads[k];
    var addr := AddressOf(m, c, s.entry);
    if Aligned(KindAt(c.log, s.entry).size, addr)
    then c.(iq := c.iq - {s.entry}, lsu := c.lsu.(loads := c.lsu.loads[k := s.(addr := Some(addr))]))
    else c.(iq := c.iq - {s.entry}, fu := c.fu[s.entry := Error(LOAD_ADDRESS_MISALIGNED, addr)])
  }

  function DoConnectStore(m: Machine, c: State, k: nat): State
    requires Shape(c) && k < |c.lsu.stores|
  {
    var s := c.lsu.stores[k];
    c.(iq := c.iq - {s.entry},
       lsu := c.lsu.(stores := c.lsu.stores[k :=
         s.(addr := Some(AddressOf(m, c, s.entry)), data := Some(Result2(c, s.entry)))]))
  }

  function DoIssueStore(c: State, k: nat): State
    requires Shape(c) && k < |c.lsu.stores| && c.lsu.stores[k].addr.Some?
  {
    var s := c.lsu.stores[k];
    c.(lsu := c.lsu.(stores := c.lsu.stores[k := s.(issued := true)]),
       fu := c.fu[s.entry := StoreResult(KindAt(c.log, s.entry).size, s.addr.value, c.log[s.entry].d.pc)])
  }

  function DoIssueLoad(c: State, k: nat): State
    requires k < |c.lsu.loads| && c.lsu.loads[k].addr.Some?
  {
    var s := c.lsu.loads[k];
    c.(lsu := c.lsu.(loads := c.lsu.loads[k := s.(executed := true)],
                     rreq := c.lsu.rreq + [(s.entry, WordOf(s.addr.value))]))
  }

  function DoCacheRead(c: State): State
    requires c.lsu.rreq != []
  {
    var (id, addr) := c.lsu.rreq[0];
    c.(lsu := c.lsu.(rreq := c.lsu.rreq[1..], pend := c.lsu.pend + [(id, Read(c.lsu.mem, addr))]))
  }

  function DoCacheWrite(c: State): State
    requires c.lsu.wreq != []
  {
    c.(lsu := c.lsu.(wreq := c.lsu.wreq[1..], mem := Write(c.lsu.mem, c.lsu.wreq[0])))
  }

  function DoLoadResponse(c: State, k: nat): State
    requires Shape(c) && c.lsu.pend != [] && k < |c.lsu.loads| && c.lsu.loads[k].addr.Some?
  {
    var s, word := c.lsu.loads[k], c.lsu.pend[0].1;
    var kind := KindAt(c.log, s.entry);
    c.(lsu := c.lsu.(pend := c.lsu.pend[1..]),
       fu := c.fu[s.entry := Ok(Extract(kind.size, kind.signed, s.addr.value, word), Next(c.log[s.entry].d.pc), false)])
  }

  function DoDrainStore(c: State): State
    requires c.lsu.stb != []
  {
    c.(lsu := c.lsu.(stb := c.lsu.stb[1..]))
  }

  function Woken(log: seq<Entry>, iq: map<nat, (bool, bool)>, pdst: nat): map<nat, (bool, bool)>
    requires forall id :: id in iq ==> id < |log|
  {
    map id | id in iq :: (iq[id].0 || log[id].src1 == pdst, iq[id].1 || log[id].src2 == pdst)
  }

  function ValueOf(r: Result): Word {
    match r
    case Ok(v, _, _) => v
    case Error(_, _) => ZERO
  }

  /** The number whose slot of the reorder buffer an index selects: `id` itself while
      it is in flight, whatever instruction took or takes its slot afterwards. */
  function SlotNumber(base: nat, id: nat): nat {
    base + (id - base) % ROB_SIZE
  }

  /** `rob.writeBack` and `wakeupFn`. */
  function Complete(c: State, slot: nat, pdst: nat, r: Result): State
    requires Shape(c) && pdst < R.PHYS_REGS
  {
    c.(results := c.results[slot := r],
       iq := Woken(c.log, c.iq, pdst),
       regs := if pdst == 0 then c.regs else c.regs[pdst := ValueOf(r)],
       table := R.Wakeup(c.table, pdst))
  }

  function DoWriteBack(c: State, id: nat): State
    requires Shape(c) && id in c.fu
  {
    Complete(c.(fu := c.fu - {id}), SlotNumber(c.base, id), c.log[id].pdst, c.fu[id])
  }

  /** `execute_direct`: the operands are those of the oldest instruction still in the
      queue, whichever instruction is at the head. */
  function DoExecDirect(m: Machine, c: State, r: Result): State
    requires Shape(c) && InFlight(c, c.base) && c.direct != []
  {
    var csr := if c.log[c.base].d.epoch == c.epoch then Executed(m, c).1 else c.csr;
    Complete(c, c.base, c.log[c.base].pdst, r).(csr := csr, direct := c.direct[1..])
  }

  /** `lsu.commit`: the oldest memory operation leaves its queue; a store that must
      commit enters the store buffer and looks for a younger load that already read
      its word, whose number is returned. */
  function LsuCommit(c: State, mustCommit: bool): (Lsu, Option<nat>)
    requires Shape(c) && HeadDone(c) && QueuesHoldHead(c) && IsMemory(KindAt(c.log, c.base))
  {
    var l := c.lsu.(tags := c.lsu.tags[1..]);
    if c.lsu.tags[0].LoadTag? then (l.(loads := l.loads[1..]), None)
    else
      var s := c.lsu.stores[0];
      var l' := l.(stores := l.stores[1..]);
      if !mustCommit then (l', None)
      else
        var b := StoreBeat(KindAt(c.log, s.entry).size, s.addr.value, s.data.value);
        (l'.(stb := l'.stb + [b], wreq := l'.wreq + [b]), OldestReader(l'.loads, b.addr))
  }

  /** `commit_dmem`. */
  function DmemCommit(c: State): State
    requires Shape(c) && HeadDone(c) && QueuesHoldHead(c)
  {
    if !IsMemory(KindAt(c.log, c.base)) then c else
      var (l, kill) := LsuCommit(c, c.log[c.base].d.epoch == c.epoch && c.results[c.base].Ok?);
      c.(lsu := l, killed := (if kill.Some? then c.killed + {kill.value} else c.killed) - {c.base})
  }

  /** `deqRob`: `redirect` is the pc to restart from when the pipeline is flushed. */
  function DeqRob(c: State, keep: bool, redirect: Option<Addr>): State
    requires R.Shape(c.table) && c.base < |c.log|
  {
    var e := c.log[c.base];
    var c' := c.(base := c.base + 1, results := c.results - {c.base},
                 table := R.Commit(c.table, Dest(e.d.instr), e.pdst, keep, redirect.Some?));
    if redirect.None? then c' else
      c'.(epoch := c.epoch + 1, front := c.front.(pc := redirect.value))
  }

  function DoDiscard(c: State): State
    requires Shape(c) && HeadDone(c) && QueuesHoldHead(c)
  {
    DeqRob(DmemCommit(c), false, None)
  }

  /** `commit_instruction`, the killed bit being read before `commit_dmem` clears it. */
  function DoCommit(m: Machine, c: State): State
    requires Shape(c) && HeadDone(c) && QueuesHoldHead(c)
  {
    var e := c.log[c.base];
    var d := DmemCommit(c);
    if c.base in c.killed then DeqRob(d, false, Some(e.d.pc))
    else match c.results[c.base]
      case Ok(_, next, flush) =>
        DeqRob(d.(csr := if e.d.instr.kind.System? then d.csr else m.retire(d.csr)), true,
               if next != e.d.pred || flush then Some(next) else None)
      case Error(cause, tval) =>
        var (csr, pc) := m.trap(d.csr, e.d.pc, false, cause, tval);
        DeqRob(d.(csr := csr), false, Some(pc))
  }

  function DoInterrupt(m: Machine, c: State, cause: nat): State
    requires Shape(c) && HeadDone(c)
  {
    var (csr, pc) := m.trap(c.csr, c.log[c.base].d.pc, true, cause, 0);
    DeqRob(c.(csr := csr), false, Some(pc))
  }

  function Apply(m: Machine, c: State, e: Event): State
    requires Shape(c) && Enabled(m, c, e)
  {
    match e
    case Fetch(pred) => DoFetch(m, c, pred)
    case Rename => DoRename(c)
    case Drop => DoDrop(c)
    case Dispatch => DoDispatch(c)
    case Issue(id) => DoIssue(m, c, id)
    case ConnectLoad(k) => DoConnectLoad(m, c, k)
    case ConnectStore(k) => DoConnectStore(m, c, k)
    case IssueStore(k) => DoIssueStore(c, k)
    case IssueLoad(k) => DoIssueLoad(c, k)
    case CacheRead => DoCacheRead(c)
    case CacheWrite => DoCacheWrite(c)
    case LoadResponse(k) => DoLoadResponse(c, k)
    case DrainStore => DoDrainStore(c)
    case WriteBack(id) => DoWriteBack(c, id)
    case ExecDirect(r) => DoExecDirect(m, c, r)
    case Discard => DoDiscard(c)
    case Commit => DoCommit(m, c)
    case Interrupt(cause) => DoInterrupt(m, c, cause)
  }

  /** Reset: empty queues, registers naming themselves, all values zero. */
  function Init(pc: Addr, mem: Memory, csr: Csr): State {
    State(0, 0, [], R.Initial(), seq(R.PHYS_REGS, i => ZERO), Front(pc, [], None),
          map[], map[], map[], [], Lsu([], [], [], [], [], [], [], mem), {}, csr)
  }
}
