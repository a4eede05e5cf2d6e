/** The registers of all the units together with the core, over whole runs: whatever the
    units choose to issue is a rule of the core, and after every rule all of them hold what
    the core model says. */
module CoreRegisters {
  import opened Words
  import opened Wrappers
  import opened Isa
  import opened LsuSpec
  import opened Bits
  import opened Ring
  import opened Core
  import opened CoreInvariant
  import opened CoreDispatch
  import opened CoreRetire
  import opened CoreTheorems
  import opened CoreUnits
  import I = IssueQueue
  import L = LoadQueue
  import R = RenamingSpec
  import S = StoreQueue
  import Rob
  import RenamingTable

  // ----- what each rule does to each part of the state

  /** Rules under which an instruction leaves the reorder buffer. */
  predicate Retires(e: Event) {
    e.Discard? || e.Commit? || e.Interrupt?
  }

  /** Rules that write a result in the reorder buffer and wake its readers up. */
  predicate WritesResult(e: Event) {
    e.WriteBack? || e.ExecDirect?
  }

  /** What a retirement does to the table: whether the new name is kept, and where the
      pipeline restarts, if it does. */
  function Retirement(m: Machine, c: State, e: Event): (bool, Option<Addr>)
    requires HeadDone(c)
  {
    var d, killed := c.log[c.base].d, c.base in c.killed;
    match e
    case Commit =>
      if killed then (false, Some(d.pc))
      else
        (match c.results[c.base]
         case Ok(_, next, flush) => (true, if next != d.pred || flush then Some(next) else None)
         case Error(cause, tval) => (false, Some(0)))
    case Interrupt(_) => (false, Some(0))
    case _ => (false, None)
  }

  /** What leaves the reorder buffer: `base` moves, its result goes, and the queues change
      as `lsu.commit` does. */
  ghost predicate Retired(m: Machine, c: State, e: Event, c': State)
    requires Shape(c) && HeadDone(c) && QueuesHoldHead(c)
  {
    var (keep, redirect) := Retirement(m, c, e);
    && c'.log == c.log && c'.base == c.base + 1 && c'.results == c.results - {c.base} && c'.iq == c.iq
    && R.Shape(c.table) && c'.table == DeqRob(c, keep, redirect).table
    && c'.lsu == if e.Interrupt? then c.lsu else DmemCommit(c).lsu
  }

  lemma {:induction false} DeqParts(c: State, d: State, keep: bool, redirect: Option<Addr>, other: Option<Addr>)
    requires Shape(c) && HeadDone(c) && (redirect.Some? <==> other.Some?)
    requires d == c.(lsu := d.lsu, killed := d.killed, csr := d.csr)
    ensures var c' := DeqRob(d, keep, redirect);
            && c'.log == c.log && c'.base == c.base + 1 && c'.results == c.results - {c.base} && c'.iq == c.iq
            && R.Shape(c.table) && c'.table == DeqRob(c, keep, other).table && c'.lsu == d.lsu
  {
    hide R.Commit, KindAt;
  }

  lemma {:induction false} CommitRetires(m: Machine, c: State)
    requires Shape(c) && HeadDone(c) && QueuesHoldHead(c)
    ensures Retired(m, c, Commit, DoCommit(m, c))
  {
    hide Shape, DmemCommit, QueuesHoldHead, R.Commit, KindAt, DeqRob;
    TableShape(c);
    CommitFrame(c);
    var d, e, other := DmemCommit(c), c.log[c.base], Retirement(m, c, Commit).1;
    if c.base in c.killed {
      DeqParts(c, d, false, Some(e.d.pc), other);
    } else {
      match c.results[c.base]
      case Ok(_, next, flush) =>
        DeqParts(c, d.(csr := if e.d.instr.kind.System? then d.csr else m.retire(d.csr)), true,
          if next != e.d.pred || flush then Some(next) else None, other);
      case Error(cause, tval) =>
        var (csr, pc) := m.trap(d.csr, e.d.pc, false, cause, tval);
        DeqParts(c, d.(csr := csr), false, Some(pc), other);
    }
  }

  lemma {:induction false} OthersRetire(m: Machine, c: State, cause: nat)
    requires Shape(c) && HeadDone(c) && QueuesHoldHead(c)
    ensures Retired(m, c, Discard, DoDiscard(c)) && Retired(m, c, Event.Interrupt(cause), DoInterrupt(m, c, cause))
  {
    hide Shape, DmemCommit, QueuesHoldHead, R.Commit, KindAt;
    TableShape(c);
    CommitFrame(c);
  }

  lemma {:induction false} RetireParts(m: Machine, c: State, e: Event)
    requires Shape(c) && Enabled(m, c, e) && Retires(e)
    ensures HeadDone(c) && QueuesHoldHead(c) && Retired(m, c, e, Apply(m, c, e))
  {
    hide Shape, DoCommit, DoDiscard, DoInterrupt, Retired, QueuesHoldHead;
    NoMemory(c);
    match e
    case Discard => OthersRetire(m, c, 0);
    case Commit => CommitRetires(m, c);
    case Interrupt(cause) => OthersRetire(m, c, cause);
  }

  lemma {:induction false} NoMemory(c: State)
    requires Shape(c)
    ensures HeadDone(c) && KindAt(c.log, c.base).Compute? ==> QueuesHoldHead(c)
  {
  }

  /** The rules that neither retire nor write a result. */
  lemma {:induction false} QuietParts(m: Machine, c: State, e: Event)
    requires Shape(c) && Enabled(m, c, e) && !Retires(e) && !WritesResult(e)
    ensures var c' := Apply(m, c, e);
            && c'.log == (if e.Dispatch? then c.log + [NewEntry(c)] else c.log) && c'.base == c.base
            && c'.results == c.results && (!e.Dispatch? ==> c'.table == c.table)
  {
    hide Shape, Blocked, R.Allocate, R.Allocated, EnterLsu, AddressOf, Extract, StoreResult;
  }

  lemma {:induction false} LogOf(m: Machine, c: State, e: Event)
    requires Shape(c) && Enabled(m, c, e)
    ensures Apply(m, c, e).log == if e.Dispatch? then c.log + [NewEntry(c)] else c.log
    ensures Apply(m, c, e).base == if Retires(e) then c.base + 1 else c.base
  {
    hide Shape, Enabled, Apply;
    RuleParts(m, c, e);
    if Retires(e) {
      RetireParts(m, c, e);
    } else if e.WriteBack? {
      WriteFrame(c, e.id);
    } else if e.ExecDirect? {
      ExecFrame(m, c, e.r);
    } else {
      QuietParts(m, c, e);
    }
  }

  lemma {:induction false} CommitFrame(c: State)
    requires Shape(c) && HeadDone(c) && QueuesHoldHead(c)
    ensures var d := DmemCommit(c); d == c.(lsu := d.lsu, killed := d.killed)
    ensures !IsMemory(KindAt(c.log, c.base)) ==> DmemCommit(c).lsu == c.lsu
  {
    hide Shape, OldestReader, StoreBeat;
  }

  lemma {:induction false} WriteFrame(c: State, id: nat)
    requires Shape(c) && id in c.fu
    ensures var t := DoWriteBack(c, id);
            && id < |c.log| && c.log[id].pdst < R.PHYS_REGS && Shape(c.(fu := c.fu - {id}))
            && t == Complete(c.(fu := c.fu - {id}), SlotNumber(c.base, id), c.log[id].pdst, c.fu[id])
            && t.log == c.log && t.base == c.base && t.lsu == c.lsu
  {
  }

  lemma {:induction false} ExecFrame(m: Machine, c: State, r: Result)
    requires Shape(c) && InFlight(c, c.base) && c.direct != []
    ensures var t, s := DoExecDirect(m, c, r), Complete(c, c.base, c.log[c.base].pdst, r);
            && c.log[c.base].pdst < R.PHYS_REGS && SlotNumber(c.base, c.base) == c.base
            && t.log == c.log && t.base == c.base && t.lsu == c.lsu
            && t.results == s.results && t.iq == s.iq && t.table == s.table
  {
  }

  /** Which rules change which queue of the load/store unit. */
  lemma {:induction false} LsuSame(m: Machine, c: State, e: Event)
    requires Shape(c) && Enabled(m, c, e)
    ensures !e.Dispatch? && !e.ConnectLoad? && !e.IssueLoad? && !e.Discard? && !e.Commit? ==>
              Apply(m, c, e).lsu.loads == c.lsu.loads
    ensures !e.Dispatch? && !e.ConnectStore? && !e.IssueStore? && !e.Discard? && !e.Commit? ==>
              Apply(m, c, e).lsu.stores == c.lsu.stores
    ensures !e.DrainStore? && !e.Discard? && !e.Commit? ==> Apply(m, c, e).lsu.stb == c.lsu.stb
    ensures e.Discard? || e.Commit? ==> Apply(m, c, e).lsu == DmemCommit(c).lsu
  {
    if Retires(e) {
      hide Shape, Enabled, Apply;
      RetireParts(m, c, e);
    } else {
      hide Shape, DmemCommit, Complete, Executed, Blocked, QueuesHoldHead, R.Allocate, R.Allocated, AddressOf, Extract,
           StoreResult, DoWriteBack, DoExecDirect;
      match e
      case WriteBack(id) => WriteFrame(c, id);
      case ExecDirect(r) => ExecFrame(m, c, r);
      case _ =>
    }
  }

  lemma {:induction false} DispatchParts(m: Machine, c: State)
    requires Shape(c) && Enabled(m, c, Dispatch)
    ensures c.front.renamed.Some? && |c.table.free| > 0 && Apply(m, c, Dispatch) == DoDispatch(c)
    ensures var k := c.front.renamed.value.d.instr.kind;
            && NewEntry(c).d.instr.kind == k
            && (!k.Load? ==> DoDispatch(c).lsu.loads == c.lsu.loads)
            && (!k.Store? ==> DoDispatch(c).lsu.stores == c.lsu.stores) && DoDispatch(c).lsu.stb == c.lsu.stb
  {
    hide Shape, R.Allocate, R.Allocated;
  }

  /** The other rules, by name. */
  lemma {:induction false} RuleParts(m: Machine, c: State, e: Event)
    requires Shape(c) && Enabled(m, c, e)
    ensures match e
            case ConnectLoad(k) => k < |c.lsu.loads| && Apply(m, c, e) == DoConnectLoad(m, c, k)
            case ConnectStore(k) => k < |c.lsu.stores| && Apply(m, c, e) == DoConnectStore(m, c, k)
            case IssueLoad(k) => k < |c.lsu.loads| && c.lsu.loads[k].addr.Some? && Apply(m, c, e) == DoIssueLoad(c, k)
            case IssueStore(k) => k < |c.lsu.stores| && c.lsu.stores[k].addr.Some?
                  && Apply(m, c, e) == DoIssueStore(c, k)
            case Issue(id) => Ready(c, id) && Apply(m, c, e) == DoIssue(m, c, id)
            case WriteBack(id) => id in c.fu && Apply(m, c, e) == DoWriteBack(c, id)
            case ExecDirect(r) => InFlight(c, c.base) && c.direct != [] && Apply(m, c, e) == DoExecDirect(m, c, r)
            case Discard => HeadDone(c) && QueuesHoldHead(c)
            case Commit => HeadDone(c) && QueuesHoldHead(c)
            case Interrupt(_) => HeadDone(c) && KindAt(c.log, c.base).Compute?
            case DrainStore => |c.lsu.stb| > 0 && Apply(m, c, e) == DoDrainStore(c)
            case _ => true
  {
    hide Shape, Blocked, QueuesHoldHead, Executed;
  }

  // ----- the load queue

  lemma {:induction false} LongerLoads(log: seq<Entry>, e: Entry, loads: seq<LoadSlot<nat>>)
    requires AreLoads(log, loads)
    ensures AreLoads(log + [e], loads) && LoadsOf(log + [e], loads) == LoadsOf(log, loads)
  {
    assert forall id :: 0 <= id < |log| ==> (log + [e])[id] == log[id];
  }

  lemma {:induction false} LoadSlotAt(q: L.LoadQ, k: nat)
    requires q.Valid() && k < |q.Contents()|
    ensures q.head < q.size && Slot(q.head, k, q.size) < q.size
          && Distance(q.head, Slot(q.head, k, q.size), q.size) == k
  {
  }

  method StepLoads(q: L.LoadQ, m: Machine, c: State, ghost a: Arch, e: Event)
    requires Inv(m, c, a) && Shape(c) && Enabled(m, c, e) && HoldsLoads(q, c.log, c.lsu.loads)
    modifies q
    ensures var c' := Apply(m, c, e); HoldsLoads(q, c'.log, c'.lsu.loads)
  {
    hide Inv, Shape, DmemCommit, Complete, Executed, Blocked, QueuesHoldHead, LoadsOf, IsRing, L.InOrder, R.Allocate,
         R.Commit, Apply, Enabled;
    LogOf(m, c, e);
    LsuSame(m, c, e);
    RuleParts(m, c, e);
    match e
    case Dispatch =>
      DispatchParts(m, c);
      if c.front.renamed.value.d.instr.kind.Load? {
        var index := DispatchLoad(q, m, c);
      } else {
        LongerLoads(c.log, NewEntry(c), c.lsu.loads);
      }
    case ConnectLoad(k) =>
      LoadSlotAt(q, k);
      var misaligned := ConnectLoadQueue(q, m, c, a, k, Slot(q.head, k, q.size));
    case IssueLoad(k) =>
      LoadSlotAt(q, k);
      MarkLoadQueue(q, m, c, k, Slot(q.head, k, q.size));
    case Discard =>
      CommitLoads(q, c);
    case Commit =>
      CommitLoads(q, c);
    case _ =>
  }

  /** The load part of a commit, if the head is a load. */
  method CommitLoads(q: L.LoadQ, c: State)
    requires Shape(c) && HeadDone(c) && QueuesHoldHead(c) && HoldsLoads(q, c.log, c.lsu.loads)
    modifies q
    ensures HoldsLoads(q, c.log, DmemCommit(c).lsu.loads)
  {
    hide Shape, OldestReader, StoreBeat, LoadsOf, IsRing, L.InOrder;
    CommitFrame(c);
    if IsMemory(KindAt(c.log, c.base)) && c.lsu.tags[0].LoadTag? {
      RetireLoad(q, c);
    }
  }

  // ----- the store queue and the store buffer

  ghost predicate HoldsBuffer(b: S.StoreBuffer, stb: seq<Beat>)
    reads b
  {
    b.Valid() && b.size == STB_SIZE && b.Contents() == stb
  }

  lemma {:induction false} LongerStores(log: seq<Entry>, e: Entry, stores: seq<StoreSlot<nat>>)
    requires AreStores(log, stores)
    ensures AreStores(log + [e], stores) && StoresOf(log + [e], stores) == StoresOf(log, stores)
  {
    assert forall id :: 0 <= id < |log| ==> (log + [e])[id] == log[id];
  }

  lemma {:induction false} StoreSlotAt(q: S.StoreQ, k: nat)
    requires q.Valid() && k < |q.Contents()|
    ensures q.head < q.size && Slot(q.head, k, q.size) < q.size
          && Distance(q.head, Slot(q.head, k, q.size), q.size) == k
  {
  }

  /** All rules but `issueStore`, where the queue chooses. */
  method StepStores(q: S.StoreQ, b: S.StoreBuffer, m: Machine, c: State, e: Event)
    requires Shape(c) && Enabled(m, c, e) && !e.IssueStore?
    requires HoldsStores(q, c.log, c.lsu.stores) && HoldsBuffer(b, c.lsu.stb)
    modifies q, b
    ensures var c' := Apply(m, c, e); HoldsStores(q, c'.log, c'.lsu.stores) && HoldsBuffer(b, c'.lsu.stb)
  {
    hide Shape, DmemCommit, Complete, Executed, Blocked, QueuesHoldHead, StoresOf, IsRing, S.InOrder, R.Allocate,
         R.Commit, Apply, Enabled;
    LogOf(m, c, e);
    LsuSame(m, c, e);
    RuleParts(m, c, e);
    match e
    case Dispatch =>
      DispatchParts(m, c);
      if c.front.renamed.value.d.instr.kind.Store? {
        var index := DispatchStore(q, m, c);
      } else {
        LongerStores(c.log, NewEntry(c), c.lsu.stores);
      }
    case ConnectStore(k) =>
      StoreSlotAt(q, k);
      ConnectStoreQueue(q, m, c, k, Slot(q.head, k, q.size));
    case DrainStore =>
      DrainBuffer(b, c);
    case Discard =>
      CommitStores(q, b, c);
    case Commit =>
      CommitStores(q, b, c);
    case _ =>
  }

  /** The store part of a commit, if the head is a store. */
  method CommitStores(q: S.StoreQ, b: S.StoreBuffer, c: State)
    requires Shape(c) && HeadDone(c) && QueuesHoldHead(c)
    requires HoldsStores(q, c.log, c.lsu.stores) && HoldsBuffer(b, c.lsu.stb)
    modifies q, b
    ensures HoldsStores(q, c.log, DmemCommit(c).lsu.stores) && HoldsBuffer(b, DmemCommit(c).lsu.stb)
  {
    CommitFrame(c);
    LoadCommit(c);
    hide Shape, DmemCommit, QueuesHoldHead, StoresOf, IsRing, S.InOrder;
    if IsMemory(KindAt(c.log, c.base)) && c.lsu.tags[0].StoreTag? {
      var beat := RetireStore(q, c);
      if MustStore(c) {
        EnterBuffer(b, c, beat);
      }
    }
  }

  lemma {:induction false} LoadCommit(c: State)
    requires Shape(c) && HeadDone(c) && QueuesHoldHead(c)
    ensures IsMemory(KindAt(c.log, c.base)) ==> c.lsu.tags != []
    ensures IsMemory(KindAt(c.log, c.base)) && c.lsu.tags[0].LoadTag? ==>
              DmemCommit(c).lsu.stores == c.lsu.stores && DmemCommit(c).lsu.stb == c.lsu.stb
  {
    hide Shape;
  }

  // ----- the reorder buffer

  method StepRob(rob: Rob.ReorderBuffer<RobEntry, Result>, m: Machine, c: State, e: Event)
    requires Shape(c) && Enabled(m, c, e) && HoldsRob(rob, c.log, c.base, c.results)
    modifies rob
    ensures var c' := Apply(m, c, e); HoldsRob(rob, c'.log, c'.base, c'.results)
  {
    hide Shape, DmemCommit, Complete, Executed, Blocked, QueuesHoldHead, R.Allocate, R.Commit, Apply, Enabled,
         HoldsEntries, HoldsResults, Rob.InOrder;
    LogOf(m, c, e);
    ResultsOf(m, c, e);
    RuleParts(m, c, e);
    match e
    case Dispatch =>
      DispatchParts(m, c);
      var index := DispatchRob(rob, m, c);
    case WriteBack(id) =>
      WriteFrame(c, id);
      WriteBackRob(rob, c.(fu := c.fu - {id}), id, c.log[id].pdst, c.fu[id]);
    case ExecDirect(r) =>
      ExecFrame(m, c, r);
      WriteBackRob(rob, c, c.base, c.log[c.base].pdst, r);
    case Discard =>
      RetireRob(rob, c);
    case Commit =>
      RetireRob(rob, c);
    case Interrupt(cause) =>
      RetireRob(rob, c);
    case _ =>
  }

  lemma {:induction false} ResultsOf(m: Machine, c: State, e: Event)
    requires Shape(c) && Enabled(m, c, e)
    ensures !WritesResult(e) && !Retires(e) ==> Apply(m, c, e).results == c.results
    ensures Retires(e) ==> Apply(m, c, e).results == c.results - {c.base}
  {
    hide Shape, Enabled, Apply;
    if Retires(e) {
      RetireParts(m, c, e);
    } else if !WritesResult(e) {
      QuietParts(m, c, e);
    }
  }

  // ----- the renaming table

  lemma {:induction false} TableOf(m: Machine, c: State, e: Event)
    requires Shape(c) && Enabled(m, c, e)
    ensures !WritesResult(e) && !Retires(e) && !e.Dispatch? ==> Apply(m, c, e).table == c.table
    ensures Retires(e) ==>
              HeadDone(c) && R.Shape(c.table)
              && Apply(m, c, e).table == DeqRob(c, Retirement(m, c, e).0, Retirement(m, c, e).1).table
  {
    hide Shape, Enabled, Apply;
    if Retires(e) {
      RetireParts(m, c, e);
    } else if !WritesResult(e) {
      QuietParts(m, c, e);
    }
  }

  /** The sources of a renamed instruction of the current epoch are registers. */
  lemma {:induction false} RenamedBound(m: Machine, c: State, a: Arch)
    requires Inv(m, c, a) && c.front.renamed.Some? && c.front.renamed.value.d.epoch == c.epoch
    ensures c.front.renamed.value.src1 < R.PHYS_REGS && c.front.renamed.value.src2 < R.PHYS_REGS
  {
    hide StreamInv, QueueInv, StampInv, DirectInv, TokenInv, LoadTokens, StoreTokens, ReadingInv, RequestInv, ArchInv,
         DestInv, IssueInv, ComputeInv, LoadValues, StoreValues, BufferInv, FreshInv, KilledInv, CsrInv, Partition,
         Lookup;
    var r := c.front.renamed.value;
    NewSources(c, r.d.instr.rs1);
    NewSources(c, r.d.instr.rs2);
    assert Sources(Entry(r.d, 0, r.src1, r.src2), c.log, c.base, |c.log|, c.table.naming, c.epoch);
  }

  method StepTable(t: RenamingTable.Table, m: Machine, c: State, ghost a: Arch, e: Event)
    requires Inv(m, c, a) && Shape(c) && Enabled(m, c, e) && t.Valid() && t.Abs() == c.table
    modifies t
    ensures t.Valid() && t.Abs() == Apply(m, c, e).table
  {
    hide Inv, Shape, DmemCommit, Complete, Executed, Blocked, QueuesHoldHead, R.Allocate, R.Commit, Apply, DeqRob,
         Retirement, DoDispatch, DoWriteBack, DoExecDirect, KindAt;
    TableOf(m, c, e);
    RuleParts(m, c, e);
    if e.Dispatch? {
      RenamedBound(m, c, a);
      DispatchParts(m, c);
      var pdst, ready1, ready2 := DispatchTable(t, m, c);
    } else if e.WriteBack? {
      WriteFrame(c, e.id);
      WakeTable(t, c.(fu := c.fu - {e.id}), SlotNumber(c.base, e.id), c.log[e.id].pdst, c.fu[e.id]);
    } else if e.ExecDirect? {
      ExecFrame(m, c, e.r);
      WakeTable(t, c, c.base, c.log[c.base].pdst, e.r);
    } else if Retires(e) {
      RetireTable(t, m, c, a, Retirement(m, c, e).0, Retirement(m, c, e).1);
    }
  }

  // ----- the issue queues

  /** The instruction that a rule takes out of an issue queue. */
  function Issued(c: State, e: Event): Option<nat> {
    match e
    case Issue(id) => Some(id)
    case ConnectLoad(k) => if k < |c.lsu.loads| then Some(c.lsu.loads[k].entry) else None
    case ConnectStore(k) => if k < |c.lsu.stores| then Some(c.lsu.stores[k].entry) else None
    case _ => None
  }

  lemma {:induction false} IqOf(m: Machine, c: State, e: Event)
    requires Shape(c) && Enabled(m, c, e)
    ensures !e.Dispatch? && !WritesResult(e) ==>
              Apply(m, c, e).iq == if Issued(c, e).Some? then c.iq - {Issued(c, e).value} else c.iq
    ensures e.Dispatch? ==> forall id :: id in c.iq && id != |c.log| ==>
              id in Apply(m, c, e).iq && Apply(m, c, e).iq[id] == c.iq[id]
  {
    if Retires(e) {
      hide Enabled, Apply, Shape;
      RetireParts(m, c, e);
    } else if !WritesResult(e) {
      QuietIq(m, c, e);
    }
  }

  lemma {:induction false} QuietIq(m: Machine, c: State, e: Event)
    requires Shape(c) && Enabled(m, c, e) && !Retires(e) && !WritesResult(e)
    ensures !e.Dispatch? ==>
              Apply(m, c, e).iq == if Issued(c, e).Some? then c.iq - {Issued(c, e).value} else c.iq
    ensures e.Dispatch? ==> forall id :: id in c.iq && id != |c.log| ==>
              id in Apply(m, c, e).iq && Apply(m, c, e).iq[id] == c.iq[id]
  {
    hide Shape, Blocked, R.Allocate, R.Allocated, EnterLsu, AddressOf, Extract, StoreResult;
  }

  /** A queue whose instructions a rule leaves alone. */
  lemma {:induction false} WaitingFrame(contents: seq<I.Waiting<nat>>, log: seq<Entry>, log': seq<Entry>,
        iq: map<nat, (bool, bool)>, iq': map<nat, (bool, bool)>, ids: set<nat>)
    requires AreWaiting(contents, log, iq, ids) && log <= log'
    requires forall id :: id in ids && id in iq && id < |log| ==> id in iq' && iq'[id] == iq[id]
    ensures AreWaiting(contents, log', iq', ids) && forall id :: id in ids ==> id < |log|
  {
    forall k | 0 <= k < |contents|
      ensures IsWaiting(contents[k], log', iq')
    {
      assert IsWaiting(contents[k], log, iq);
    }
  }

  /** All rules but the one that takes an instruction out of this queue. */
  method StepWaiting(q: I.Queue<nat>, m: Machine, c: State, e: Event, enters: bool, ghost ids: set<nat>)
    requires Shape(c) && Enabled(m, c, e) && HoldsWaiting(q, c.log, c.iq, ids)
    requires Issued(c, e).Some? ==> Issued(c, e).value !in ids
    requires enters ==> e.Dispatch? && q.head.Some?
    requires enters ==> var k := c.front.renamed.value.d.instr.kind; k.Compute? || IsMemory(k)
    modifies q
    ensures var c' := Apply(m, c, e); HoldsWaiting(q, c'.log, c'.iq, if enters then ids + {|c.log|} else ids)
  {
    hide Shape, Apply, DmemCommit, Complete, Executed, Blocked, QueuesHoldHead, R.Allocate, R.Commit, AreWaiting,
          I.Woken;
    LogOf(m, c, e);
    IqOf(m, c, e);
    RuleParts(m, c, e);
    if enters {
      DispatchParts(m, c);
      DispatchQueue(q, m, c, ids);
    } else if e.WriteBack? {
      WriteFrame(c, e.id);
      WakeQueue(q, c.(fu := c.fu - {e.id}), ids, SlotNumber(c.base, e.id), c.log[e.id].pdst, c.fu[e.id]);
    } else if e.ExecDirect? {
      ExecFrame(m, c, e.r);
      WakeQueue(q, c, ids, c.base, c.log[c.base].pdst, e.r);
    } else {
      WaitingFrame(q.Contents(), c.log, Apply(m, c, e).log, c.iq, Apply(m, c, e).iq, ids);
    }
  }

  // ----- all of them

  /** The units of src/CoreOOO.bsv and src/lsu/LSU.bsv, and which waiting instructions each
      issue queue has. */
  class Units {
    const loads: L.LoadQ
    const stores: S.StoreQ
    const buffer: S.StoreBuffer
    const rob: Rob.ReorderBuffer<RobEntry, Result>
    const table: RenamingTable.Table
    const alu: I.Queue<nat>
    const control: I.Queue<nat>
    const memory: I.Queue<nat>
    const size: nat
    ghost var aluIds: set<nat>
    ghost var controlIds: set<nat>
    ghost var memoryIds: set<nat>

    /** The registers hold what the core model says. */
    ghost predicate Hold(c: State)
      reads this, loads, stores, buffer, rob, table, alu, control, memory
    {
      && alu != control && alu != memory && control != memory
      && alu.size == control.size == memory.size == size
      && HoldsLoads(loads, c.log, c.lsu.loads) && HoldsStores(stores, c.log, c.lsu.stores)
      && HoldsBuffer(buffer, c.lsu.stb) && HoldsRob(rob, c.log, c.base, c.results)
      && table.Valid() && table.Abs() == c.table
      && HoldsWaiting(alu, c.log, c.iq, aluIds) && HoldsWaiting(control, c.log, c.iq, controlIds)
      && HoldsWaiting(memory, c.log, c.iq, memoryIds)
      && Divided(c.log, c.iq.Keys, aluIds, controlIds, memoryIds)
    }

    constructor (n: nat, pc: Addr, mem: Memory, csr: Csr)
      requires 0 < n
      ensures Hold(Init(pc, mem, csr)) && size == n && WaitsOf(this) == Waits({}, {}, {})
      ensures fresh(loads) && fresh(stores) && fresh(buffer) && fresh(rob) && fresh(table) && fresh(alu)
            && fresh(control)
      ensures fresh(memory)
    {
      hide HoldsLoads, HoldsStores, HoldsBuffer, HoldsRob, HoldsWaiting, Divided, Init, R.Initial;
      var newLoads := NewLoads();
      var newStores := NewStores();
      var newBuffer := NewBuffer();
      var newRob := NewRob();
      var newAlu := NewQueue(n);
      var newControl := NewQueue(n);
      var newMemory := NewQueue(n);
      loads, stores, buffer, rob := newLoads, newStores, newBuffer, newRob;
      alu, control, memory := newAlu, newControl, newMemory;
      table := new RenamingTable.Table();
      aluIds, controlIds, memoryIds, size := {}, {}, {}, n;
      new;
      InitialFields(pc, mem, csr);
      NothingWaits();
    }
  }

  lemma {:induction false} NothingWaits()
    ensures Divided([], {}, {}, {}, {}) && var nothing: map<nat, (bool, bool)> := map[]; nothing.Keys == {}
  {
  }

  method NewLoads() returns (q: L.LoadQ)
    ensures fresh(q) && HoldsLoads(q, [], [])
  {
    q := new L.LoadQ(LQ_SIZE, L.Entry(0, 0, 0, 0, Full, false, 0));
    assert LoadsOf([], []) == [];
  }

  method NewStores() returns (q: S.StoreQ)
    ensures fresh(q) && HoldsStores(q, [], [])
  {
    q := new S.StoreQ(SQ_SIZE);
    assert StoresOf([], []) == [];
  }

  method NewBuffer() returns (b: S.StoreBuffer)
    ensures fresh(b) && HoldsBuffer(b, [])
  {
    b := new S.StoreBuffer(STB_SIZE);
  }

  method NewRob() returns (rob: Rob.ReorderBuffer<RobEntry, Result>)
    ensures fresh(rob) && HoldsRob(rob, [], 0, map[])
  {
    rob := new Rob.ReorderBuffer(ROB_SIZE, RobEntry(0, 0, Instr(Compute, 0, 0, 0, 0), 0, 0, 0), Error(0, 0));
  }

  method NewQueue(n: nat) returns (q: I.Queue<nat>)
    requires 0 < n
    ensures fresh(q) && q.size == n && HoldsWaiting(q, [], map[], {})
  {
    q := new I.Queue(n, I.Waiting(0, []));
  }

  datatype From = Alu | Control | Memory

  /** Which waiting instructions are in which issue queue. */
  datatype Waits = Waits(alu: set<nat>, control: set<nat>, memory: set<nat>)

  ghost function WaitsOf(u: Units): Waits
    reads u
  {
    Waits(u.aluIds, u.controlIds, u.memoryIds)
  }

  function IdsIn(w: Waits, from: From): set<nat> {
    match from case Alu => w.alu case Control => w.control case Memory => w.memory
  }

  /** The issue queue of an instruction of this kind, if it goes to one. */
  function QueueFor(k: Kind, control: bool): Option<From> {
    if k.Compute? then Some(if control then Control else Alu) else if IsMemory(k) then Some(Memory) else None
  }

  function With(w: Waits, from: From, ids: set<nat>): Waits {
    match from
    case Alu => w.(alu := ids)
    case Control => w.(control := ids)
    case Memory => w.(memory := ids)
  }

  /** The issue queue that a rule puts an instruction in, if any. */
  function Entering(c: State, e: Event, control: bool): Option<From> {
    if !e.Dispatch? || c.front.renamed.None? then None
    else QueueFor(c.front.renamed.value.d.instr.kind, control)
  }

  /** A dispatched instruction enters its issue queue. */
  function Entered(c: State, w: Waits, e: Event, control: bool): Waits {
    var q := Entering(c, e, control);
    if q.None? then w else With(w, q.value, IdsIn(w, q.value) + {|c.log|})
  }

  /** The issue queue, of `n` slots, that the renamed instruction needs is full. */
  predicate NoRoom(n: nat, c: State, w: Waits, control: bool) {
    var q := Entering(c, Dispatch, control);
    q.Some? && |IdsIn(w, q.value)| >= n
  }

  /** As many instructions wait in a queue as it has occupied slots. */
  lemma {:induction false} CountWaiting(contents: seq<I.Waiting<nat>>, log: seq<Entry>, iq: map<nat, (bool, bool)>,
        ids: set<nat>)
    requires AreWaiting(contents, log, iq, ids)
    ensures |ids| == |contents|
    decreases |contents|
  {
    hide IsWaiting;
    if contents == [] {
      assert ids == {};
    } else {
      var n := |contents| - 1;
      var x := contents[n].op;
      CountWaiting(contents[..n], log, iq, ids - {x});
    }
  }

  lemma {:induction false} FullQueue(q: I.Queue<nat>, log: seq<Entry>, iq: map<nat, (bool, bool)>, ids: set<nat>)
    requires HoldsWaiting(q, log, iq, ids)
    ensures q.head.None? <==> |ids| >= q.size
  {
    CountWaiting(q.Contents(), log, iq, ids);
    hide AreWaiting;
  }

  /** Every waiting instruction is in one issue queue, that of its kind. */
  ghost predicate Divided(log: seq<Entry>, waiting: set<nat>, alu: set<nat>, control: set<nat>, memory: set<nat>) {
    && alu !! control && waiting == alu + control + memory
    && (forall id :: id in alu + control ==> id < |log| && KindAt(log, id).Compute?)
    && (forall id :: id in memory ==> id < |log| && IsMemory(KindAt(log, id)))
  }

  /** All units but the issue queues; when the store queue chose, it has moved already. */
  method StepUnits(u: Units, m: Machine, c: State, ghost a: Arch, e: Event)
    requires Inv(m, c, a) && Shape(c) && Enabled(m, c, e)
    requires HoldsLoads(u.loads, c.log, c.lsu.loads) && HoldsBuffer(u.buffer, c.lsu.stb)
    requires var s := if e.IssueStore? then Apply(m, c, e) else c; HoldsStores(u.stores, s.log, s.lsu.stores)
    requires HoldsRob(u.rob, c.log, c.base, c.results) && u.table.Valid() && u.table.Abs() == c.table
    modifies u.loads, u.stores, u.buffer, u.rob, u.table
    ensures var c' := Apply(m, c, e);
            && HoldsLoads(u.loads, c'.log, c'.lsu.loads) && HoldsBuffer(u.buffer, c'.lsu.stb)
            && HoldsStores(u.stores, c'.log, c'.lsu.stores)
            && HoldsRob(u.rob, c'.log, c'.base, c'.results) && u.table.Valid() && u.table.Abs() == c'.table
  {
    hide *;
    StepLoads(u.loads, m, c, a, e);
    if e.IssueStore? {
      LsuSame(m, c, e);
    } else {
      StepStores(u.stores, u.buffer, m, c, e);
    }
    StepRob(u.rob, m, c, e);
    StepTable(u.table, m, c, a, e);
  }

  /** The issue queue that is to be entered has no free slot. */
  predicate Stuck(u: Units, q: Option<From>)
    reads u.alu, u.control, u.memory
  {
    || (q == Some(Alu) && u.alu.head.None?) || (q == Some(Control) && u.control.head.None?)
    || (q == Some(Memory) && u.memory.head.None?)
  }

  lemma {:induction false} StuckMeans(u: Units, c: State, e: Event, control: bool)
    requires u.alu.size == u.control.size == u.memory.size == u.size
    requires HoldsWaiting(u.alu, c.log, c.iq, u.aluIds) && HoldsWaiting(u.control, c.log, c.iq, u.controlIds)
    requires HoldsWaiting(u.memory, c.log, c.iq, u.memoryIds)
    ensures Stuck(u, Entering(c, e, control)) <==> e.Dispatch? && NoRoom(u.size, c, WaitsOf(u), control)
  {
    hide HoldsWaiting;
    FullQueue(u.alu, c.log, c.iq, u.aluIds);
    FullQueue(u.control, c.log, c.iq, u.controlIds);
    FullQueue(u.memory, c.log, c.iq, u.memoryIds);
  }

  /** The issue queues, for a rule that takes nothing out of them. */
  method StepQueues(u: Units, m: Machine, c: State, e: Event, control: bool) returns (ok: bool)
    requires Shape(c) && Enabled(m, c, e) && Issued(c, e).None?
    requires u.alu != u.control && u.alu != u.memory && u.control != u.memory
    requires u.alu.size == u.control.size == u.memory.size == u.size
    requires HoldsWaiting(u.alu, c.log, c.iq, u.aluIds) && HoldsWaiting(u.control, c.log, c.iq, u.controlIds)
    requires HoldsWaiting(u.memory, c.log, c.iq, u.memoryIds)
    requires Divided(c.log, c.iq.Keys, u.aluIds, u.controlIds, u.memoryIds)
    modifies u`aluIds, u`controlIds, u`memoryIds, u.alu, u.control, u.memory
    ensures ok ==>
              var c' := Apply(m, c, e);
              && HoldsWaiting(u.alu, c'.log, c'.iq, u.aluIds) && HoldsWaiting(u.control, c'.log, c'.iq, u.controlIds)
              && HoldsWaiting(u.memory, c'.log, c'.iq, u.memoryIds)
              && Divided(c'.log, c'.iq.Keys, u.aluIds, u.controlIds, u.memoryIds)
    ensures ok <==> !(e.Dispatch? && NoRoom(u.size, c, old(WaitsOf(u)), control))
    ensures ok ==> WaitsOf(u) == Entered(c, old(WaitsOf(u)), e, control)
    ensures !ok ==> unchanged(u) && unchanged(u.alu) && unchanged(u.control) && unchanged(u.memory)
  {
    hide Shape, Apply, Enabled, HoldsWaiting, Divided, Entered, NoRoom, Entering, IsMemory;
    DividedStays(m, c, e, WaitsOf(u), control);
    EnteringParts(m, c, e, WaitsOf(u), control);
    StuckMeans(u, c, e, control);
    var q := Entering(c, e, control);
    if Stuck(u, q) {
      return false;
    }
    StepWaiting(u.alu, m, c, e, q == Some(Alu), u.aluIds);
    StepWaiting(u.control, m, c, e, q == Some(Control), u.controlIds);
    StepWaiting(u.memory, m, c, e, q == Some(Memory), u.memoryIds);
    ghost var w := Entered(c, WaitsOf(u), e, control);
    u.aluIds, u.controlIds, u.memoryIds := w.alu, w.control, w.memory;
    ok := true;
  }

  /** A new instruction enters at most one queue. */
  lemma {:induction false} DividedMore(log: seq<Entry>, e: Entry, waiting: set<nat>, alu: set<nat>, control: set<nat>,
        memory: set<nat>)
    requires Divided(log, waiting, alu, control, memory)
    ensures Divided(log + [e], waiting, alu, control, memory)
    ensures var x, k := {|log|}, e.d.instr.kind;
            && (k.Compute? ==> Divided(log + [e], waiting + x, alu + x, control, memory))
            && (k.Compute? ==> Divided(log + [e], waiting + x, alu, control + x, memory))
            && (IsMemory(k) ==> Divided(log + [e], waiting + x, alu, control, memory + x))
  {
    assert forall id :: 0 <= id < |log| ==> (log + [e])[id] == log[id];
  }

  lemma {:induction false} WaitingKeys(m: Machine, c: State, e: Event)
    requires Shape(c) && Enabled(m, c, e) && Issued(c, e).None?
    ensures Apply(m, c, e).iq.Keys ==
            if e.Dispatch? && (NewEntry(c).d.instr.kind.Compute? || IsMemory(NewEntry(c).d.instr.kind))
            then c.iq.Keys + {|c.log|} else c.iq.Keys
  {
    hide Shape, Enabled, Apply, Complete, R.Allocate, R.Allocated, EnterLsu;
    RuleParts(m, c, e);
    IqOf(m, c, e);
    if e.Dispatch? {
      DispatchParts(m, c);
    } else if e.WriteBack? {
      WriteFrame(c, e.id);
      WokenKeys(c.(fu := c.fu - {e.id}), SlotNumber(c.base, e.id), c.log[e.id].pdst, c.fu[e.id]);
    } else if e.ExecDirect? {
      ExecFrame(m, c, e.r);
      WokenKeys(c, c.base, c.log[c.base].pdst, e.r);
    }
  }

  lemma {:induction false} DividedStays(m: Machine, c: State, e: Event, w: Waits, control: bool)
    requires Shape(c) && Enabled(m, c, e) && Issued(c, e).None?
    requires Divided(c.log, c.iq.Keys, w.alu, w.control, w.memory)
    ensures var c', w' := Apply(m, c, e), Entered(c, w, e, control);
            Divided(c'.log, c'.iq.Keys, w'.alu, w'.control, w'.memory)
  {
    hide Shape, Enabled, Apply, NewEntry, Divided, Issued;
    LogOf(m, c, e);
    WaitingKeys(m, c, e);
    if e.Dispatch? {
      DispatchParts(m, c);
      DividedMore(c.log, NewEntry(c), c.iq.Keys, w.alu, w.control, w.memory);
    }
  }

  /** What a dispatched instruction needs of its queue, and what it leaves of the others. */
  lemma {:induction false} EnteringParts(m: Machine, c: State, e: Event, w: Waits, control: bool)
    requires Shape(c) && Enabled(m, c, e)
    ensures var q, w', x := Entering(c, e, control), Entered(c, w, e, control), {|c.log|};
            && w'.alu == (if q == Some(Alu) then w.alu + x else w.alu)
            && w'.control == (if q == Some(Control) then w.control + x else w.control)
            && w'.memory == (if q == Some(Memory) then w.memory + x else w.memory)
            && (q.Some? ==> e.Dispatch? && c.front.renamed.Some?)
            && (q.Some? ==> var k := c.front.renamed.value.d.instr.kind; k.Compute? || IsMemory(k))
  {
    hide Shape, Enabled;
  }

  lemma {:induction false} WokenKeys(c: State, slot: nat, pdst: nat, r: Result)
    requires Shape(c) && pdst < R.PHYS_REGS
    ensures Complete(c, slot, pdst, r).iq.Keys == c.iq.Keys
  {
  }

  // ----- what the units choose

  function PositionOfLoad(loads: seq<LoadSlot<nat>>, id: nat): (k: nat)
    ensures k <= |loads| && (k < |loads| ==> loads[k].entry == id)
    ensures k == |loads| ==> forall j :: 0 <= j < |loads| ==> loads[j].entry != id
  {
    if loads == [] then 0 else if loads[0].entry == id then 0 else 1 + PositionOfLoad(loads[1..], id)
  }

  function PositionOfStore(stores: seq<StoreSlot<nat>>, id: nat): (k: nat)
    ensures k <= |stores| && (k < |stores| ==> stores[k].entry == id)
    ensures k == |stores| ==> forall j :: 0 <= j < |stores| ==> stores[j].entry != id
  {
    if stores == [] then 0 else if stores[0].entry == id then 0 else 1 + PositionOfStore(stores[1..], id)
  }

  lemma {:induction false} MemberOf(log: seq<Entry>, base: nat, n: nat, loads: bool, id: nat)
    requires base <= id < n <= |log| && if loads then IsLoadAt(log, id) else IsStoreAt(log, id)
    ensures id in Members(log, base, n, loads)
    decreases n
  {
    if id < n - 1 {
      MemberOf(log, base, n - 1, loads, id);
    }
  }

  /** A memory operation in flight is in its queue. */
  lemma {:induction false} InItsQueue(m: Machine, c: State, a: Arch, id: nat)
    requires Inv(m, c, a) && InFlight(c, id)
    ensures KindAt(c.log, id).Load? ==> exists k :: 0 <= k < |c.lsu.loads| && c.lsu.loads[k].entry == id
    ensures KindAt(c.log, id).Store? ==> exists k :: 0 <= k < |c.lsu.stores| && c.lsu.stores[k].entry == id
  {
    hide StreamInv, RenInv, StampInv, DirectInv, TokenInv, LoadTokens, StoreTokens, ReadingInv, RequestInv, ArchInv,
         DestInv, IssueInv, ComputeInv, LoadValues, StoreValues, BufferInv, FreshInv, KilledInv, CsrInv;
    if KindAt(c.log, id).Load? {
      MemberOf(c.log, c.base, |c.log|, true, id);
      var k :| 0 <= k < |LoadIds(c.lsu.loads)| && LoadIds(c.lsu.loads)[k] == id;
      assert c.lsu.loads[k].entry == id;
    } else if KindAt(c.log, id).Store? {
      MemberOf(c.log, c.base, |c.log|, false, id);
      var k :| 0 <= k < |StoreIds(c.lsu.stores)| && StoreIds(c.lsu.stores)[k] == id;
      assert c.lsu.stores[k].entry == id;
    }
  }

  /** The rule that takes a ready instruction out of its issue queue. */
  function TakingOut(c: State, id: nat): Event
    requires id < |c.log|
  {
    match KindAt(c.log, id)
    case Load(_, _) => ConnectLoad(PositionOfLoad(c.lsu.loads, id))
    case Store(_) => ConnectStore(PositionOfStore(c.lsu.stores, id))
    case _ => Issue(id)
  }

  lemma {:induction false} CanTakeOut(m: Machine, c: State, a: Arch, id: nat)
    requires Inv(m, c, a) && Shape(c) && Ready(c, id)
    ensures id < |c.log| && Enabled(m, c, TakingOut(c, id)) && Issued(c, TakingOut(c, id)) == Some(id)
    ensures !TakingOut(c, id).ExecDirect?
    ensures var c' := Apply(m, c, TakingOut(c, id)); c'.log == c.log && c'.iq == c.iq - {id}
  {
    hide Inv, AddressOf;
    assert InFlight(c, id);
    InItsQueue(m, c, a, id);
    var e := TakingOut(c, id);
    assert Enabled(m, c, e);
    hide Shape, Enabled, Apply;
    LogOf(m, c, e);
    IqOf(m, c, e);
  }

  // ----- one rule

  /** What may be tried: a rule of the core that no unit has a choice in (a dispatched
      computation goes to either queue), or to let a unit issue. */
  datatype Rule =
    | Given(e: Event, control: bool)
    | IssueFrom(from: From)
    | ReportStore
    | SendLoad

  /** The instruction leaves one issue queue and stays in no other. */
  lemma {:induction false} DividedLess(log: seq<Entry>, waiting: set<nat>, alu: set<nat>, control: set<nat>,
        memory: set<nat>, id: nat)
    requires Divided(log, waiting, alu, control, memory) && id in waiting
    ensures id in alu ==> id !in control && id !in memory && Divided(log, waiting - {id}, alu - {id}, control, memory)
    ensures id in control ==> id !in alu && id !in memory && Divided(log, waiting - {id}, alu, control - {id}, memory)
    ensures id in memory ==> id !in alu && id !in control && Divided(log, waiting - {id}, alu, control, memory - {id})
  {
  }

  /** The oldest of these instructions that is ready, or none when none is. */
  ghost predicate Oldest(c: State, ids: set<nat>, r: Option<nat>) {
    match r
    case None => forall id :: id in ids ==> !Ready(c, id)
    case Some(id) => id in ids && Ready(c, id) && forall j :: j in ids && j < id ==> !Ready(c, j)
  }

  /** One issue queue gives up its oldest ready instruction, if it has one. */
  method TakeOut(u: Units, c: State, from: From) returns (r: Option<nat>)
    requires u.alu != u.control && u.alu != u.memory && u.control != u.memory
    requires HoldsWaiting(u.alu, c.log, c.iq, u.aluIds) && HoldsWaiting(u.control, c.log, c.iq, u.controlIds)
    requires HoldsWaiting(u.memory, c.log, c.iq, u.memoryIds)
    modifies u.alu, u.control, u.memory
    ensures var waiting, ids := TakenOut(c, r), if r.Some? then {r.value} else {};
            && HoldsWaiting(u.alu, c.log, if from.Alu? then waiting else c.iq, u.aluIds - if from.Alu? then ids else {})
            && HoldsWaiting(u.control, c.log, if from.Control? then waiting else c.iq,
                  u.controlIds - if from.Control? then ids else {})
            && HoldsWaiting(u.memory, c.log, if from.Memory? then waiting else c.iq,
                  u.memoryIds - if from.Memory? then ids else {})
    ensures Oldest(c, IdsIn(WaitsOf(u), from), r)
  {
    hide HoldsWaiting, Ready;
    NoneLess(u.aluIds);
    NoneLess(u.controlIds);
    NoneLess(u.memoryIds);
    match from {
      case Alu => r := IssueFromQueue(u.alu, c, u.aluIds);
      case Control => r := IssueFromQueue(u.control, c, u.controlIds);
      case Memory => r := IssueFromQueue(u.memory, c, u.memoryIds);
    }
  }

  function TakenOut(c: State, r: Option<nat>): map<nat, (bool, bool)> {
    if r.Some? then c.iq - {r.value} else c.iq
  }

  lemma {:induction false} NoneLess(s: set<nat>)
    ensures s - {} == s
  {
  }

  /** The issue queues that the instruction was not in. */
  method StepOthers(u: Units, m: Machine, c: State, e: Event, from: From)
    requires Shape(c) && Enabled(m, c, e)
    requires u.alu != u.control && u.alu != u.memory && u.control != u.memory
    requires !from.Alu? ==>
          HoldsWaiting(u.alu, c.log, c.iq, u.aluIds) && (Issued(c, e).Some? ==> Issued(c, e).value !in u.aluIds)
    requires !from.Control? ==>
          HoldsWaiting(u.control, c.log, c.iq, u.controlIds)
          && (Issued(c, e).Some? ==> Issued(c, e).value !in u.controlIds)
    requires !from.Memory? ==>
          HoldsWaiting(u.memory, c.log, c.iq, u.memoryIds)
          && (Issued(c, e).Some? ==> Issued(c, e).value !in u.memoryIds)
    modifies u.alu, u.control, u.memory
    ensures var c' := Apply(m, c, e);
            && (if from.Alu? then unchanged(u.alu) else HoldsWaiting(u.alu, c'.log, c'.iq, u.aluIds))
            && (if from.Control? then unchanged(u.control) else HoldsWaiting(u.control, c'.log, c'.iq, u.controlIds))
            && (if from.Memory? then unchanged(u.memory) else HoldsWaiting(u.memory, c'.log, c'.iq, u.memoryIds))
  {
    hide Shape, Enabled, Apply, HoldsWaiting, Issued;
    if !from.Alu? {
      StepWaiting(u.alu, m, c, e, false, u.aluIds);
    }
    if !from.Control? {
      StepWaiting(u.control, m, c, e, false, u.controlIds);
    }
    if !from.Memory? {
      StepWaiting(u.memory, m, c, e, false, u.memoryIds);
    }
  }

  /** An issued instruction leaves its queue. */
  function Left(c: State, w: Waits, from: From, e: Event): Waits {
    if Issued(c, e).None? then w else With(w, from, IdsIn(w, from) - {Issued(c, e).value})
  }

  method FireIssue(u: Units, m: Machine, c: State, ghost a: Arch, from: From) returns (e: Option<Event>)
    requires u.Hold(c) && Inv(m, c, a) && Shape(c)
    modifies u`aluIds, u`controlIds, u`memoryIds, u.loads, u.stores, u.buffer, u.rob, u.table, u.alu, u.control,
          u.memory
    ensures e.None? ==> u.Hold(c)
    ensures e.Some? ==> Enabled(m, c, e.value) && u.Hold(Apply(m, c, e.value))
    ensures Oldest(c, IdsIn(old(WaitsOf(u)), from), if e.Some? then Issued(c, e.value) else None)
    ensures e.None? ==> WaitsOf(u) == old(WaitsOf(u))
    ensures e.Some? ==> WaitsOf(u) == Left(c, old(WaitsOf(u)), from, e.value)
    ensures e.Some? ==> !e.value.ExecDirect? && Issued(c, e.value).Some?
  {
    hide Inv, Shape, Enabled, Apply, HoldsLoads, HoldsStores, HoldsBuffer, HoldsRob, HoldsWaiting, Divided, TakingOut,
         Ready;
    NoneLess(u.aluIds);
    NoneLess(u.controlIds);
    NoneLess(u.memoryIds);
    var r := TakeOut(u, c, from);
    if r.None? {
      return None;
    }
    var id := r.value;
    CanTakeOut(m, c, a, id);
    ReadyWaits(c, id);
    DividedLess(c.log, c.iq.Keys, u.aluIds, u.controlIds, u.memoryIds, id);
    var rule := TakingOut(c, id);
    StepUnits(u, m, c, a, rule);
    StepOthers(u, m, c, rule, from);
    u.aluIds := u.aluIds - if from.Alu? then {id} else {};
    u.controlIds := u.controlIds - if from.Control? then {id} else {};
    u.memoryIds := u.memoryIds - if from.Memory? then {id} else {};
    e := Some(rule);
  }

  lemma {:induction false} ReadyWaits(c: State, id: nat)
    requires Ready(c, id)
    ensures id in c.iq.Keys && (c.iq - {id}).Keys == c.iq.Keys - {id}
  {
  }

  method FireStore(u: Units, m: Machine, c: State, ghost a: Arch) returns (e: Option<Event>)
    requires u.Hold(c) && Inv(m, c, a) && Shape(c)
    modifies u`aluIds, u`controlIds, u`memoryIds, u.loads, u.stores, u.buffer, u.rob, u.table, u.alu, u.control,
          u.memory
    ensures e.None? ==> u.Hold(c)
    ensures e.Some? ==> Enabled(m, c, e.value) && u.Hold(Apply(m, c, e.value))
    ensures e.Some? ==> e.value.IssueStore? && e.value.k < |c.lsu.stores|
    ensures WaitsOf(u) == old(WaitsOf(u))
    ensures e.None? ==> forall k :: 0 <= k < |c.lsu.stores| ==> !Enabled(m, c, IssueStore(k))
  {
    hide Inv, Shape, Enabled, Apply, HoldsLoads, HoldsStores, HoldsBuffer, HoldsRob, HoldsWaiting, Divided;
    var r := IssueStoreQueue(u.stores, m, c);
    if r.None? {
      return None;
    }
    var rule := IssueStore(Distance(u.stores.head, r.value.0, u.stores.size));
    RuleParts(m, c, rule);
    StepUnits(u, m, c, a, rule);
    var ok := StepQueues(u, m, c, rule, false);
    e := Some(rule);
  }

  /** An older load has an address and did not execute. */
  predicate Behind(c: State, k: nat) {
    exists j :: 0 <= j < |c.lsu.loads| && j < k && CanRead(c.lsu.loads[j])
  }

  /** An enabled rule that no unit has a choice in. */
  predicate Plain(m: Machine, c: State, e: Event)
    requires Shape(c)
  {
    Enabled(m, c, e) && Issued(c, e).None? && !e.IssueStore? && !e.IssueLoad?
  }

  lemma {:induction false} LoadHead(q: L.LoadQ)
    requires q.Valid()
    ensures q.head < q.size
  {
  }

  method FireLoad(u: Units, m: Machine, c: State, ghost a: Arch) returns (e: Option<Event>)
    requires u.Hold(c) && Inv(m, c, a) && Shape(c)
    modifies u`aluIds, u`controlIds, u`memoryIds, u.loads, u.stores, u.buffer, u.rob, u.table, u.alu, u.control,
          u.memory
    ensures e.None? ==> u.Hold(c)
    ensures e.Some? ==> Enabled(m, c, e.value) && u.Hold(Apply(m, c, e.value))
    ensures e.Some? ==> e.value.IssueLoad? && e.value.k < |c.lsu.loads| && !Behind(c, e.value.k)
    ensures WaitsOf(u) == old(WaitsOf(u))
    ensures e.None? ==> forall k :: 0 <= k < |c.lsu.loads| && Enabled(m, c, IssueLoad(k)) ==> Behind(c, k)
  {
    hide Inv, Shape, Enabled, Apply, HoldsStores, HoldsRob, HoldsWaiting, Divided, Blocked, LoadsOf, L.InOrder;
    LoadHead(u.loads);
    var r := IssueLoadQueue(u.loads, m, c);
    if r.None? {
      return None;
    }
    var k := Distance(u.loads.head, r.value, u.loads.size);
    var blocked := TestBlocked(u.stores, u.buffer, c, k);
    if blocked {
      return None;
    }
    var rule := IssueLoad(k);
    StepUnits(u, m, c, a, rule);
    var ok := StepQueues(u, m, c, rule, false);
    e := Some(rule);
  }

  method FireGiven(u: Units, m: Machine, c: State, ghost a: Arch, rule: Event, control: bool) returns (e: Option<Event>)
    requires u.Hold(c) && Inv(m, c, a) && Shape(c)
    modifies u`aluIds, u`controlIds, u`memoryIds, u.loads, u.stores, u.buffer, u.rob, u.table, u.alu, u.control,
          u.memory
    ensures e.None? ==> u.Hold(c)
    ensures e.Some? ==> Enabled(m, c, e.value) && u.Hold(Apply(m, c, e.value))
    ensures e.Some? <==> Plain(m, c, rule) && !(rule.Dispatch? && NoRoom(u.size, c, old(WaitsOf(u)), control))
    ensures e.Some? ==> e.value == rule && WaitsOf(u) == Entered(c, old(WaitsOf(u)), rule, control)
    ensures e.None? ==> WaitsOf(u) == old(WaitsOf(u))
  {
    hide Inv, Shape, Enabled, Apply, HoldsLoads, HoldsStores, HoldsBuffer, HoldsRob, HoldsWaiting, Divided;
    if !Plain(m, c, rule) {
      return None;
    }
    var ok := StepQueues(u, m, c, rule, control);
    if !ok {
      return None;
    }
    StepUnits(u, m, c, a, rule);
    e := Some(rule);
  }

  /** The rule can fire: no unit stands in its way, or the unit that issues has something
      to issue, for loads only the oldest one that can read. */
  ghost predicate Able(m: Machine, n: nat, c: State, w: Waits, rule: Rule)
    requires Shape(c)
  {
    match rule
    case Given(e, control) => Plain(m, c, e) && !(e.Dispatch? && NoRoom(n, c, w, control))
    case IssueFrom(from) => exists id :: id in IdsIn(w, from) && Ready(c, id)
    case ReportStore => exists k :: 0 <= k < |c.lsu.stores| && Enabled(m, c, IssueStore(k))
    case SendLoad => exists k :: 0 <= k < |c.lsu.loads| && Enabled(m, c, IssueLoad(k)) && !Behind(c, k)
  }

  /** What is issued is the oldest that can be. */
  ghost predicate Picks(m: Machine, c: State, w: Waits, rule: Rule, e: Event)
    requires Shape(c)
  {
    Enabled(m, c, e) &&
    match rule
    case Given(given, _) => e == given
    case IssueFrom(from) => Oldest(c, IdsIn(w, from), Issued(c, e)) && Issued(c, e).Some? && !e.ExecDirect?
    case ReportStore => e.IssueStore?
    case SendLoad => e.IssueLoad? && !Behind(c, e.k)
  }

  function WaitsAfter(c: State, w: Waits, rule: Rule, e: Option<Event>): Waits {
    if e.None? then w
    else
      match rule
      case Given(_, control) => Entered(c, w, e.value, control)
      case IssueFrom(from) => Left(c, w, from, e.value)
      case _ => w
  }

  /** What becomes of a rule that is tried: it fires exactly when it can, as `e`. */
  ghost predicate Tried(m: Machine, n: nat, c: State, w: Waits, rule: Rule, e: Option<Event>, w': Waits)
    requires Shape(c)
  {
    && (e.Some? <==> Able(m, n, c, w, rule)) && (e.Some? ==> Picks(m, c, w, rule, e.value))
    && w' == WaitsAfter(c, w, rule, e)
  }

  method Fire(u: Units, m: Machine, c: State, ghost a: Arch, rule: Rule) returns (e: Option<Event>)
    requires u.Hold(c) && Inv(m, c, a) && Shape(c)
    modifies u`aluIds, u`controlIds, u`memoryIds, u.loads, u.stores, u.buffer, u.rob, u.table, u.alu, u.control,
          u.memory
    ensures Tried(m, u.size, c, old(WaitsOf(u)), rule, e, WaitsOf(u))
    ensures e.None? ==> u.Hold(c)
    ensures e.Some? ==> Enabled(m, c, e.value) && u.Hold(Apply(m, c, e.value))
  {
    hide Inv, Shape, Enabled, Apply, Units.Hold, Issued, Ready, Plain, NoRoom, Blocked, Entered, Left, WaitsOf, IdsIn;
    match rule
    case Given(given, control) => e := FireGiven(u, m, c, a, given, control);
    case IssueFrom(from) => e := FireIssue(u, m, c, a, from);
    case ReportStore => e := FireStore(u, m, c, a);
    case SendLoad => e := FireLoad(u, m, c, a);
  }

  // ----- runs

  /** How many of these rules fired. */
  function Count<T>(fired: seq<Option<T>>): nat {
    if fired == [] then 0 else Count(fired[..|fired| - 1]) + if fired[|fired| - 1].Some? then 1 else 0
  }

  /** Rule by rule, what was tried in the run `cs`, `es`: rule `j` found the state after
      those that fired before it, and `es` is what fired, in that order. */
  ghost predicate Tries(m: Machine, n: nat, cs: seq<State>, es: seq<Event>, rules: seq<Rule>, fired: seq<Option<Event>>,
        ws: seq<Waits>) {
    && |fired| <= |rules| && |ws| == |fired| + 1 && ws[0] == Waits({}, {}, {})
    && |cs| == |es| + 1 && |es| == Count(fired)
    && forall j :: 0 <= j < |fired| ==> TriedAt(m, n, cs, es, rules[j], fired, ws, j)
  }

  ghost predicate TriedAt(m: Machine, n: nat, cs: seq<State>, es: seq<Event>, rule: Rule, fired: seq<Option<Event>>,
        ws: seq<Waits>, j: nat)
    requires j < |fired| == |ws| - 1
  {
    var i := Count(fired[..j]);
    && i < |cs| && Shape(cs[i]) && Tried(m, n, cs[i], ws[j], rule, fired[j], ws[j + 1])
    && !(rule.Given? && TakesAnothers(cs[i], rule.e)) && (fired[j].Some? ==> i < |es| && es[i] == fired[j].value)
  }

  lemma {:induction false} CountBefore<T>(fired: seq<Option<T>>, j: nat)
    requires j < |fired|
    ensures Count(fired[..j]) + (if fired[j].Some? then 1 else 0) == Count(fired[..j + 1]) <= Count(fired)
    decreases |fired|
  {
    assert fired[..j + 1][..j] == fired[..j];
    var n := |fired| - 1;
    if j < n {
      CountBefore(fired[..n], j);
      assert fired[..n][..j] == fired[..j] && fired[..n][..j + 1] == fired[..j + 1];
    } else {
      assert fired[..j + 1] == fired;
    }
  }

  lemma {:induction false} TriesNext(m: Machine, n: nat, cs: seq<State>, es: seq<Event>, rules: seq<Rule>,
        fired: seq<Option<Event>>, ws: seq<Waits>, e: Option<Event>, c': State, w': Waits)
    requires Tries(m, n, cs, es, rules, fired, ws) && |fired| < |rules| && Shape(cs[|es|])
    requires Tried(m, n, cs[|es|], ws[|fired|], rules[|fired|], e, w')
    requires !(rules[|fired|].Given? && TakesAnothers(cs[|es|], rules[|fired|].e))
    ensures e.None? ==> Tries(m, n, cs, es, rules, fired + [e], ws + [w'])
    ensures e.Some? ==> Tries(m, n, cs + [c'], es + [e.value], rules, fired + [e], ws + [w'])
  {
    hide Shape, Tried, TakesAnothers;
    var fired', ws' := fired + [e], ws + [w'];
    var cs', es' := if e.Some? then cs + [c'] else cs, if e.Some? then es + [e.value] else es;
    assert fired'[..|fired|] == fired;
    forall j | 0 <= j < |fired'|
      ensures TriedAt(m, n, cs', es', rules[j], fired', ws', j)
    {
      assert fired'[..j] == fired[..j];
      if j < |fired| {
        assert TriedAt(m, n, cs, es, rules[j], fired, ws, j);
        CountBefore(fired, j);
      } else {
        assert fired[..j] == fired;
      }
    }
  }

  lemma {:induction false} TriesFirst(m: Machine, n: nat, c: State, rules: seq<Rule>)
    ensures Tries(m, n, [c], [], rules, [], [Waits({}, {}, {})])
  {
  }

  /** From reset, through any rules in any order: each rule that can fire does, what fired
      is a run of the core, the registers of all the units hold what it says, and it
      follows the sequential machine. It stops where `execute_direct` would take the
      operands of another instruction. */
  method RunUnits(n: nat, m: Machine, pc: Addr, mem: Memory, csr: Csr, rules: seq<Rule>) returns (u: Units, c: State,
        k: nat, ghost cs: seq<State>, ghost es: seq<Event>, ghost archs: seq<Arch>, ghost fired: seq<Option<Event>>,
        ghost ws: seq<Waits>)
    requires 0 < n
    ensures Follows(m, cs, es, archs, pc, mem, csr) && cs[|cs| - 1] == c && u.Hold(c)
    ensures Tries(m, n, cs, es, rules, fired, ws) && |fired| == k && ws[k] == WaitsOf(u)
    ensures k <= |rules| && (k < |rules| ==> rules[k].Given? && TakesAnothers(c, rules[k].e))
  {
    hide Inv, Shape, Enabled, Apply, Follows, ArchAfter, Init, Units.Hold, KindAt, Tries, Tried, TakesAnothers;
    u := new Units(n, pc, mem, csr);
    c := Init(pc, mem, csr);
    ghost var a := Arch(pc, seq(32, (i: nat) => ZERO), mem, csr);
    cs, es, archs, k, fired, ws := [c], [], [a], 0, [], [Waits({}, {}, {})];
    FollowsFirst(m, pc, mem, csr);
    TriesFirst(m, n, c, rules);
    while k < |rules|
      invariant k <= |rules| && |cs| == |es| + 1 && cs[|es|] == c && |archs| == |cs| && archs[|es|] == a
      invariant Follows(m, cs, es, archs, pc, mem, csr) && u.Hold(c) && Inv(m, c, a) && Shape(c)
      invariant Tries(m, n, cs, es, rules, fired, ws) && |fired| == k && |ws| == k + 1 && ws[k] == WaitsOf(u)
      invariant u.size == n
      invariant fresh(u) && fresh(u.loads) && fresh(u.stores) && fresh(u.buffer) && fresh(u.rob) && fresh(u.table)
      invariant fresh(u.alu) && fresh(u.control) && fresh(u.memory)
    {
      if rules[k].Given? && TakesAnothers(c, rules[k].e) {
        return;
      }
      var e := Fire(u, m, c, a, rules[k]);
      ghost var c' := if e.Some? then Apply(m, c, e.value) else c;
      TriesNext(m, n, cs, es, rules, fired, ws, e, c', WaitsOf(u));
      fired, ws := fired + [e], ws + [WaitsOf(u)];
      if e.Some? {
        NoneTaken(m, n, c, ws[k], rules[k], e, ws[k + 1]);
        FollowsNext(m, cs, es, archs, pc, mem, csr, e.value);
        a := ArchAfter(m, c, a, e.value);
        c := Apply(m, c, e.value);
        cs, es, archs := cs + [c], es + [e.value], archs + [a];
      }
      k := k + 1;
    }
  }

  lemma {:induction false} NoneTaken(m: Machine, n: nat, c: State, w: Waits, rule: Rule, e: Option<Event>, w': Waits)
    requires Shape(c) && Tried(m, n, c, w, rule, e, w') && e.Some?
    requires !(rule.Given? && TakesAnothers(c, rule.e))
    ensures !TakesAnothers(c, e.value)
  {
    hide Shape, Able;
  }
}
