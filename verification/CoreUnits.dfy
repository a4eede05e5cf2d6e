/** The registers of the units hold what the core model says: an operation of a unit
    does to its registers what the rule that uses it does to the state of the core. */
module CoreUnits {
  import opened Bits
  import opened Words
  import opened Wrappers
  import opened Isa
  import opened LsuSpec
  import opened Ring
  import opened Core
  import opened CoreInvariant
  import opened CoreTheorems
  import I = IssueQueue
  import L = LoadQueue
  import R = RenamingSpec
  import S = StoreQueue
  import Rob
  import RenamingTable

  // ----- the load queue

  /** An instruction's number, age and epoch as the hardware keeps them. */
  function LoadEntry(log: seq<Entry>, id: nat): L.Entry
    requires IsLoadAt(log, id)
  {
    var e := log[id];
    L.Entry(id % ROB_SIZE, e.d.pc, e.d.epoch % AGES, id % AGES, e.d.instr.kind.size, e.d.instr.kind.signed, e.pdst)
  }

  ghost predicate AreLoads(log: seq<Entry>, loads: seq<LoadSlot<nat>>) {
    forall k :: 0 <= k < |loads| ==> IsLoadAt(log, loads[k].entry)
  }

  function LoadsOf(log: seq<Entry>, loads: seq<LoadSlot<nat>>): (r: seq<LoadSlot<L.Entry>>)
    requires AreLoads(log, loads)
    ensures |r| == |loads|
  {
    seq(|loads|, k requires 0 <= k < |loads| =>
      LoadSlot(LoadEntry(log, loads[k].entry), loads[k].addr, loads[k].executed))
  }

  ghost predicate HoldsLoads(q: L.LoadQ, log: seq<Entry>, loads: seq<LoadSlot<nat>>)
    reads q
  {
    q.Valid() && q.size == LQ_SIZE && AreLoads(log, loads) && q.Contents() == LoadsOf(log, loads)
  }

  /** `lsu.enqLoad` at dispatch. */
  method DispatchLoad(q: L.LoadQ, m: Machine, c: State) returns (index: nat)
    requires Shape(c) && Enabled(m, c, Dispatch) && c.front.renamed.value.d.instr.kind.Load?
    requires HoldsLoads(q, c.log, c.lsu.loads)
    modifies q
    ensures var c' := DoDispatch(c); HoldsLoads(q, c'.log, c'.lsu.loads)
  {
    hide Shape, R.Allocate, R.Allocated, IsRing, L.InOrder;
    RingEnq(q.valid, q.head, q.tail, q.count);
    assert |q.Contents()| == |c.lsu.loads|;
    var c' := DoDispatch(c);
    var id := |c.log|;
    index := q.Enq(LoadEntry(c'.log, id));
    assert forall k :: 0 <= k < |c.log| ==> c'.log[k] == c.log[k];
    assert LoadsOf(c'.log, c'.lsu.loads)
          == LoadsOf(c.log, c.lsu.loads) + [LoadSlot(LoadEntry(c'.log, id), None, false)];
  }

  /** `loadQ.wakeupAddr`, which rule `connectLOAD` calls. */
  method ConnectLoadQueue(q: L.LoadQ, m: Machine, c: State, ghost a: Arch, k: nat,
        index: nat) returns (misaligned: bool)
    requires Inv(m, c, a) && Shape(c) && Enabled(m, c, ConnectLoad(k)) && HoldsLoads(q, c.log, c.lsu.loads)
    requires index < q.size && Distance(q.head, index, q.size) == k
    modifies q
    ensures var c' := DoConnectLoad(m, c, k); HoldsLoads(q, c'.log, c'.lsu.loads)
    ensures misaligned <==> !Aligned(KindAt(c.log, c.lsu.loads[k].entry).size, AddressOf(m, c, c.lsu.loads[k].entry))
  {
    hide Inv, Shape, AddressOf, DoConnectLoad, IsRing, KindAt, LoadEntry, Aligned;
    WaitingLoad(m, c, a, k);
    ConnectedLoad(m, c, k);
    var s := c.lsu.loads[k];
    var addr := AddressOf(m, c, s.entry);
    ghost var loads' :=
      if Aligned(KindAt(c.log, s.entry).size, addr) then c.lsu.loads[k := s.(addr := Some(addr))] else c.lsu.loads;
    assert q.Contents()[k] == L.SlotAt(q.entries, q.addresses, q.addrValid, q.executed, index);
    Occupied(q.valid, q.head, q.tail, q.count, index);
    EntrySize(c.log, s.entry);
    assert q.valid[index] && !q.addrValid[index] && q.entries[index].size == KindAt(c.log, s.entry).size;
    hide IsRing, L.InOrder, L.SlotAt, KindAt, LoadEntry, Aligned;
    misaligned := q.WakeupAddr(index, addr);
    assert LoadsOf(c.log, loads') == q.Contents();
  }

  lemma {:induction false} Occupied(valid: seq<bool>, head: nat, tail: nat, count: nat, k: nat)
    requires IsRing(valid, head, tail, count) && k < |valid| && Distance(head, k, |valid|) < count
    ensures valid[k]
  {
  }

  lemma {:induction false} EntrySize(log: seq<Entry>, id: nat)
    requires IsLoadAt(log, id)
    ensures LoadEntry(log, id).size == KindAt(log, id).size
  {
  }

  lemma {:induction false} ConnectedLoad(m: Machine, c: State, k: nat)
    requires Shape(c) && k < |c.lsu.loads|
    ensures var c', s := DoConnectLoad(m, c, k), c.lsu.loads[k];
            var addr := AddressOf(m, c, s.entry);
            && c'.log == c.log
            && c'.lsu.loads == if Aligned(KindAt(c.log, s.entry).size, addr)
                  then c.lsu.loads[k := s.(addr := Some(addr))] else c.lsu.loads
  {
  }

  lemma {:induction false} WaitingLoad(m: Machine, c: State, a: Arch, k: nat)
    requires Inv(m, c, a) && k < |c.lsu.loads| && c.lsu.loads[k].entry in c.iq
    ensures c.lsu.loads[k].addr.None? && InFlight(c, c.lsu.loads[k].entry)
  {
    hide StreamInv, RenInv, QueueInv, StampInv, DirectInv, StoreTokens, ReadingInv, RequestInv, ArchInv, DestInv,
         IssueInv, ComputeInv, LoadValues, StoreValues, BufferInv, KilledInv, FreshInv, CsrInv;
  }

  /** A load with an address that did not execute. */
  predicate CanRead(s: LoadSlot<nat>) {
    s.addr.Some? && !s.executed
  }

  /** `loadQ.issue` offers the oldest load with an address that did not execute; when the
      blocking test lets it pass, rule `issueLoad` can fire for it. */
  method IssueLoadQueue(q: L.LoadQ, m: Machine, c: State) returns (r: Option<nat>)
    requires Shape(c) && HoldsLoads(q, c.log, c.lsu.loads)
    ensures r.None? ==> forall k :: 0 <= k < |c.lsu.loads| ==> !Enabled(m, c, IssueLoad(k))
    ensures r.Some? ==>
              && r.value < q.size
              && var k := Distance(q.head, r.value, q.size);
                 && k < |c.lsu.loads| && CanRead(c.lsu.loads[k])
                 && (Enabled(m, c, IssueLoad(k)) <==> !Blocked(c, k))
                 && forall j :: 0 <= j < k ==> !CanRead(c.lsu.loads[j]) && !Enabled(m, c, IssueLoad(j))
  {
    hide Blocked;
    r := q.TryIssue();
    assert forall k :: 0 <= k < |c.lsu.loads| ==>
             (L.Issuable(q.Contents()[k]) <==> c.lsu.loads[k].addr.Some? && !c.lsu.loads[k].executed);
  }

  /** `loadQ.issued`: the load is marked. */
  method MarkLoadQueue(q: L.LoadQ, m: Machine, c: State, k: nat, index: nat)
    requires Shape(c) && Enabled(m, c, IssueLoad(k)) && HoldsLoads(q, c.log, c.lsu.loads)
    requires index < q.size && Distance(q.head, index, q.size) == k
    modifies q
    ensures var c' := DoIssueLoad(c, k); HoldsLoads(q, c'.log, c'.lsu.loads)
  {
    hide Shape, Blocked;
    var c' := DoIssueLoad(c, k);
    assert q.Contents()[k] == L.SlotAt(q.entries, q.addresses, q.addrValid, q.executed, index);
    q.Issue(index);
    assert LoadsOf(c'.log, c'.lsu.loads) == q.Contents();
  }

  /** The load part of `lsu.commit`. */
  method RetireLoad(q: L.LoadQ, c: State)
    requires Shape(c) && HeadDone(c) && QueuesHoldHead(c) && IsMemory(KindAt(c.log, c.base)) && c.lsu.tags[0].LoadTag?
    requires HoldsLoads(q, c.log, c.lsu.loads)
    modifies q
    ensures var c' := DmemCommit(c); HoldsLoads(q, c'.log, c'.lsu.loads)
  {
    hide Shape;
    RingDeq(q.valid, q.head, q.tail, q.count);
    assert |q.Contents()| == |c.lsu.loads| > 0;
    q.Deq();
    assert LoadsOf(c.log, c.lsu.loads[1..]) == LoadsOf(c.log, c.lsu.loads)[1..];
  }

  /** The search for the oldest load that already read the word of a store. */
  method SearchLoads(q: L.LoadQ, c: State, addr: Addr) returns (r: Option<nat>)
    requires HoldsLoads(q, c.log, c.lsu.loads)
    ensures var oldest := OldestReader(c.lsu.loads, addr);
            r == if oldest.Some? then Some(oldest.value % ROB_SIZE) else None
  {
    SameReader(c.log, c.lsu.loads, addr);
    r := q.Search(addr);
  }

  lemma {:induction false} SameReader(log: seq<Entry>, loads: seq<LoadSlot<nat>>, addr: Addr)
    requires AreLoads(log, loads)
    ensures var oldest, found := OldestReader(loads, addr), OldestReader(LoadsOf(log, loads), addr);
            (found.Some? <==> oldest.Some?) && (oldest.Some? ==> found.value.index == oldest.value % ROB_SIZE)
    decreases |loads|
  {
    if loads != [] {
      SameReader(log, loads[1..], addr);
      assert LoadsOf(log, loads)[1..] == LoadsOf(log, loads[1..]);
    }
  }

  // ----- the store queue and the store buffer

  function StoreEntry(log: seq<Entry>, id: nat): S.Entry
    requires IsStoreAt(log, id)
  {
    var e := log[id];
    S.Entry(id % ROB_SIZE, e.d.pc, e.d.epoch % AGES, id % AGES, e.d.instr.kind.size, e.pdst)
  }

  ghost predicate AreStores(log: seq<Entry>, stores: seq<StoreSlot<nat>>) {
    forall k :: 0 <= k < |stores| ==> IsStoreAt(log, stores[k].entry)
  }

  function StoresOf(log: seq<Entry>, stores: seq<StoreSlot<nat>>): (r: seq<StoreSlot<S.Entry>>)
    requires AreStores(log, stores)
    ensures |r| == |stores|
  {
    seq(|stores|, k requires 0 <= k < |stores| =>
      var s := stores[k];
      StoreSlot(StoreEntry(log, s.entry), s.epoch, s.age, s.addr, s.data, s.issued))
  }

  ghost predicate HoldsStores(q: S.StoreQ, log: seq<Entry>, stores: seq<StoreSlot<nat>>)
    reads q
  {
    q.Valid() && q.size == SQ_SIZE && AreStores(log, stores) && q.Contents() == StoresOf(log, stores)
  }

  /** `lsu.enqStore` at dispatch. */
  method DispatchStore(q: S.StoreQ, m: Machine, c: State) returns (index: nat)
    requires Shape(c) && Enabled(m, c, Dispatch) && c.front.renamed.value.d.instr.kind.Store?
    requires HoldsStores(q, c.log, c.lsu.stores)
    modifies q
    ensures var c' := DoDispatch(c); HoldsStores(q, c'.log, c'.lsu.stores)
  {
    hide Shape, R.Allocate, R.Allocated, IsRing, S.InOrder;
    RingEnq(q.valid, q.head, q.tail, q.count);
    assert |q.Contents()| == |c.lsu.stores|;
    var c' := DoDispatch(c);
    var id := |c.log|;
    index := q.Enq(StoreEntry(c'.log, id));
    assert forall k :: 0 <= k < |c.log| ==> c'.log[k] == c.log[k];
    var d := c.front.renamed.value.d;
    assert StoresOf(c'.log, c'.lsu.stores)
        == StoresOf(c.log, c.lsu.stores)
           + [StoreSlot(StoreEntry(c'.log, id), d.epoch % AGES, id % AGES, None, None, false)];
  }

  /** `storeQ.wakeupAddr` and `storeQ.wakeupData`, which rule `connectSTORE` calls. */
  method ConnectStoreQueue(q: S.StoreQ, m: Machine, c: State, k: nat, index: nat)
    requires Shape(c) && Enabled(m, c, ConnectStore(k)) && HoldsStores(q, c.log, c.lsu.stores)
    requires index < q.size && Distance(q.head, index, q.size) == k
    modifies q
    ensures var c' := DoConnectStore(m, c, k); HoldsStores(q, c'.log, c'.lsu.stores)
  {
    var c' := DoConnectStore(m, c, k);
    var id := c.lsu.stores[k].entry;
    q.Wakeup(index, AddressOf(m, c, id), Result2(c, id));
    assert StoresOf(c'.log, c'.lsu.stores) == q.Contents();
  }

  /** Rule `issueStore`: a store the queue reports is one the core model can report, with
      the result it gives it. */
  method IssueStoreQueue(q: S.StoreQ, m: Machine, c: State) returns (r: Option<(nat, bool)>)
    requires Shape(c) && HoldsStores(q, c.log, c.lsu.stores)
    modifies q
    ensures q.Valid()
    ensures r.None? ==> HoldsStores(q, c.log, c.lsu.stores)
    ensures r.None? ==> forall k :: 0 <= k < |c.lsu.stores| ==> !Enabled(m, c, IssueStore(k))
    ensures r.Some? ==>
              && r.value.0 < q.size
              && var k := Distance(q.head, r.value.0, q.size);
                 && Enabled(m, c, IssueStore(k))
                 && var c' := DoIssueStore(c, k);
                    && HoldsStores(q, c'.log, c'.lsu.stores)
                    && (r.value.1 <==> c'.fu[c.lsu.stores[k].entry].Ok?)
  {
    assert q.head < q.size && |q.Contents()| == |c.lsu.stores|;
    StoresIssuable(c.log, c.lsu.stores);
    hide Shape, IsRing, S.InOrder, S.Sized, StoresOf, S.Issuable;
    r := q.Issue();
    if r.Some? {
      ghost var k := Distance(q.head, r.value.0, q.size);
      StoreMarked(c.log, c.lsu.stores, k);
      hide StoreEntry;
    }
  }

  lemma {:induction false} StoresIssuable(log: seq<Entry>, stores: seq<StoreSlot<nat>>)
    requires AreStores(log, stores)
    ensures forall k :: 0 <= k < |stores| ==>
              var s := stores[k];
              S.Issuable(StoresOf(log, stores)[k]) <==> s.addr.Some? && s.data.Some? && !s.issued
  {
  }

  lemma {:induction false} StoreMarked(log: seq<Entry>, stores: seq<StoreSlot<nat>>, k: nat)
    requires AreStores(log, stores) && k < |stores|
    ensures AreStores(log, stores[k := stores[k].(issued := true)])
    ensures StoresOf(log, stores[k := stores[k].(issued := true)])
            == StoresOf(log, stores)[k := StoresOf(log, stores)[k].(issued := true)]
    ensures StoresOf(log, stores)[k].addr == stores[k].addr
    ensures StoresOf(log, stores)[k].entry.size == KindAt(log, stores[k].entry).size
  {
  }

  /** The head's store is of the current epoch and did not fail. */
  predicate MustStore(c: State)
    requires HeadDone(c)
  {
    c.log[c.base].d.epoch == c.epoch && c.results[c.base].Ok?
  }

  /** The store part of `lsu.commit`: what leaves the queue is what may enter the store
      buffer. */
  method RetireStore(q: S.StoreQ, c: State) returns (beat: Beat)
    requires Shape(c) && HeadDone(c) && QueuesHoldHead(c) && IsMemory(KindAt(c.log, c.base)) && c.lsu.tags[0].StoreTag?
    requires HoldsStores(q, c.log, c.lsu.stores)
    modifies q
    ensures var c' := DmemCommit(c);
            && HoldsStores(q, c'.log, c'.lsu.stores)
            && c'.lsu.stb == c.lsu.stb + if MustStore(c) then [beat] else []
  {
    CommittedStore(c);
    StoresPop(c.log, c.lsu.stores);
    hide Shape, StoreBeat, DmemCommit, StoresOf;
    RingDeq(q.valid, q.head, q.tail, q.count);
    assert |q.Contents()| == |c.lsu.stores| > 0;
    assert q.valid[q.head];
    hide IsRing, S.InOrder, S.Sized;
    beat := q.Deq();
  }

  lemma {:induction false} StoresPop(log: seq<Entry>, stores: seq<StoreSlot<nat>>)
    requires AreStores(log, stores) && stores != []
    ensures AreStores(log, stores[1..]) && StoresOf(log, stores[1..]) == StoresOf(log, stores)[1..]
    ensures StoresOf(log, stores)[0].addr == stores[0].addr && StoresOf(log, stores)[0].data == stores[0].data
    ensures StoresOf(log, stores)[0].entry.size == KindAt(log, stores[0].entry).size
  {
  }

  lemma {:induction false} CommittedStore(c: State)
    requires Shape(c) && HeadDone(c) && QueuesHoldHead(c) && IsMemory(KindAt(c.log, c.base)) && c.lsu.tags[0].StoreTag?
    ensures c.lsu.stores != [] && c.lsu.stores[0].addr.Some? && c.lsu.stores[0].data.Some?
    ensures IsStoreAt(c.log, c.lsu.stores[0].entry)
    ensures var c', s := DmemCommit(c), c.lsu.stores[0];
            var beat := StoreBeat(KindAt(c.log, s.entry).size, s.addr.value, s.data.value);
            && c'.log == c.log && c'.lsu.stores == c.lsu.stores[1..]
            && c'.lsu.stb == c.lsu.stb + if MustStore(c) then [beat] else []
  {
    hide OldestReader, StoreBeat;
  }

  method EnterBuffer(b: S.StoreBuffer, c: State, beat: Beat)
    requires Shape(c) && HeadDone(c) && QueuesHoldHead(c) && IsMemory(KindAt(c.log, c.base)) && c.lsu.tags[0].StoreTag?
    requires b.Valid() && b.size == STB_SIZE && b.Contents() == c.lsu.stb && DmemCommit(c).lsu.stb == c.lsu.stb + [beat]
    modifies b
    ensures b.Valid() && b.Contents() == DmemCommit(c).lsu.stb
  {
    hide Shape, DmemCommit;
    RingEnq(b.valid, b.head, b.tail, b.count);
    assert |b.Contents()| < STB_SIZE;
    b.Enq(beat);
  }

  method DrainBuffer(b: S.StoreBuffer, c: State)
    requires b.Valid() && b.Contents() == c.lsu.stb && c.lsu.stb != []
    modifies b
    ensures b.Valid() && b.Contents() == DoDrainStore(c).lsu.stb
  {
    RingDeq(b.valid, b.head, b.tail, b.count);
    assert |b.Contents()| > 0;
    b.Deq();
  }

  /** The blocking test of `issueLoad`, on the registers of the two queues. */
  method TestBlocked(q: S.StoreQ, b: S.StoreBuffer, c: State, k: nat) returns (blocked: bool)
    requires Shape(c) && k < |c.lsu.loads| && c.lsu.loads[k].addr.Some?
    requires HoldsStores(q, c.log, c.lsu.stores) && b.Valid() && b.Contents() == c.lsu.stb
    ensures blocked <==> Blocked(c, k)
  {
    var id, addr := c.lsu.loads[k].entry, c.lsu.loads[k].addr.value;
    var epoch, age := c.log[id].d.epoch % AGES, id % AGES;
    var older := q.Search(addr, epoch, age);
    var buffered := b.Search(WordOf(addr));
    forall j | 0 <= j < |c.lsu.stores|
      ensures S.Hit(q.Contents()[j], addr, epoch, age) <==> Conflicts(c.lsu.stores[j], addr, epoch, age)
    {
      assert q.Contents()[j] == StoresOf(c.log, c.lsu.stores)[j];
    }
    assert |q.Contents()| == |c.lsu.stores|;
    hide Shape, Conflicts, S.Hit, HoldsStores;
    assert older.Some? <==> exists j :: 0 <= j < |c.lsu.stores| && Conflicts(c.lsu.stores[j], addr, epoch, age);
    if buffered.Some? {
      ghost var i :| 0 <= i < |b.Contents()| && b.Contents()[i] == buffered.value
            && buffered.value.addr == WordOf(addr);
      assert c.lsu.stb[i] == buffered.value && c.lsu.stb[i].addr == WordOf(addr);
    } else {
      forall j | 0 <= j < |c.lsu.stb|
        ensures c.lsu.stb[j].addr != WordOf(addr)
      {
        assert b.Contents()[j].addr != WordOf(addr);
      }
    }
    assert buffered.Some? <==> exists j :: 0 <= j < |c.lsu.stb| && c.lsu.stb[j].addr == WordOf(addr);
    blocked := older.Some? || buffered.Some?;
  }

  // ----- the reorder buffer

  datatype RobEntry = RobEntry(pc: Addr, pred: Addr, instr: Instr, epoch: nat, age: nat, pdst: nat)

  function RobEntryOf(log: seq<Entry>, id: nat): RobEntry
    requires id < |log|
  {
    var e := log[id];
    RobEntry(e.d.pc, e.d.pred, e.d.instr, e.d.epoch % AGES, id % AGES, e.pdst)
  }

  function ResultOf(results: map<nat, Result>, id: nat): Option<Result> {
    if id in results then Some(results[id]) else None
  }

  /** The ring holds `log[base..]`, and each of its slots the result of the number the
      slot stands for, whether or not that instruction is in the buffer yet. */
  ghost predicate HoldsRob(rob: Rob.ReorderBuffer<RobEntry, Result>, log: seq<Entry>, base: nat,
        results: map<nat, Result>)
    reads rob
  {
    && rob.Valid() && rob.size == ROB_SIZE && rob.firstP == base % ROB_SIZE
    && HoldsEntries(rob.Contents(), log, base, results)
    && HoldsResults(rob.Results(), base, results)
  }

  ghost predicate HoldsEntries(contents: seq<(RobEntry, Option<Result>, bool)>, log: seq<Entry>, base: nat,
        results: map<nat, Result>) {
    && base <= |log| == base + |contents|
    && forall i :: 0 <= i < |contents| ==>
         contents[i] == (RobEntryOf(log, base + i), ResultOf(results, base + i), IsMemory(KindAt(log, base + i)))
  }

  ghost predicate HoldsResults(slots: seq<Option<Result>>, base: nat, results: map<nat, Result>) {
    && |slots| == ROB_SIZE
    && (forall i :: 0 <= i < ROB_SIZE ==> slots[Slot(base % ROB_SIZE, i, ROB_SIZE)] == ResultOf(results, base + i))
    && (forall id :: id in results ==> base <= id < base + ROB_SIZE)
  }

  method DispatchRob(rob: Rob.ReorderBuffer<RobEntry, Result>, m: Machine, c: State) returns (index: nat)
    requires Shape(c) && Enabled(m, c, Dispatch) && HoldsRob(rob, c.log, c.base, c.results)
    modifies rob
    ensures var c' := DoDispatch(c); HoldsRob(rob, c'.log, c'.base, c'.results)
    ensures index == |c.log| % ROB_SIZE
  {
    var c' := DoDispatch(c);
    var id := |c.log|;
    hide Shape, R.Allocate, R.Allocated, EnterLsu, Slot;
    SlotOfNumber(c.base, id);
    assert |rob.Contents()| == rob.count;
    assert rob.Results()[Slot(rob.firstP, id - c.base, ROB_SIZE)] == ResultOf(c.results, id);
    index := rob.Enq(RobEntryOf(c'.log, id), IsMemory(KindAt(c'.log, id)));
    EntryEnters(old(rob.Contents()), c.log, c'.log[id], c.base, c.results);
  }

  lemma {:induction false} EntryEnters(contents: seq<(RobEntry, Option<Result>, bool)>, log: seq<Entry>, e: Entry,
        base: nat, results: map<nat, Result>)
    requires HoldsEntries(contents, log, base, results)
    ensures var log' := log + [e];
            var slot := (RobEntryOf(log', |log|), ResultOf(results, |log|), IsMemory(KindAt(log', |log|)));
            HoldsEntries(contents + [slot], log', base, results)
  {
  }

  /** `rob.writeBack` by a functional unit or by `execute_direct`: the index selects the
      slot, even when its instruction has left the buffer. */
  method WriteBackRob(rob: Rob.ReorderBuffer<RobEntry, Result>, c: State, id: nat, pdst: nat, r: Result)
    requires Shape(c) && pdst < R.PHYS_REGS && HoldsRob(rob, c.log, c.base, c.results)
    modifies rob
    ensures var c' := Complete(c, SlotNumber(c.base, id), pdst, r); HoldsRob(rob, c'.log, c'.base, c'.results)
  {
    ResultWritten(rob.Contents(), rob.Results(), c.log, c.base, c.results, id, r);
    hide Shape, HoldsEntries, HoldsResults, Woken, SlotNumber, R.Wakeup;
    assert |rob.Contents()| == rob.count;
    rob.WriteBack(id % ROB_SIZE, r);
  }

  lemma {:induction false} ResultWritten(contents: seq<(RobEntry, Option<Result>, bool)>, slots: seq<Option<Result>>,
        log: seq<Entry>, base: nat, results: map<nat, Result>, id: nat, r: Result)
    requires HoldsEntries(contents, log, base, results) && HoldsResults(slots, base, results)
    ensures var results' := results[SlotNumber(base, id) := r];
            var d := Distance(base % ROB_SIZE, id % ROB_SIZE, ROB_SIZE);
            var contents' :=
              if d < |contents| then contents[d := (contents[d].0, Some(r), contents[d].2)] else contents;
            && HoldsResults(slots[id % ROB_SIZE := Some(r)], base, results')
            && HoldsEntries(contents', log, base, results')
  {
    SlotOfNumber(base, id);
    OnlySlot(base % ROB_SIZE, id % ROB_SIZE, SlotNumber(base, id) - base);
    hide RobEntryOf, IsMemory, Slot, SlotNumber;
  }

  lemma {:induction false} SlotOfNumber(base: nat, id: nat)
    ensures base <= SlotNumber(base, id) < base + ROB_SIZE && SlotNumber(base, id) % ROB_SIZE == id % ROB_SIZE
    ensures Distance(base % ROB_SIZE, id % ROB_SIZE, ROB_SIZE) == SlotNumber(base, id) - base
    ensures base <= id < base + ROB_SIZE ==>
          SlotNumber(base, id) == id && Slot(base % ROB_SIZE, id - base, ROB_SIZE) == id % ROB_SIZE
  {
  }

  lemma {:induction false} OnlySlot(first: nat, index: nat, d: nat)
    requires first < ROB_SIZE && index < ROB_SIZE && d == Distance(first, index, ROB_SIZE)
    ensures forall i :: 0 <= i < ROB_SIZE ==> (Slot(first, i, ROB_SIZE) == index <==> i == d)
  {
  }

  /** `rob.dmemCommit` and `rob.deq`. */
  method RetireRob(rob: Rob.ReorderBuffer<RobEntry, Result>, c: State)
    requires c.base < |c.log| && HoldsRob(rob, c.log, c.base, c.results)
    modifies rob
    ensures HoldsRob(rob, c.log, c.base + 1, c.results - {c.base})
  {
    EntryLeaves(rob.Contents(), rob.Results(), c.log, c.base, c.results);
    assert rob.Contents()[0].2 <==> IsMemory(KindAt(c.log, c.base));
    hide HoldsEntries, HoldsResults;
    if IsMemory(KindAt(c.log, c.base)) {
      rob.DmemCommit();
    }
    rob.Deq();
  }

  lemma {:induction false} EntryLeaves(contents: seq<(RobEntry, Option<Result>, bool)>, slots: seq<Option<Result>>,
        log: seq<Entry>, base: nat, results: map<nat, Result>)
    requires HoldsEntries(contents, log, base, results) && HoldsResults(slots, base, results) && base < |log|
    ensures HoldsEntries(contents[1..], log, base + 1, results - {base})
    ensures HoldsResults(slots[base % ROB_SIZE := None], base + 1, results - {base})
    ensures Slot(base % ROB_SIZE, 1, ROB_SIZE) == (base + 1) % ROB_SIZE
  {
    ResultLeaves(slots, base, results);
    hide RobEntryOf, IsMemory, HoldsResults;
  }

  lemma {:induction false} ResultLeaves(slots: seq<Option<Result>>, base: nat, results: map<nat, Result>)
    requires HoldsResults(slots, base, results)
    ensures HoldsResults(slots[base % ROB_SIZE := None], base + 1, results - {base})
  {
    hide Slot;
    var first, next := base % ROB_SIZE, (base + 1) % ROB_SIZE;
    forall i | 0 <= i < ROB_SIZE
      ensures Slot(next, i, ROB_SIZE) < ROB_SIZE
      ensures slots[first := None][Slot(next, i, ROB_SIZE)] == ResultOf(results - {base}, base + 1 + i)
    {
      NextSlotOf(base, i);
      if i < ROB_SIZE - 1 {
        assert slots[Slot(first, i + 1, ROB_SIZE)] == ResultOf(results, base + (i + 1));
      }
    }
  }

  lemma {:induction false} NextSlotOf(base: nat, i: nat)
    requires i < ROB_SIZE
    ensures i < ROB_SIZE - 1 ==>
              Slot((base + 1) % ROB_SIZE, i, ROB_SIZE) == Slot(base % ROB_SIZE, i + 1, ROB_SIZE) != base % ROB_SIZE
    ensures i == ROB_SIZE - 1 ==> Slot((base + 1) % ROB_SIZE, i, ROB_SIZE) == base % ROB_SIZE
  {
    NextOf(base);
  }

  lemma {:induction false} NextOf(base: nat)
    ensures (base + 1) % ROB_SIZE == if base % ROB_SIZE == ROB_SIZE - 1 then 0 else base % ROB_SIZE + 1
  {
    var q, r := base / ROB_SIZE, base % ROB_SIZE;
    assert base == ROB_SIZE * q + r;
  }

  // ----- the renaming table

  method RenameTable(t: RenamingTable.Table, m: Machine, c: State) returns (src1: nat, src2: nat)
    requires Shape(c) && Enabled(m, c, Rename) && t.Valid() && t.Abs() == c.table
    ensures DoRename(c).front.renamed == Some(Renamed(c.front.queue[0], src1, src2))
  {
    src1 := t.Rename(c.front.queue[0].instr.rs1);
    src2 := t.Rename(c.front.queue[0].instr.rs2);
  }

  method DispatchTable(t: RenamingTable.Table, m: Machine, c: State) returns (pdst: nat, ready1: bool, ready2: bool)
    requires Shape(c) && Enabled(m, c, Dispatch) && t.Valid() && t.Abs() == c.table
    requires c.front.renamed.value.src1 < R.PHYS_REGS && c.front.renamed.value.src2 < R.PHYS_REGS
    modifies t
    ensures t.Valid() && t.Abs() == DoDispatch(c).table
    ensures DoDispatch(c).log[|c.log|].pdst == pdst
    ensures ready1 <==> c.front.renamed.value.src1 !in c.table.busy
    ensures ready2 <==> c.front.renamed.value.src2 !in c.table.busy
  {
    var r := c.front.renamed.value;
    hide Shape;
    ready1 := t.Ready(r.src1);
    ready2 := t.Ready(r.src2);
    pdst := t.Allocated(Dest(r.d.instr));
    t.Allocate(Dest(r.d.instr));
  }

  method WakeTable(t: RenamingTable.Table, c: State, slot: nat, pdst: nat, r: Result)
    requires Shape(c) && pdst < R.PHYS_REGS && t.Valid() && t.Abs() == c.table
    modifies t
    ensures t.Valid() && t.Abs() == Complete(c, slot, pdst, r).table
  {
    t.Wakeup(pdst);
  }

  /** `renaming.commit`: in a related state the register that is released is not in the
      free list, so the linked list stays one. */
  method RetireTable(t: RenamingTable.Table, m: Machine, c: State, ghost a: Arch, keep: bool, redirect: Option<Addr>)
    requires Inv(m, c, a) && Shape(c) && HeadDone(c) && t.Valid() && t.Abs() == c.table
    modifies t
    ensures t.Valid() && t.Abs() == DeqRob(c, keep, redirect).table
  {
    ReleasedIsNotFree(m, c, a, keep);
    var e := c.log[c.base];
    assert e.pdst < R.PHYS_REGS;
    hide Inv, Shape;
    t.Commit(Dest(e.d.instr), e.pdst, keep, redirect.Some?);
  }

  // ----- an issue queue

  /** A queue holds the waiting instructions `ids`, in program order. */
  ghost predicate HoldsWaiting(q: I.Queue<nat>, log: seq<Entry>, iq: map<nat, (bool, bool)>, ids: set<nat>)
    reads q
  {
    q.Valid() && AreWaiting(q.Contents(), log, iq, ids)
  }

  ghost predicate AreWaiting(contents: seq<I.Waiting<nat>>, log: seq<Entry>, iq: map<nat, (bool, bool)>,
        ids: set<nat>) {
    && (forall k :: 0 <= k < |contents| ==> IsWaiting(contents[k], log, iq) && contents[k].op in ids)
    && (forall j, k :: 0 <= j < k < |contents| ==> contents[j].op < contents[k].op)
    && (forall id :: id in ids ==> exists k :: 0 <= k < |contents| && contents[k].op == id)
  }

  predicate IsWaiting(w: I.Waiting<nat>, log: seq<Entry>, iq: map<nat, (bool, bool)>) {
    && w.op < |log| && w.op in iq
    && w.regs == [(log[w.op].src1, iq[w.op].0), (log[w.op].src2, iq[w.op].1)]
  }

  method DispatchQueue(q: I.Queue<nat>, m: Machine, c: State, ghost ids: set<nat>)
    requires Shape(c) && Enabled(m, c, Dispatch) && HoldsWaiting(q, c.log, c.iq, ids) && q.head.Some?
    requires c.front.renamed.value.d.instr.kind.Compute? || IsMemory(c.front.renamed.value.d.instr.kind)
    modifies q
    ensures var c' := DoDispatch(c); HoldsWaiting(q, c'.log, c'.iq, ids + {|c.log|})
  {
    var r := c.front.renamed.value;
    var w := I.Waiting(|c.log|, [(r.src1, r.src1 !in c.table.busy), (r.src2, r.src2 !in c.table.busy)]);
    WaitingEnters(q.Contents(), c, ids, w);
    hide AreWaiting, Shape;
    q.Enq(w);
  }

  lemma {:induction false} WaitingEnters(contents: seq<I.Waiting<nat>>, c: State, ids: set<nat>, w: I.Waiting<nat>)
    requires Shape(c) && c.front.renamed.Some? && |c.table.free| > 0
    requires AreWaiting(contents, c.log, c.iq, ids) && w.op == |c.log|
    requires IsWaiting(w, DoDispatch(c).log, DoDispatch(c).iq)
    ensures var c' := DoDispatch(c); AreWaiting(contents + [w], c'.log, c'.iq, ids + {|c.log|})
  {
    hide Shape, R.Allocate, R.Allocated, EnterLsu;
    var c', s := DoDispatch(c), contents + [w];
    forall k | 0 <= k < |contents|
      ensures IsWaiting(s[k], c'.log, c'.iq)
    {
      assert s[k] == contents[k];
    }
    assert s[|contents|] == w;
    forall id | id in ids
      ensures exists k :: 0 <= k < |s| && s[k].op == id
    {
      var k :| 0 <= k < |contents| && contents[k].op == id;
      assert s[k].op == id;
    }
  }

  method WakeQueue(q: I.Queue<nat>, c: State, ghost ids: set<nat>, slot: nat, pdst: nat, r: Result)
    requires Shape(c) && pdst < R.PHYS_REGS && HoldsWaiting(q, c.log, c.iq, ids)
    modifies q
    ensures HoldsWaiting(q, c.log, Complete(c, slot, pdst, r).iq, ids)
  {
    ghost var before := q.Contents();
    q.Wakeup(pdst);
    WaitingWakes(before, q.Contents(), c, ids, pdst);
    hide AreWaiting, Shape;
  }

  lemma {:induction false} WaitingWakes(contents: seq<I.Waiting<nat>>, contents': seq<I.Waiting<nat>>, c: State,
        ids: set<nat>, pdst: nat)
    requires Shape(c) && AreWaiting(contents, c.log, c.iq, ids) && |contents'| == |contents|
    requires forall k :: 0 <= k < |contents| ==> contents'[k] == I.Woken(contents[k], pdst)
    ensures AreWaiting(contents', c.log, Woken(c.log, c.iq, pdst), ids)
  {
    forall k | 0 <= k < |contents|
      ensures IsWaiting(contents'[k], c.log, Woken(c.log, c.iq, pdst)) && contents'[k].op == contents[k].op
    {
      assert IsWaiting(contents[k], c.log, c.iq);
    }
    hide IsWaiting, I.Woken, Shape;
    forall id | id in ids
      ensures exists k :: 0 <= k < |contents'| && contents'[k].op == id
    {
      var k :| 0 <= k < |contents| && contents[k].op == id;
      assert contents'[k].op == id;
    }
  }

  /** The instruction that is issued is the oldest in the queue with both sources ready. */
  method IssueFromQueue(q: I.Queue<nat>, c: State, ghost ids: set<nat>) returns (r: Option<nat>)
    requires HoldsWaiting(q, c.log, c.iq, ids)
    modifies q
    ensures r.None? ==> HoldsWaiting(q, c.log, c.iq, ids) && forall id :: id in ids ==> !Ready(c, id)
    ensures r.Some? ==> r.value in ids && Ready(c, r.value) && forall id :: id in ids && id < r.value ==> !Ready(c, id)
    ensures r.Some? ==> HoldsWaiting(q, c.log, c.iq - {r.value}, ids - {r.value})
  {
    var k := q.ReadyIndex();
    ReadyMeans(q.Contents(), c, ids);
    if k.None? {
      r := None;
    } else {
      WaitingLeaves(q.Contents(), c, ids, k.value);
      r := Some(q.queue[k.value].op);
      assert q.queue[k.value] == q.Contents()[k.value];
      hide AreWaiting;
      q.Deq(k.value);
    }
  }

  lemma {:induction false} ReadyMeans(contents: seq<I.Waiting<nat>>, c: State, ids: set<nat>)
    requires AreWaiting(contents, c.log, c.iq, ids)
    ensures forall k :: 0 <= k < |contents| ==> (I.AllReady(contents[k]) <==> Ready(c, contents[k].op))
  {
    forall k | 0 <= k < |contents|
      ensures I.AllReady(contents[k]) <==> Ready(c, contents[k].op)
    {
      var w := contents[k];
      assert IsWaiting(w, c.log, c.iq);
      assert w.regs[0].1 == c.iq[w.op].0 && w.regs[1].1 == c.iq[w.op].1;
    }
  }

  lemma {:induction false} WaitingLeaves(contents: seq<I.Waiting<nat>>, c: State, ids: set<nat>, k: nat)
    requires AreWaiting(contents, c.log, c.iq, ids) && k < |contents|
    ensures var id := contents[k].op;
            AreWaiting(contents[..k] + contents[k + 1..], c.log, c.iq - {id}, ids - {id})
  {
    var s, x := contents[..k] + contents[k + 1..], contents[k].op;
    forall j | 0 <= j < |s|
      ensures s[j] == contents[if j < k then j else j + 1] && s[j].op != x && IsWaiting(s[j], c.log, c.iq - {x})
    {
      assert IsWaiting(contents[if j < k then j else j + 1], c.log, c.iq);
    }
    hide IsWaiting;
    forall id | id in ids - {x}
      ensures exists j :: 0 <= j < |s| && s[j].op == id
    {
      var j :| 0 <= j < |contents| && contents[j].op == id;
      assert s[if j < k then j else j - 1].op == id;
    }
  }
}
