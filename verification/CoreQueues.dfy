/** The load/store queues hold the in-flight memory operations in program order. */
module CoreQueues {
  import opened Isa
  import opened LsuSpec
  import opened Core
  import opened CoreInvariant
  import R = RenamingSpec

  lemma {:induction false} MembersPrefix(log: seq<Entry>, more: seq<Entry>, base: nat, n: nat, loads: bool)
    requires base <= n <= |log|
    ensures Members(log + more, base, n, loads) == Members(log, base, n, loads)
    ensures Tags(log + more, base, n) == Tags(log, base, n)
    decreases n
  {
    if n > base {
      assert (log + more)[n - 1] == log[n - 1];
      MembersPrefix(log, more, base, n - 1, loads);
    }
  }

  lemma {:induction false} MembersSnoc(log: seq<Entry>, base: nat, n: nat, loads: bool)
    requires base <= n <= |log|
    ensures n == base ==> Members(log, base, n, loads) == []
    ensures n > base ==>
              Members(log, base, n, loads)
              == Members(log, base, n - 1, loads)
                 + if (if loads then IsLoadAt(log, n - 1) else IsStoreAt(log, n - 1)) then [n - 1] else []
  {
  }

  lemma {:induction false} MembersPop(log: seq<Entry>, base: nat, n: nat, loads: bool)
    requires base < n <= |log|
    ensures Members(log, base, n, loads)
            == (if (if loads then IsLoadAt(log, base) else IsStoreAt(log, base)) then [base] else [])
               + Members(log, base + 1, n, loads)
    decreases n
  {
    hide Members, IsLoadAt, IsStoreAt;
    MembersSnoc(log, base, n, loads);
    MembersSnoc(log, base + 1, n, loads);
    if n > base + 1 {
      MembersPop(log, base, n - 1, loads);
    } else {
      MembersSnoc(log, base, base, loads);
    }
  }

  function TagOf(k: Kind): seq<Tag> {
    match k case Load(_, _) => [LoadTag] case Store(_) => [StoreTag] case _ => []
  }

  lemma {:induction false} TagsPop(log: seq<Entry>, base: nat, n: nat)
    requires base < n <= |log|
    ensures Tags(log, base, n) == TagOf(KindAt(log, base)) + Tags(log, base + 1, n)
    decreases n
  {
    if n > base + 1 {
      TagsPop(log, base, n - 1);
    } else {
      assert Tags(log, base, base) == [];
    }
  }

  lemma {:induction false} QueueDispatch(log: seq<Entry>, base: nat, l: Lsu, e: Entry)
    requires QueueInv(log, base, l.loads, l.stores, l.tags)
    ensures var l' := EnterLsu(l, |log|, e.d); QueueInv(log + [e], base, l'.loads, l'.stores, l'.tags)
  {
    MembersPrefix(log, [e], base, |log|, true);
    MembersPrefix(log, [e], base, |log|, false);
    var log' := log + [e];
    assert log'[|log|] == e;
    var l' := EnterLsu(l, |log|, e.d);
    assert LoadIds(l'.loads) == LoadIds(l.loads) + if e.d.instr.kind.Load? then [|log|] else [];
    assert StoreIds(l'.stores) == StoreIds(l.stores) + if e.d.instr.kind.Store? then [|log|] else [];
  }

  /** The head of the reorder buffer, if it is a memory operation, is the head of its
      queue and of the tag queue. */
  lemma {:induction false} QueuePop(log: seq<Entry>, base: nat, l: Lsu)
    requires QueueInv(log, base, l.loads, l.stores, l.tags) && base < |log|
    ensures KindAt(log, base).Load? ==>
              && l.loads != [] && l.loads[0].entry == base && l.tags != [] && l.tags[0] == LoadTag
              && QueueInv(log, base + 1, l.loads[1..], l.stores, l.tags[1..])
    ensures KindAt(log, base).Store? ==>
              && l.stores != [] && l.stores[0].entry == base && l.tags != [] && l.tags[0] == StoreTag
              && QueueInv(log, base + 1, l.loads, l.stores[1..], l.tags[1..])
    ensures !IsMemory(KindAt(log, base)) ==> QueueInv(log, base + 1, l.loads, l.stores, l.tags)
  {
    hide Members, Tags;
    MembersPop(log, base, |log|, true);
    MembersPop(log, base, |log|, false);
    TagsPop(log, base, |log|);
    if KindAt(log, base).Load? {
      assert LoadIds(l.loads)[0] == base;
      assert LoadIds(l.loads[1..]) == LoadIds(l.loads)[1..];
    } else if KindAt(log, base).Store? {
      assert StoreIds(l.stores)[0] == base;
      assert StoreIds(l.stores[1..]) == StoreIds(l.stores)[1..];
    }
  }

  // ----- the queue of system instructions

  lemma {:induction false} DirectPrefix(log: seq<Entry>, more: seq<Entry>, from: nat, n: nat)
    requires from <= n <= |log|
    ensures DirectSources(log + more, from, n) == DirectSources(log, from, n)
    decreases n
  {
    if n > from {
      assert (log + more)[n - 1] == log[n - 1];
      DirectPrefix(log, more, from, n - 1);
    }
  }

  lemma {:induction false} DirectPop(log: seq<Entry>, from: nat, n: nat)
    requires from < n <= |log|
    ensures DirectSources(log, from, n)
            == (if KindAt(log, from).System? then [(log[from].src1, log[from].src2)] else [])
               + DirectSources(log, from + 1, n)
    decreases n
  {
    if n > from + 1 {
      DirectPop(log, from, n - 1);
    } else {
      assert DirectSources(log, from, from) == [];
    }
  }

  /** Every element of the queue is of an instruction in flight. */
  lemma {:induction false} DirectBound(log: seq<Entry>, from: nat, n: nat)
    requires from <= n <= |log|
    requires forall id :: from <= id < n ==> log[id].src1 < R.PHYS_REGS && log[id].src2 < R.PHYS_REGS
    ensures forall k :: 0 <= k < |DirectSources(log, from, n)| ==>
              DirectSources(log, from, n)[k].0 < R.PHYS_REGS && DirectSources(log, from, n)[k].1 < R.PHYS_REGS
    decreases n
  {
    if n > from {
      DirectBound(log, from, n - 1);
    }
  }

  lemma {:induction false} DirectDispatch(log: seq<Entry>, base: nat, results: map<nat, Result>,
        direct: seq<(nat, nat)>, e: Entry)
    requires DirectInv(log, base, results, direct) && base <= |log| && |log| !in results
    ensures DirectInv(log + [e], base, results, if e.d.instr.kind.System? then direct + [(e.src1, e.src2)] else direct)
  {
    DirectPrefix(log, [e], if base in results then base + 1 else base, |log|);
  }

  /** A result is written: the head's sources, if it is a system instruction, are
      first in the queue and leave it; nobody else's are concerned. */
  lemma {:induction false} DirectWrite(log: seq<Entry>, base: nat, results: map<nat, Result>, direct: seq<(nat, nat)>,
        id: nat, r: Result)
    requires DirectInv(log, base, results, direct) && base <= id < |log| && id !in results
    requires KindAt(log, id).System? ==> id == base
    ensures KindAt(log, id).System? ==> direct != [] && direct[0] == (log[id].src1, log[id].src2)
    ensures DirectInv(log, base, results[id := r], if KindAt(log, id).System? then direct[1..] else direct)
  {
    if id == base {
      DirectPop(log, base, |log|);
    }
  }

  lemma {:induction false} DirectRetire(log: seq<Entry>, base: nat, results: map<nat, Result>, direct: seq<(nat, nat)>)
    requires DirectInv(log, base, results, direct) && base in results
    requires forall id :: id in results ==> id < |log| && (KindAt(log, id).System? ==> id == base)
    ensures DirectInv(log, base + 1, results - {base}, direct)
  {
    if base + 1 in results {
      DirectPop(log, base + 1, |log|);
    }
  }

  ghost predicate Distinct<T(!new)>(ids: seq<T>) {
    forall i, j :: 0 <= i < j < |ids| ==> ids[i] != ids[j]
  }

  /** The slots by number: in flight, of their kind, each number once and in order. */
  lemma {:induction false} QueueSlots(log: seq<Entry>, base: nat, loads: seq<LoadSlot<nat>>,
        stores: seq<StoreSlot<nat>>, tags: seq<Tag>)
    requires QueueInv(log, base, loads, stores, tags)
    ensures forall k :: 0 <= k < |loads| ==> base <= loads[k].entry && IsLoadAt(log, loads[k].entry)
    ensures forall k :: 0 <= k < |stores| ==> base <= stores[k].entry && IsStoreAt(log, stores[k].entry)
    ensures forall j, k :: 0 <= j < k < |loads| ==> loads[j].entry < loads[k].entry
    ensures forall j, k :: 0 <= j < k < |stores| ==> stores[j].entry < stores[k].entry
  {
    assert forall k :: 0 <= k < |loads| ==> LoadIds(loads)[k] == loads[k].entry;
    assert forall k :: 0 <= k < |stores| ==> StoreIds(stores)[k] == stores[k].entry;
  }

  lemma {:induction false} QueueUpdateLoad(log: seq<Entry>, base: nat, loads: seq<LoadSlot<nat>>,
        stores: seq<StoreSlot<nat>>, tags: seq<Tag>, k: nat, s: LoadSlot<nat>)
    requires QueueInv(log, base, loads, stores, tags) && k < |loads| && s.entry == loads[k].entry
    ensures QueueInv(log, base, loads[k := s], stores, tags)
  {
    assert LoadIds(loads[k := s]) == LoadIds(loads);
  }

  lemma {:induction false} QueueUpdateStore(log: seq<Entry>, base: nat, loads: seq<LoadSlot<nat>>,
        stores: seq<StoreSlot<nat>>, tags: seq<Tag>, k: nat, s: StoreSlot<nat>)
    requires QueueInv(log, base, loads, stores, tags) && k < |stores| && s.entry == stores[k].entry
    ensures QueueInv(log, base, loads, stores[k := s], tags)
  {
    assert StoreIds(stores[k := s]) == StoreIds(stores);
  }

  lemma {:induction false} InvShape(m: Machine, c: State, a: Arch)
    requires Inv(m, c, a)
    ensures Shape(c)
  {
    hide StreamInv, RenInv, QueueInv, LoadTokens, StoreTokens, ReadingInv, RequestInv, ArchInv, DestInv,
         IssueInv, ComputeInv, LoadValues, StoreValues, BufferInv, KilledInv, FreshInv, CsrInv;
    QueueSlots(c.log, c.base, c.lsu.loads, c.lsu.stores, c.lsu.tags);
    ShapeParts(c, a);
    DirectBound(c.log, if c.base in c.results then c.base + 1 else c.base, |c.log|);
  }

  lemma {:induction false} ShapeParts(c: State, a: Arch)
    requires RenInv(c.log, c.base, c.epoch, c.table, c.front.renamed)
    requires ArchInv(c.table.naming, c.table.busy, c.regs, a.regs)
    requires DestInv(c.log, c.base, c.table.busy, c.regs, c.results)
    requires IssueInv(c.log, c.base, c.epoch, c.table.busy, c.iq)
    ensures R.Shape(c.table) && |c.regs| == R.PHYS_REGS && c.base <= |c.log|
    ensures forall id: nat :: InFlight(c, id) ==>
              c.log[id].src1 < R.PHYS_REGS && c.log[id].src2 < R.PHYS_REGS && c.log[id].pdst < R.PHYS_REGS
  {
    forall id: nat | InFlight(c, id)
      ensures c.log[id].pdst < R.PHYS_REGS
    {
      assert c.log[id].pdst != 0 ==> c.log[id].pdst < R.PHYS_REGS;
    }
  }
}
