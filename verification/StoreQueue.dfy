/** src/lsu/StoreQueue.bsv and src/lsu/StoreBuffer.bsv: the rings of stores waiting
    to commit and of committed stores waiting for the cache. */
module StoreQueue {
  import opened Wrappers
  import opened Bits
  import opened Words
  import opened LsuSpec
  import opened Ring

  datatype Entry = Entry(index: nat, pc: Addr, epoch: nat, age: nat, size: Size, pdst: nat)

  /** The registers of one slot, `known` bits included. */
  datatype Slots = Slots(entries: seq<Entry>, addresses: seq<Addr>, datas: seq<Word>, addrValid: seq<bool>,
        dataValid: seq<bool>, toIssue: seq<bool>)

  ghost predicate Sized(s: Slots, n: nat) {
    && |s.entries| == |s.addresses| == |s.datas| == |s.addrValid| == |s.dataValid| == |s.toIssue| == n
    && forall k :: 0 <= k < n ==> s.entries[k].age < AGES
  }

  function SlotAt(s: Slots, k: nat): StoreSlot<Entry>
    requires k < |s.entries| == |s.addresses| == |s.datas| == |s.addrValid| == |s.dataValid| == |s.toIssue|
  {
    StoreSlot(s.entries[k], s.entries[k].epoch, s.entries[k].age,
              if s.addrValid[k] then Some(s.addresses[k]) else None,
              if s.dataValid[k] then Some(s.datas[k]) else None, !s.toIssue[k])
  }

  ghost function InOrder(s: Slots, head: nat, count: nat, n: nat): (r: seq<StoreSlot<Entry>>)
    requires Sized(s, n) && head < n && count <= n
    ensures |r| == count
    ensures forall k :: 0 <= k < n && Distance(head, k, n) < count ==> r[Distance(head, k, n)] == SlotAt(s, k)
  {
    seq(count, i requires 0 <= i < count => SlotAt(s, Slot(head, i, n)))
  }

  /** Known and not yet reported to the reorder buffer. */
  ghost predicate Issuable(s: StoreSlot<Entry>) {
    s.addr.Some? && s.data.Some? && !s.issued
  }

  ghost predicate Hit(s: StoreSlot<Entry>, addr: Addr, epoch: nat, age: nat)
    requires age < AGES
  {
    s.age < AGES && Conflicts(s, addr, epoch, age)
  }

  /** No slot is ready: no store in the queue can be reported. */
  lemma {:induction false} NoneIssuable(s: Slots, valid: seq<bool>, rdy: seq<bool>, head: nat, tail: nat, count: nat,
        n: nat)
    requires Sized(s, n) && |valid| == |rdy| == n && IsRing(valid, head, tail, count)
    requires forall k :: 0 <= k < n ==>
          !rdy[k] && (rdy[k] <==> s.toIssue[k] && s.addrValid[k] && valid[k] && s.dataValid[k])
    ensures forall i :: 0 <= i < count ==> !Issuable(InOrder(s, head, count, n)[i])
  {
    forall i | 0 <= i < count
      ensures !Issuable(InOrder(s, head, count, n)[i])
    {
      assert !rdy[Slot(head, i, n)] && valid[Slot(head, i, n)];
    }
  }

  /** One slot is marked as reported. */
  lemma {:induction false} IssuedAt(s: Slots, head: nat, count: nat, n: nat, k: nat)
    requires Sized(s, n) && head < n && count <= n && k < n && Distance(head, k, n) < count
    ensures var s' := s.(toIssue := s.toIssue[k := false]);
            var i := Distance(head, k, n);
            && Sized(s', n) && InOrder(s, head, count, n)[i] == SlotAt(s, k)
            && InOrder(s', head, count, n) == InOrder(s, head, count, n)[i := SlotAt(s, k).(issued := true)]
  {
    forall j | 0 <= j < count
      ensures Slot(head, j, n) == k <==> j == Distance(head, k, n)
    {
    }
  }

  class StoreQ {
    const size: nat
    var slots: Slots
    var valid: seq<bool>
    var head: nat
    var tail: nat
    ghost var count: nat

    ghost predicate Valid()
      reads this
    {
      Sized(slots, size) && |valid| == size && IsRing(valid, head, tail, count)
    }

    /** The stores in the queue, oldest first. */
    ghost function Contents(): (r: seq<StoreSlot<Entry>>)
      reads this
      requires Valid()
    {
      InOrder(slots, head, count, size)
    }

    constructor (n: nat)
      requires n > 0
      ensures Valid() && size == n && Contents() == []
    {
      size := n;
      slots := Slots(seq(n, _ => Entry(0, 0, 0, 0, Full, 0)), seq(n, _ => 0), seq(n, _ => ZERO),
                     seq(n, _ => false), seq(n, _ => false), seq(n, _ => false));
      valid := seq(n, _ => false);
      head, tail, count := 0, 0, 0;
    }

    method Enq(entry: Entry) returns (index: nat)
      requires Valid() && !valid[tail] && entry.age < AGES
      modifies this
      ensures Valid() && old(|Contents()| < size)
      ensures Contents() == old(Contents()) + [StoreSlot(entry, entry.epoch, entry.age, None, None, false)]
      ensures index == Slot(head, old(count), size) && head == old(head)
    {
      RingEnq(valid, head, tail, count);
      index := tail;
      slots := slots.(addrValid := slots.addrValid[tail := false], dataValid := slots.dataValid[tail := false],
                      entries := slots.entries[tail := entry], toIssue := slots.toIssue[tail := true]);
      valid := valid[tail := true];
      tail := NextSlot(tail, size);
      count := count + 1;
    }

    /** `wakeupAddr` and `wakeupData`. */
    method Wakeup(index: nat, addr: Addr, data: Word)
      requires Valid() && index < size && valid[index]
      modifies this
      ensures Valid() && head == old(head) && count == old(count)
      ensures var i := Distance(head, index, size);
              var before := old(Contents());
              i < count && Contents() == before[i := before[i].(addr := Some(addr), data := Some(data))]
    {
      slots := slots.(addrValid := slots.addrValid[index := true], addresses := slots.addresses[index := addr]);
      slots := slots.(dataValid := slots.dataValid[index := true], datas := slots.datas[index := data]);
    }

    /** Reports one store with address and data, misaligned or not. */
    method Issue() returns (r: Option<(nat, bool)>)
      requires Valid()
      modifies this
      ensures Valid() && head == old(head) && count == old(count)
      ensures r.None? ==> Contents() == old(Contents()) && forall i :: 0 <= i < count ==> !Issuable(Contents()[i])
      ensures r.Some? ==>
                && r.value.0 < size
                && var i := Distance(head, r.value.0, size);
                   && i < old(|Contents()|) && Issuable(old(Contents())[i])
                   && Contents() == old(Contents())[i := old(Contents())[i].(issued := true)]
                   && r.value.1 == Aligned(Contents()[i].entry.size, Contents()[i].addr.value)
    {
      hide InOrder, FirstOneFrom;
      var rdy := And(slots.toIssue, And(slots.addrValid, And(valid, slots.dataValid)));
      var idx := FirstOneFrom(rdy, 0);
      if idx.None? {
        NoneIssuable(slots, valid, rdy, head, tail, count, size);
        r := None;
      } else {
        IssuedAt(slots, head, count, size, idx.value);
        slots := slots.(toIssue := slots.toIssue[idx.value := false]);
        r := Some((idx.value, Aligned(slots.entries[idx.value].size, slots.addresses[idx.value])));
      }
    }

    /** Takes the oldest store out, placed on its word. */
    method Deq() returns (b: Beat)
      requires Valid() && valid[head]
      modifies this
      ensures Valid() && old(|Contents()| > 0) && Contents() == old(Contents())[1..]
      ensures var s := old(Contents())[0];
              s.addr.Some? && s.data.Some? ==> b == StoreBeat(s.entry.size, s.addr.value, s.data.value)
    {
      RingDeq(valid, head, tail, count);
      var addr := slots.addresses[head];
      b := Beat(WordOf(addr), BytesLeft(slots.datas[head], addr % 4),
            ShiftLeft(Strobe(slots.entries[head].size), addr % 4));
      valid := valid[head := false];
      head := NextSlot(head, size);
      count := count - 1;
    }

    /** The slots that block a load of this word, epoch and age. */
    method ConflictMask(addr: Addr, epoch: nat, age: nat) returns (mask: seq<bool>)
      requires Valid() && age < AGES
      ensures |mask| == size
      ensures forall k :: 0 <= k < size ==> (mask[k] <==> valid[k] && Hit(SlotAt(slots, k), addr, epoch, age))
    {
      mask := seq(size, _ => false);
      for i := 0 to size
        invariant |mask| == size
        invariant forall k :: 0 <= k < i ==> (mask[k] <==> valid[k] && Hit(SlotAt(slots, k), addr, epoch, age))
        invariant forall k :: i <= k < size ==> !mask[k]
      {
        var e := slots.entries[i];
        if valid[i] && slots.addrValid[i] && WordOf(addr) == WordOf(slots.addresses[i]) && e.epoch == epoch
              && IsBefore(e.age, age) {
          mask := mask[i := true];
        }
      }
    }

    /** The youngest store of the word that is known, of this epoch and not younger
        than `age`. */
    method Search(addr: Addr, epoch: nat, age: nat) returns (r: Option<nat>)
      requires Valid() && age < AGES
      ensures r.None? <==> forall i :: 0 <= i < |Contents()| ==> !Hit(Contents()[i], addr, epoch, age)
      ensures r.Some? ==>
                && r.value < size
                && var i := Distance(head, r.value, size);
                   && i < |Contents()| && Hit(Contents()[i], addr, epoch, age)
                   && forall j :: i < j < |Contents()| ==> !Hit(Contents()[j], addr, epoch, age)
    {
      hide Hit, IsRing, InOrder, SlotAt, LastOneFrom;
      var mask := ConflictMask(addr, epoch, age);
      Youngest(slots, valid, head, tail, count, size, mask, addr, epoch, age);
      r := LastOneFrom(mask, head);
      ghost var s := Contents();
      assert s == InOrder(slots, head, count, size);
      assert r.None? ==> forall i :: 0 <= i < |s| ==> !Hit(s[i], addr, epoch, age);
    }
  }

  /** Selecting from the head in the mask of hits selects the youngest hit. */
  lemma {:induction false} Youngest(s: Slots, valid: seq<bool>, head: nat, tail: nat, count: nat, n: nat,
        mask: seq<bool>, addr: Addr, epoch: nat, age: nat)
    requires Sized(s, n) && |valid| == n && IsRing(valid, head, tail, count) && |mask| == n && age < AGES
    requires forall k :: 0 <= k < n ==> (mask[k] <==> valid[k] && Hit(SlotAt(s, k), addr, epoch, age))
    ensures head < n && count <= n
    ensures var q, r := InOrder(s, head, count, n), LastOneFrom(mask, head);
            && (r.None? <==> forall i :: 0 <= i < |q| ==> !Hit(q[i], addr, epoch, age))
            && (r.Some? ==>
                  && r.value < n
                  && var i := Distance(head, r.value, n);
                     i < |q| && Hit(q[i], addr, epoch, age) && forall j :: i < j < |q| ==> !Hit(q[j], addr, epoch, age))
  {
    hide Hit, LastOneFrom;
    var q := InOrder(s, head, count, n);
    var flags := seq(count, i requires 0 <= i < count => Hit(q[i], addr, epoch, age));
    LastInOrder(mask, head, flags);
    assert forall i :: 0 <= i < count ==> flags[i] == Hit(q[i], addr, epoch, age);
  }

  ghost function BeatsInOrder(addrV: seq<Addr>, dataV: seq<Word>, maskV: seq<Strobes>, head: nat,
        count: nat): (r: seq<Beat>)
    requires head < |addrV| == |dataV| == |maskV| && count <= |addrV|
    ensures |r| == count
    ensures forall k :: 0 <= k < |addrV| && Distance(head, k, |addrV|) < count ==>
              r[Distance(head, k, |addrV|)] == Beat(addrV[k], dataV[k], maskV[k])
  {
    seq(count, i requires 0 <= i < count => var k := Slot(head, i, |addrV|); Beat(addrV[k], dataV[k], maskV[k]))
  }

  lemma {:induction false} YoungestBeat(addrV: seq<Addr>, dataV: seq<Word>, maskV: seq<Strobes>, valid: seq<bool>,
        head: nat, tail: nat, count: nat, found: seq<bool>, addr: Addr)
    requires |addrV| == |dataV| == |maskV| == |valid| == |found| && IsRing(valid, head, tail, count)
    requires forall k :: 0 <= k < |valid| ==> (found[k] <==> valid[k] && addrV[k] == addr)
    ensures head < |addrV| && count <= |addrV|
    ensures var s, r := BeatsInOrder(addrV, dataV, maskV, head, count), LastOneFrom(found, head);
            && (r.None? <==> forall i :: 0 <= i < |s| ==> s[i].addr != addr)
            && (r.Some? ==>
                  && r.value < |addrV| && addrV[r.value] == addr
                  && var i := Distance(head, r.value, |addrV|);
                     && i < |s| && s[i] == Beat(addrV[r.value], dataV[r.value], maskV[r.value])
                     && forall j :: i < j < |s| ==> s[j].addr != addr)
  {
    hide LastOneFrom;
    var s := BeatsInOrder(addrV, dataV, maskV, head, count);
    var flags := seq(count, i requires 0 <= i < count => s[i].addr == addr);
    LastInOrder(found, head, flags);
    assert forall i :: 0 <= i < count ==> flags[i] == (s[i].addr == addr);
  }

  class StoreBuffer {
    const size: nat
    var addrV: seq<Addr>
    var dataV: seq<Word>
    var maskV: seq<Strobes>
    var valid: seq<bool>
    var head: nat
    var tail: nat
    ghost var count: nat

    ghost predicate Valid()
      reads this
    {
      |addrV| == |dataV| == |maskV| == |valid| == size && IsRing(valid, head, tail, count)
    }

    ghost function Contents(): (r: seq<Beat>)
      reads this
      requires Valid()
    {
      BeatsInOrder(addrV, dataV, maskV, head, count)
    }

    constructor (n: nat)
      requires n > 0
      ensures Valid() && size == n && Contents() == []
    {
      size := n;
      addrV, dataV, maskV, valid := seq(n, _ => 0), seq(n, _ => ZERO), seq(n, _ => [false, false, false, false]),
            seq(n, _ => false);
      head, tail, count := 0, 0, 0;
    }

    method Enq(b: Beat)
      requires Valid() && !valid[tail]
      modifies this
      ensures Valid() && old(|Contents()| < size) && Contents() == old(Contents()) + [b]
    {
      RingEnq(valid, head, tail, count);
      addrV, dataV, maskV := addrV[tail := b.addr], dataV[tail := b.data], maskV[tail := b.mask];
      valid := valid[tail := true];
      tail := NextSlot(tail, size);
      count := count + 1;
    }

    method Deq()
      requires Valid() && valid[head]
      modifies this
      ensures Valid() && old(|Contents()| > 0) && Contents() == old(Contents())[1..]
    {
      RingDeq(valid, head, tail, count);
      valid := valid[head := false];
      head := NextSlot(head, size);
      count := count - 1;
    }

    /** The youngest committed store at this word address. */
    method Search(addr: Addr) returns (r: Option<Beat>)
      requires Valid()
      ensures r.None? <==> forall i :: 0 <= i < |Contents()| ==> Contents()[i].addr != addr
      ensures r.Some? ==> exists i :: 0 <= i < |Contents()| && Contents()[i] == r.value && r.value.addr == addr &&
                                      forall j :: i < j < |Contents()| ==> Contents()[j].addr != addr
    {
      hide IsRing, BeatsInOrder, LastOneFrom;
      var found := seq(size, _ => false);
      for i := 0 to size
        invariant |found| == size
        invariant forall k :: 0 <= k < i ==> (found[k] <==> valid[k] && addrV[k] == addr)
        invariant forall k :: i <= k < size ==> !found[k]
      {
        found := found[i := valid[i] && addrV[i] == addr];
      }
      YoungestBeat(addrV, dataV, maskV, valid, head, tail, count, found, addr);
      var idx := LastOneFrom(found, head);
      ghost var s := Contents();
      assert s == BeatsInOrder(addrV, dataV, maskV, head, count);
      assert idx.None? ==> forall i :: 0 <= i < |s| ==> s[i].addr != addr;
      if idx.Some? {
        ghost var i := Distance(head, idx.value, size);
        r := Some(Beat(addrV[idx.value], dataV[idx.value], maskV[idx.value]));
        assert s[i] == r.value && forall j :: i < j < |s| ==> s[j].addr != addr;
      } else {
        r := None;
      }
    }

    method Empty() returns (b: bool)
      requires Valid()
      ensures b <==> Contents() == []
    {
      b := FirstOne(valid) == size;
      if count > 0 {
        assert valid[head];
      }
    }
  }
}
