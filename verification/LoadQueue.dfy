/** src/lsu/LoadQueue.bsv: the ring of registers, proved to be the sequence the core
    model works with. */
module LoadQueue {
  import opened Wrappers
  import opened Bits
  import opened Words
  import opened LsuSpec
  import opened Ring

  datatype Entry = Entry(index: nat, pc: Addr, epoch: nat, age: nat, size: Size, signed: bool, pdst: nat)

  function SlotAt(entries: seq<Entry>, addresses: seq<Addr>, addrValid: seq<bool>, executed: seq<bool>,
        k: nat): LoadSlot<Entry>
    requires k < |entries| == |addresses| == |addrValid| == |executed|
  {
    LoadSlot(entries[k], if addrValid[k] then Some(addresses[k]) else None, executed[k])
  }

  /** The registers read in ring order. */
  ghost function InOrder(entries: seq<Entry>, addresses: seq<Addr>, addrValid: seq<bool>, executed: seq<bool>,
        head: nat, count: nat): (r: seq<LoadSlot<Entry>>)
    requires head < |entries| == |addresses| == |addrValid| == |executed| && count <= |entries|
    ensures |r| == count
    ensures forall k :: 0 <= k < |entries| && Distance(head, k, |entries|) < count ==>
              r[Distance(head, k, |entries|)] == SlotAt(entries, addresses, addrValid, executed, k)
  {
    seq(count, i requires 0 <= i < count => SlotAt(entries, addresses, addrValid, executed, Slot(head, i, |entries|)))
  }

  /** Has an address and has not executed. */
  ghost predicate Issuable(s: LoadSlot<Entry>) {
    s.addr.Some? && !s.executed
  }

  class LoadQ {
    const size: nat
    var entries: seq<Entry>
    var addresses: seq<Addr>
    var valid: seq<bool>
    var addrValid: seq<bool>
    var executed: seq<bool>
    var head: nat
    var tail: nat
    ghost var count: nat

    ghost predicate Valid()
      reads this
    {
      && |entries| == |addresses| == |valid| == |addrValid| == |executed| == size
      && IsRing(valid, head, tail, count)
      && forall k :: 0 <= k < size && executed[k] ==> valid[k] && addrValid[k]
    }

    /** The loads in the queue, oldest first. */
    ghost function Contents(): (r: seq<LoadSlot<Entry>>)
      reads this
      requires Valid()
    {
      InOrder(entries, addresses, addrValid, executed, head, count)
    }

    constructor (n: nat, e: Entry)
      requires n > 0
      ensures Valid() && size == n && Contents() == []
    {
      size := n;
      entries := seq(n, _ => e);
      addresses := seq(n, _ => 0);
      valid := seq(n, _ => false);
      addrValid := seq(n, _ => false);
      executed := seq(n, _ => false);
      head, tail, count := 0, 0, 0;
    }

    method Enq(entry: Entry) returns (index: nat)
      requires Valid() && !valid[tail]
      modifies this
      ensures Valid() && old(|Contents()| < size)
      ensures Contents() == old(Contents()) + [LoadSlot(entry, None, false)]
      ensures index == Slot(head, old(count), size) && head == old(head)
    {
      RingEnq(valid, head, tail, count);
      index := tail;
      addrValid := addrValid[tail := false];
      entries := entries[tail := entry];
      valid := valid[tail := true];
      tail := NextSlot(tail, size);
      count := count + 1;
    }

    /** Delivers the address of slot `index`; a misaligned one is reported and the slot
        stays without an address. */
    method WakeupAddr(index: nat, addr: Addr) returns (misaligned: bool)
      requires Valid() && index < size && valid[index] && !addrValid[index]
      modifies this
      ensures Valid() && head == old(head) && count == old(count)
      ensures misaligned <==> !Aligned(old(entries[index].size), addr)
      ensures var i := Distance(head, index, size);
              var before := old(Contents());
              i < count && Contents() == if misaligned then before else before[i := before[i].(addr := Some(addr))]
    {
      addresses := addresses[index := addr];
      misaligned := !Aligned(entries[index].size, addr);
      if !misaligned {
        addrValid := addrValid[index := true];
      }
    }

    /** The oldest load with an address that has not executed. */
    method TryIssue() returns (r: Option<nat>)
      requires Valid()
      ensures r.None? ==> forall i :: 0 <= i < |Contents()| ==> !Issuable(Contents()[i])
      ensures r.Some? ==>
                && r.value < size
                && var i := Distance(head, r.value, size);
                   i < |Contents()| && Issuable(Contents()[i]) && forall j :: 0 <= j < i ==> !Issuable(Contents()[j])
    {
      hide FirstOneFrom;
      var rdy := And(addrValid, And(valid, Not(executed)));
      r := FirstOneFrom(rdy, head);
      ghost var s := Contents();
      ghost var flags := seq(count, i requires 0 <= i < |s| => Issuable(s[i]));
      FirstInOrder(rdy, head, flags);
      assert forall i :: 0 <= i < count ==> flags[i] == Issuable(s[i]);
    }

    method Issue(index: nat)
      requires Valid() && index < size && valid[index] && addrValid[index]
      modifies this
      ensures Valid() && head == old(head) && count == old(count)
      ensures var i := Distance(head, index, size);
              i < count && Contents() == old(Contents())[i := old(Contents())[i].(executed := true)]
    {
      executed := executed[index := true];
    }

    method Deq()
      requires Valid() && valid[head]
      modifies this
      ensures Valid() && old(|Contents()| > 0) && Contents() == old(Contents())[1..]
    {
      RingDeq(valid, head, tail, count);
      executed := executed[head := false];
      valid := valid[head := false];
      head := NextSlot(head, size);
      count := count - 1;
    }

    /** The reorder buffer index of the oldest executed load of a word. */
    method Search(addr: Addr) returns (r: Option<nat>)
      requires Valid()
      ensures var oldest := OldestReader(Contents(), addr);
              r == if oldest.Some? then Some(oldest.value.index) else None
    {
      hide FirstOneFrom, OldestReader;
      var mask := seq(size, _ => false);
      for i := 0 to size
        invariant |mask| == size
        invariant forall k :: 0 <= k < i ==> (mask[k] <==> executed[k] && WordOf(addresses[k]) == WordOf(addr))
        invariant forall k :: i <= k < size ==> !mask[k]
      {
        if executed[i] && WordOf(addresses[i]) == WordOf(addr) {
          mask := mask[i := true];
        }
      }
      var idx := FirstOneFrom(mask, head);
      ghost var s := Contents();
      ghost var flags := seq(count, i requires 0 <= i < |s| => ReadWord(s[i], addr));
      FirstInOrder(mask, head, flags);
      assert forall i :: 0 <= i < count ==> flags[i] == ReadWord(s[i], addr);
      if idx.None? {
        r := None;
      } else {
        OldestReaderIs(s, addr, Distance(head, idx.value, size));
        r := Some(entries[idx.value].index);
      }
    }

    /** The value a load returns, from the word that came back. */
    method Finish(index: nat, word: Word) returns (rd: Word)
      requires Valid() && index < size
      ensures rd == Extract(entries[index].size, entries[index].signed, addresses[index], word)
    {
      rd := BytesRight(word, addresses[index] % 4);
      match entries[index].size {
        case Full =>
        case Half =>
          var e := Extension(entries[index].signed, rd[1]);
          rd := [rd[0], rd[1], e, e];
        case Single =>
          var e := Extension(entries[index].signed, rd[0]);
          rd := [rd[0], e, e, e];
      }
    }
  }

  /** A reader with no reader before it is the oldest one. */
  lemma {:induction false} OldestReaderIs<T>(s: seq<LoadSlot<T>>, addr: Addr, i: nat)
    requires i < |s| && ReadWord(s[i], addr) && forall j :: 0 <= j < i ==> !ReadWord(s[j], addr)
    ensures OldestReader(s, addr) == Some(s[i].entry)
  {
    var r := OldestReader(s, addr);
    assert r.Some?;
    var k :| 0 <= k < |s| && ReadWord(s[k], addr) && s[k].entry == r.value &&
             forall j :: 0 <= j < k ==> !ReadWord(s[j], addr);
    assert k == i;
  }
}
