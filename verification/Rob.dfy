/** src/ROB.bsv: a ring with empty and full flags instead of valid bits. */
module Rob {
  import opened Wrappers
  import opened Bits

  class ReorderBuffer<E(0), V(0)> {
    const size: nat
    var data: seq<E>
    var results: seq<V>
    var resultValid: seq<bool>
    var waitDmem: seq<bool>
    var firstP: nat
    var nextP: nat
    var empty: bool
    var full: bool
    ghost var count: nat

    ghost predicate Valid()
      reads this
    {
      && 0 < size && |data| == |results| == |resultValid| == |waitDmem| == size
      && firstP < size && count <= size
      && nextP == Slot(firstP, count, size)
      && (empty <==> count == 0) && (full <==> count == size)
    }

    /** The results the slots hold, whether or not an instruction is in them. */
    ghost function Results(): (r: seq<Option<V>>)
      reads this
      requires Valid()
      ensures |r| == size
    {
      Given(results, resultValid)
    }

    /** The instructions in flight in program order, each with its result if it has one
        and whether the memory unit still has to be told of its commit. */
    ghost function Contents(): (r: seq<(E, Option<V>, bool)>)
      reads this
      requires Valid()
    {
      InOrder(data, results, resultValid, waitDmem, firstP, count)
    }

    constructor (n: nat, e: E, v: V)
      requires n > 0
      ensures Valid() && size == n && firstP == 0 && Contents() == []
      ensures forall k :: 0 <= k < size ==> Results()[k] == None
    {
      size := n;
      data, results, resultValid, waitDmem := seq(n, _ => e), seq(n, _ => v), seq(n, _ => false), seq(n, _ => false);
      firstP, nextP, empty, full, count := 0, 0, true, false, 0;
    }

    /** The slot keeps the result it may hold already: only `Deq` clears it. */
    method Enq(entry: E, dmem: bool) returns (index: nat)
      requires Valid() && !full
      modifies this
      ensures Valid() && old(|Contents()| < size) && firstP == old(firstP)
      ensures index == Slot(firstP, old(count), size)
      ensures Contents() == old(Contents()) + [(entry, old(Results()[Slot(firstP, count, size)]), dmem)]
      ensures Results() == old(Results())
    {
      hide InOrder, Distance, Slot;
      EnqInOrder(data, results, resultValid, waitDmem, firstP, nextP, count, entry, dmem);
      var next := if nextP == size - 1 then 0 else nextP + 1;
      index := nextP;
      data := data[nextP := entry];
      waitDmem := waitDmem[nextP := dmem];
      empty := false;
      nextP := next;
      if next == firstP {
        full := true;
      }
      count := count + 1;
    }

    method First() returns (entry: E, index: nat, result: Option<V>)
      requires Valid() && !empty
      ensures Contents() != [] && Contents()[0].0 == entry && Contents()[0].1 == result && index == firstP
    {
      entry, index := data[firstP], firstP;
      result := if resultValid[firstP] then Some(results[firstP]) else None;
    }

    /** `writeBack` names a slot by its index: the instruction in it, and no other, gets
        the result; without one, the instruction that enters it next. */
    method WriteBack(index: nat, v: V)
      requires Valid() && index < size
      modifies this
      ensures Valid() && firstP == old(firstP) && count == old(count)
      ensures Results() == old(Results())[index := Some(v)]
      ensures var i := Distance(firstP, index, size);
              var before := old(Contents());
              Contents() == if i < count then before[i := (before[i].0, Some(v), before[i].2)] else before
    {
      results := results[index := v];
      resultValid := resultValid[index := true];
    }

    method DmemCommit()
      requires Valid() && !empty && waitDmem[firstP]
      modifies this
      ensures Valid() && firstP == old(firstP) && count == old(count) && count > 0
      ensures Contents() == old(Contents())[0 := (old(Contents())[0].0, old(Contents())[0].1, false)]
      ensures Results() == old(Results())
    {
      waitDmem := waitDmem[firstP := false];
    }

    method Deq()
      requires Valid() && !empty && !waitDmem[firstP]
      modifies this
      ensures Valid() && old(Contents() != [] && !Contents()[0].2) && Contents() == old(Contents())[1..]
      ensures firstP == Slot(old(firstP), 1, size)
      ensures Results() == old(Results())[old(firstP) := None]
    {
      hide InOrder, Distance, Slot;
      DeqInOrder(data, results, resultValid, waitDmem, firstP, nextP, count);
      var next := if firstP == size - 1 then 0 else firstP + 1;
      full := false;
      resultValid := resultValid[firstP := false];
      firstP := next;
      if next == nextP {
        empty := true;
      }
      count := count - 1;
    }
  }

  /** A new instruction stands last. */
  lemma {:induction false} EnqInOrder<E, V>(data: seq<E>, results: seq<V>, resultValid: seq<bool>,
        waitDmem: seq<bool>, first: nat, end: nat, count: nat, entry: E, dmem: bool)
    requires first < |data| == |results| == |resultValid| == |waitDmem| && count < |data|
    requires end == Slot(first, count, |data|)
    ensures end < |data|
    ensures var next := if end == |data| - 1 then 0 else end + 1;
            next == Slot(first, count + 1, |data|) && (next == first <==> count + 1 == |data|)
    ensures InOrder(data[end := entry], results, resultValid, waitDmem[end := dmem], first, count + 1)
            == InOrder(data, results, resultValid, waitDmem, first, count)
               + [(entry, Given(results, resultValid)[end], dmem)]
  {
    assert Distance(first, end, |data|) == count;
  }

  /** The oldest instruction leaves and the others keep their order. */
  lemma {:induction false} DeqInOrder<E, V>(data: seq<E>, results: seq<V>, resultValid: seq<bool>,
        waitDmem: seq<bool>, first: nat, end: nat, count: nat)
    requires first < |data| == |results| == |resultValid| == |waitDmem| && 0 < count <= |data|
    requires end == Slot(first, count, |data|)
    ensures var next := if first == |data| - 1 then 0 else first + 1;
            var valid := resultValid[first := false];
            && end == Slot(next, count - 1, |data|) && (next == end <==> count == 1 || count - 1 == |data|)
            && next == Slot(first, 1, |data|)
            && InOrder(data, results, valid, waitDmem, next, count - 1)
                  == InOrder(data, results, resultValid, waitDmem, first, count)[1..]
    ensures InOrder(data, results, resultValid, waitDmem, first, count)[0].2 == waitDmem[first]
  {
    var next := if first == |data| - 1 then 0 else first + 1;
    var valid := resultValid[first := false];
    forall k | 0 <= k < |data| && k != first
      ensures Distance(first, k, |data|) == Distance(next, k, |data|) + 1
    {
    }
    forall i | 0 <= i < count - 1
      ensures Slot(next, i, |data|) == Slot(first, i + 1, |data|) != first
    {
    }
    assert Slot(first, 0, |data|) == first;
  }

  function Given<V>(results: seq<V>, valid: seq<bool>): (r: seq<Option<V>>)
    requires |results| == |valid|
    ensures |r| == |results|
  {
    seq(|results|, k requires 0 <= k < |results| => if valid[k] then Some(results[k]) else None)
  }

  ghost function InOrder<E, V>(data: seq<E>, results: seq<V>, resultValid: seq<bool>, waitDmem: seq<bool>, first: nat,
        count: nat): (r: seq<(E, Option<V>, bool)>)
    requires first < |data| == |results| == |resultValid| == |waitDmem| && count <= |data|
    ensures |r| == count
    ensures forall k :: 0 <= k < |data| && Distance(first, k, |data|) < count ==>
              r[Distance(first, k, |data|)] == (data[k], if resultValid[k] then Some(results[k]) else None, waitDmem[k])
  {
    seq(count, i requires 0 <= i < count =>
      var k := Slot(first, i, |data|);
      (data[k], if resultValid[k] then Some(results[k]) else None, waitDmem[k]))
  }
}
