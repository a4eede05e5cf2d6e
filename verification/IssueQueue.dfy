/** src/IssueQueue.bsv: a compacting queue in dispatch order; the oldest instruction
    whose sources are all ready is issued. */
module IssueQueue {
  import opened Wrappers
  import opened Bits

  /** A waiting instruction: its sources, each with its ready flag. */
  datatype Waiting<T> = Waiting(op: T, regs: seq<(nat, bool)>)

  predicate AllReady<T>(w: Waiting<T>) {
    forall j :: 0 <= j < |w.regs| ==> w.regs[j].1
  }

  /** What a wake-up does to one instruction: exactly the sources that name the
      register become ready. */
  function Woken<T>(w: Waiting<T>, pdst: nat): (r: Waiting<T>)
    ensures r.op == w.op && |r.regs| == |w.regs|
    ensures forall j :: 0 <= j < |w.regs| ==>
          r.regs[j].0 == w.regs[j].0 && (r.regs[j].1 <==> w.regs[j].1 || w.regs[j].0 == pdst)
  {
    w.(regs := seq(|w.regs|, j requires 0 <= j < |w.regs| => (w.regs[j].0, w.regs[j].1 || w.regs[j].0 == pdst)))
  }

  class Queue<T(0)> {
    const size: nat
    var queue: seq<Waiting<T>>
    var valid: seq<bool>
    var head: Option<nat>
    ghost var count: nat

    ghost predicate Valid()
      reads this
    {
      && 0 < size && |queue| == |valid| == size && count <= size
      && (forall k :: 0 <= k < size ==> (valid[k] <==> k < count))
      && head == if count == size then None else Some(count)
    }

    /** The waiting instructions, oldest first. */
    ghost function Contents(): seq<Waiting<T>>
      reads this
      requires Valid()
    {
      queue[..count]
    }

    constructor (n: nat, w: Waiting<T>)
      requires n > 0
      ensures Valid() && size == n && Contents() == []
    {
      size := n;
      queue, valid := seq(n, _ => w), seq(n, _ => false);
      head, count := Some(0), 0;
    }

    method Enq(w: Waiting<T>)
      requires Valid() && head.Some?
      modifies this
      ensures Valid() && old(|Contents()| < size) && Contents() == old(Contents()) + [w]
    {
      var idx := head.value;
      head := if idx == size - 1 then None else Some(idx + 1);
      valid := Or(ShiftLeft(valid, 1), seq(size, i => i == 0));
      queue := queue[idx := w];
      count := count + 1;
    }

    method Wakeup(pdst: nat)
      requires Valid()
      modifies this
      ensures Valid() && count == old(count)
      ensures forall k :: 0 <= k < count ==> Contents()[k] == Woken(old(Contents())[k], pdst)
    {
      for i := 0 to size
        invariant Valid() && count == old(count)
        invariant forall k :: 0 <= k < i ==> queue[k] == Woken(old(queue)[k], pdst)
        invariant forall k :: i <= k < size ==> queue[k] == old(queue)[k]
      {
        var entry := queue[i];
        for j := 0 to |entry.regs|
          invariant entry.op == queue[i].op && |entry.regs| == |queue[i].regs|
          invariant forall l :: 0 <= l < j ==> entry.regs[l] == Woken(queue[i], pdst).regs[l]
          invariant forall l :: j <= l < |entry.regs| ==> entry.regs[l] == queue[i].regs[l]
        {
          if entry.regs[j].0 == pdst {
            entry := entry.(regs := entry.regs[j := (pdst, true)]);
          }
        }
        assert entry.regs == Woken(queue[i], pdst).regs;
        queue := queue[i := entry];
      }
    }

    /** The index of the oldest instruction that can issue. */
    method ReadyIndex() returns (r: Option<nat>)
      requires Valid()
      ensures r.None? ==> forall k :: 0 <= k < |Contents()| ==> !AllReady(Contents()[k])
      ensures r.Some? ==> r.value < |Contents()| && AllReady(Contents()[r.value]) &&
                          forall k :: 0 <= k < r.value ==> !AllReady(Contents()[k])
    {
      var rdy := seq(size, _ => false);
      for i := 0 to size
        invariant |rdy| == size
        invariant forall k :: 0 <= k < i ==> (rdy[k] <==> valid[k] && AllReady(queue[k]))
        invariant forall k :: i <= k < size ==> !rdy[k]
      {
        if valid[i] && AllReady(queue[i]) {
          rdy := rdy[i := true];
        }
      }
      r := FirstOneFrom(rdy, 0);
      if r.Some? {
        forall k | 0 <= k < r.value
          ensures !AllReady(queue[k])
        {
          assert Distance(0, k, size) == k;
        }
      } else {
        assert forall k :: 0 <= k < count ==> !rdy[k];
      }
    }

    /** The slots above `idx` move down one place. */
    method Compact(idx: nat)
      requires |queue| == size && idx < size
      modifies this`queue
      ensures |queue| == size
      ensures forall k :: 0 <= k < size ==> queue[k] == old(queue)[if idx <= k < size - 1 then k + 1 else k]
    {
      for i := 0 to size - 1
        invariant |queue| == size
        invariant forall k :: 0 <= k < size ==> queue[k] == old(queue)[if idx <= k < i then k + 1 else k]
      {
        if i >= idx {
          queue := queue[i := queue[i + 1]];
        }
      }
    }

    /** Removes the instruction at `idx`; the younger ones move down one place. */
    method Deq(idx: nat)
      requires Valid() && idx < |Contents()|
      modifies this
      ensures Valid() && old(idx < |Contents()|) && Contents() == old(Contents())[..idx] + old(Contents())[idx + 1..]
    {
      hide ShiftRight;
      OneFewer(valid, count);
      head := if head == None then Some(size - 1) else Some(head.value - 1);
      valid := ShiftRight(valid, 1);
      Compact(idx);
      count := count - 1;
      Removed(old(queue), queue, idx, count, size);
    }
  }

  lemma {:induction false} OneFewer(v: seq<bool>, count: nat)
    requires 0 < count <= |v| && forall k :: 0 <= k < |v| ==> (v[k] <==> k < count)
    ensures |ShiftRight(v, 1)| == |v| && forall k :: 0 <= k < |v| ==> (ShiftRight(v, 1)[k] <==> k < count - 1)
  {
  }

  lemma {:induction false} Removed<T>(q: seq<T>, q': seq<T>, idx: nat, count: nat, size: nat)
    requires |q| == |q'| == size && idx <= count < size
    requires forall k :: 0 <= k < size ==> q'[k] == q[if idx <= k < size - 1 then k + 1 else k]
    ensures q'[..count] == q[..count + 1][..idx] + q[..count + 1][idx + 1..]
  {
  }
}
