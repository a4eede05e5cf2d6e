/** The ring of valid bits that the load queue, the store queue and the store
    buffer share: occupied slots are the `count` ones from `head` on, and `tail`
    is the next slot. */
module Ring {
  import opened Bits

  ghost predicate IsRing(valid: seq<bool>, head: nat, tail: nat, count: nat) {
    && 0 < |valid| && head < |valid| && count <= |valid|
    && tail == Slot(head, count, |valid|)
    && forall k :: 0 <= k < |valid| ==> (valid[k] <==> Distance(head, k, |valid|) < count)
  }

  /** The source's `next`. */
  function NextSlot(k: nat, size: nat): (r: nat)
    requires k < size
    ensures r == Slot(k, 1, size) && r < size
  {
    if k == size - 1 then 0 else k + 1
  }

  lemma {:induction false} RingEnq(valid: seq<bool>, head: nat, tail: nat, count: nat)
    requires IsRing(valid, head, tail, count)
    ensures valid[tail] <==> count == |valid|
    ensures count < |valid| ==> IsRing(valid[tail := true], head, NextSlot(tail, |valid|), count + 1)
  {
    if count < |valid| {
      assert Distance(head, tail, |valid|) == count;
    } else {
      assert tail == head;
    }
  }

  lemma {:induction false} RingDeq(valid: seq<bool>, head: nat, tail: nat, count: nat)
    requires IsRing(valid, head, tail, count)
    ensures valid[head] <==> count > 0
    ensures count > 0 ==> IsRing(valid[head := false], NextSlot(head, |valid|), tail, count - 1)
    ensures count > 0 ==> forall i :: 0 <= i < count - 1 ==>
          Slot(NextSlot(head, |valid|), i, |valid|) == Slot(head, i + 1, |valid|)
  {
    var n, h := |valid|, NextSlot(head, |valid|);
    forall k | 0 <= k < n && count > 0
      ensures valid[head := false][k] <==> Distance(h, k, n) < count - 1
    {
      assert k != head ==> Distance(head, k, n) == Distance(h, k, n) + 1;
    }
  }

  /** `flags` is a slot mask read in ring order; no slot outside the ring is set. */
  ghost predicate InRingOrder(mask: seq<bool>, head: nat, flags: seq<bool>) {
    && head < |mask| && |flags| <= |mask|
    && (forall i :: 0 <= i < |flags| ==> flags[i] == mask[Slot(head, i, |mask|)])
    && (forall k :: 0 <= k < |mask| && mask[k] ==> Distance(head, k, |mask|) < |flags|)
  }

  /** Selecting from the head selects the first flag in the order of the ring. */
  lemma {:induction false} FirstInOrder(mask: seq<bool>, head: nat, flags: seq<bool>)
    requires InRingOrder(mask, head, flags)
    ensures var r := FirstOneFrom(mask, head);
            && (r.None? <==> true !in flags)
            && (r.Some? ==>
                  var i := Distance(head, r.value, |mask|);
                  i < |flags| && flags[i] && forall j :: 0 <= j < i ==> !flags[j])
  {
    Selected(mask, head, flags);
    var r := FirstOneFrom(mask, head);
    if r.Some? {
      forall j | 0 <= j < Distance(head, r.value, |mask|)
        ensures !flags[j]
      {
        assert Distance(head, Slot(head, j, |mask|), |mask|) == j;
      }
    }
  }

  /** The last flag likewise. */
  lemma {:induction false} LastInOrder(mask: seq<bool>, head: nat, flags: seq<bool>)
    requires InRingOrder(mask, head, flags)
    ensures var r := LastOneFrom(mask, head);
            && (r.None? <==> true !in flags)
            && (r.Some? ==>
                  var i := Distance(head, r.value, |mask|);
                  i < |flags| && flags[i] && forall j :: i < j < |flags| ==> !flags[j])
  {
    Selected(mask, head, flags);
    var r := LastOneFrom(mask, head);
    if r.Some? {
      forall j | Distance(head, r.value, |mask|) < j < |flags|
        ensures !flags[j]
      {
        assert Distance(head, Slot(head, j, |mask|), |mask|) == j;
      }
    }
  }

  lemma {:induction false} Selected(mask: seq<bool>, head: nat, flags: seq<bool>)
    requires InRingOrder(mask, head, flags)
    ensures true in flags <==> exists k :: 0 <= k < |mask| && mask[k]
    ensures forall k :: 0 <= k < |mask| && mask[k] ==> flags[Distance(head, k, |mask|)]
  {
    if true in flags {
      var i :| 0 <= i < |flags| && flags[i];
      assert mask[Slot(head, i, |mask|)];
    }
  }
}
