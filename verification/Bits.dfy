/** The bit-vector selectors of src/Utils.bsv.
    A `Bit#(size)` is a `seq<bool>` of that length, index 0 being the least
    significant bit; an index type `Bit#(TLog#(size))` is a number below
    `CeilPow2(size)`, and the places where the source may wrap say so. */
module Bits {
  import opened Wrappers

  /** The number of values of `Bit#(TLog#(size))`. */
  function CeilPow2(size: nat, p: nat := 1): (r: nat)
    requires p > 0
    ensures r >= size && r >= p
    decreases size - p
  {
    if p >= size then p else CeilPow2(size, 2 * p)
  }

  function ShiftRight(x: seq<bool>, k: nat): (r: seq<bool>) {
    seq(|x|, i requires 0 <= i < |x| => i + k < |x| && x[i + k])
  }

  function ShiftLeft(x: seq<bool>, k: nat): (r: seq<bool>) {
    seq(|x|, i requires 0 <= i < |x| => i >= k && x[i - k])
  }

  function Or(x: seq<bool>, y: seq<bool>): (r: seq<bool>)
    requires |x| == |y|
  {
    seq(|x|, i requires 0 <= i < |x| => x[i] || y[i])
  }

  function And(x: seq<bool>, y: seq<bool>): (r: seq<bool>)
    requires |x| == |y|
  {
    seq(|x|, i requires 0 <= i < |x| => x[i] && y[i])
  }

  function Not(x: seq<bool>): (r: seq<bool>) {
    seq(|x|, i requires 0 <= i < |x| => !x[i])
  }

  /** The position `i` places after `start` in a ring of `size` slots. */
  function Slot(start: nat, i: nat, size: nat): (k: nat)
    requires start < size && i <= size
    ensures k < size
  {
    if start + i < size then start + i else start + i - size
  }

  /** How many places after `start` position `k` is in a ring of `size` slots. */
  function Distance(start: nat, k: nat, size: nat): (d: nat)
    requires start < size && k < size
    ensures d < size
    ensures Slot(start, d, size) == k
    ensures forall i :: 0 <= i < size && Slot(start, i, size) == k ==> i == d
  {
    if k >= start then k - start else k + size - start
  }

  /** `b` is computed in `TLog#(size)` bits, so for a power of two it wraps to
      zero when `a` is zero. */
  function RotateRight(x: seq<bool>, a: nat): (r: seq<bool>)
    requires a < |x|
    ensures |r| == |x|
    ensures forall i :: 0 <= i < |x| ==> r[i] == x[Slot(a, i, |x|)]
  {
    var b := Truncate(|x| - 1 - a + 1, CeilPow2(|x|));
    assert b == |x| - a || (a == 0 && b == 0);
    Or(ShiftRight(x, a), ShiftLeft(x, b))
  }

  /** Index of the least significant one, `|x|` when there is none. */
  function FirstOne(x: seq<bool>, k: nat := 0): (m: nat)
    requires k <= |x|
    ensures k <= m <= |x|
    ensures m < |x| ==> x[m]
    ensures forall i :: k <= i < m ==> !x[i]
    decreases |x| - k
  {
    if k == |x| then |x| else if x[k] then k else FirstOne(x, k + 1)
  }

  /** Index of the most significant one, `|x|` when there is none. */
  function LastOne(x: seq<bool>, k: nat := 0): (m: nat)
    requires k <= |x|
    ensures m <= |x|
    ensures m < |x| ==> m < |x| - k && x[m]
    ensures forall i :: (if m == |x| then 0 else m + 1) <= i < |x| - k ==> !x[i]
    decreases |x| - k
  {
    if k == |x| then |x| else if x[|x| - 1 - k] then |x| - 1 - k else LastOne(x, k + 1)
  }

  /** A sum kept in a field of `n` values; one that fits is unchanged. */
  function Truncate(x: nat, n: nat): (r: nat)
    requires n > 0
    ensures r < n
    ensures x < n ==> r == x
  {
    x % n
  }

  /** The bit `m` of the rotated vector named in the original one; the sum is
      made in one more bit than an index. */
  function Unrotate(start: nat, m: nat, size: nat): (k: nat)
    requires start < size && m < size
    ensures k == Slot(start, m, size)
  {
    var k := Truncate(start + m, 2 * CeilPow2(size));
    if k >= size then k - size else k
  }

  /** The first set bit met when walking the ring from `start`. */
  function FirstOneFrom(x: seq<bool>, start: nat): (r: Option<nat>)
    requires start < |x|
    ensures r.None? <==> forall k :: 0 <= k < |x| ==> !x[k]
    ensures r.Some? ==> r.value < |x| && x[r.value]
    ensures r.Some? ==> forall k :: 0 <= k < |x| && x[k] ==> Distance(start, r.value, |x|) <= Distance(start, k, |x|)
  {
    var y := RotateRight(x, start);
    var m := FirstOne(y);
    assert forall k :: 0 <= k < |x| ==> x[k] == y[Distance(start, k, |x|)];
    if m == |x| then None
    else
      Some(Unrotate(start, m, |x|))
  }

  /** The last set bit met when walking the ring from `start`. */
  function LastOneFrom(x: seq<bool>, start: nat): (r: Option<nat>)
    requires start < |x|
    ensures r.None? <==> forall k :: 0 <= k < |x| ==> !x[k]
    ensures r.Some? ==> r.value < |x| && x[r.value]
    ensures r.Some? ==> forall k :: 0 <= k < |x| && x[k] ==> Distance(start, k, |x|) <= Distance(start, r.value, |x|)
  {
    var y := RotateRight(x, start);
    var m := LastOne(y);
    assert forall k :: 0 <= k < |x| ==> x[k] == y[Distance(start, k, |x|)];
    if m == |x| then None
    else
      Some(Unrotate(start, m, |x|))
  }

  /** Ages and epochs are eight bits wide. */
  const AGES := 256

  /** `isBefore` on truncated ages: the top bit of the eight-bit difference. */
  predicate IsBefore(a: nat, b: nat)
    requires a < AGES && b < AGES
  {
    (b - a) % AGES < AGES / 2
  }

  /** Truncated ages compare like the unbounded ones they stand for exactly
      when b - a is in the signed eight-bit range. */
  lemma IsBeforeIsOrder(a: nat, b: nat)
    requires a <= b + AGES / 2 && b < a + AGES / 2
    ensures IsBefore(a % AGES, b % AGES) <==> a <= b
  {
    var wraps := b / AGES - a / AGES;
    var d := b % AGES - a % AGES;
    assert d == b - a - AGES * wraps;
    assert -1 <= wraps <= 1;
    assert d % AGES == if d < 0 then d + AGES else d;
  }
}
