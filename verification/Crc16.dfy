/** `CRC16` of soft/src/sdcard.zig, against the division of section 4.5 of the SD
    Physical Layer Simplified Specification by x^16 + x^12 + x^5 + 1. */
module Crc16 {
  import opened Bits

  /** Sixteen bits, the least significant first; bit `i` is the coefficient of x^i. */
  type Register = c: seq<bool> | |c| == 16 witness seq(16, _ => false)

  type Byte = d: seq<bool> | |d| == 8 witness seq(8, _ => false)

  /** The terms of the polynomial below x^16. */
  predicate Poly(i: int) {
    i == 0 || i == 5 || i == 12
  }

  function Zero(): Register {
    seq(16, _ => false)
  }

  /** The sum of polynomials over the field of two elements. */
  function Plus(a: seq<bool>, b: seq<bool>): (r: seq<bool>)
    requires |a| == |b|
    ensures |r| == |a| && forall i :: 0 <= i < |a| ==> r[i] == (a[i] != b[i])
  {
    seq(|a|, i requires 0 <= i < |a| => a[i] != b[i])
  }

  /** A remainder times x, reduced. */
  function TimesX(c: Register): (r: Register)
    ensures forall i :: 0 <= i < 16 ==> r[i] == ((i > 0 && c[i - 1]) != (c[15] && Poly(i)))
  {
    seq(16, i requires 0 <= i < 16 => (i > 0 && c[i - 1]) != (c[15] && Poly(i)))
  }

  function Constant(bit: bool): (r: Register)
    ensures forall i :: 0 <= i < 16 ==> r[i] == (bit && i == 0)
  {
    seq(16, i => bit && i == 0)
  }

  function Reduced(bit: bool): (r: Register)
    ensures forall i :: 0 <= i < 16 ==> r[i] == (bit && Poly(i))
  {
    seq(16, i => bit && Poly(i))
  }

  /** The remainder of the polynomial whose coefficients are those of `c` and then these,
      the highest degree first: each is brought down in turn, and what reaches degree
      16 is reduced. */
  function Remainder(c: Register, coefficients: seq<bool>): Register
    decreases |coefficients|
  {
    if coefficients == [] then c
    else Remainder(Plus(TimesX(c), Constant(coefficients[0])), coefficients[1..])
  }

  /** A message times x^16: one bit enters at the top of the register. */
  function Shift(c: Register, bit: bool): (r: Register)
    ensures forall i :: 0 <= i < 16 ==> r[i] == ((i > 0 && c[i - 1]) != ((c[15] != bit) && Poly(i)))
  {
    seq(16, i requires 0 <= i < 16 => (i > 0 && c[i - 1]) != ((c[15] != bit) && Poly(i)))
  }

  function Serial(c: Register, bits: seq<bool>): Register
    decreases |bits|
  {
    if bits == [] then c else Serial(Shift(c, bits[0]), bits[1..])
  }

  lemma {:induction false} SerialConcat(c: Register, a: seq<bool>, b: seq<bool>)
    ensures Serial(c, a + b) == Serial(Serial(c, a), b)
    decreases |a|
  {
    if a == [] {
      assert a + b == b;
    } else {
      SerialConcat(Shift(c, a[0]), a[1..], b);
      assert (a + b)[1..] == a[1..] + b;
    }
  }

  // ----- the register as a remainder

  function Zeros(n: nat): (r: seq<bool>)
    ensures |r| == n && forall i :: 0 <= i < n ==> !r[i]
  {
    seq(n, _ => false)
  }

  lemma {:induction false} TimesXLinear(c: Register, d: Register)
    ensures TimesX(Plus(c, d)) == Plus(TimesX(c), TimesX(d))
  {
  }

  lemma {:induction false} ShiftIsTimesX(c: Register, bit: bool)
    ensures Shift(c, bit) == Plus(TimesX(c), Reduced(bit))
  {
  }

  /** `c` times x to the `n`. */
  function TimesXs(c: Register, n: nat): Register
    decreases n
  {
    if n == 0 then c else TimesXs(TimesX(c), n - 1)
  }

  lemma {:induction false} TimesXsLinear(c: Register, d: Register, n: nat)
    ensures TimesXs(Plus(c, d), n) == Plus(TimesXs(c, n), TimesXs(d, n))
    decreases n
  {
    if n > 0 {
      TimesXLinear(c, d);
      hide TimesX, Plus;
      TimesXsLinear(TimesX(c), TimesX(d), n - 1);
    }
  }

  lemma {:induction false} TimesXsCommute(c: Register, n: nat)
    ensures TimesXs(TimesX(c), n) == TimesX(TimesXs(c, n))
    decreases n
  {
    hide TimesX;
    if n > 0 {
      TimesXsCommute(TimesX(c), n - 1);
    }
  }

  lemma {:induction false} TimesXsAdd(c: Register, m: nat, n: nat)
    ensures TimesXs(c, m + n) == TimesXs(TimesXs(c, m), n)
    decreases m
  {
    hide TimesX;
    if m > 0 {
      TimesXsAdd(TimesX(c), m - 1, n);
    }
  }

  /** Up to four steps at once. */
  function Jump(c: Register, k: nat): (r: Register)
    requires k <= 4
    ensures forall i :: 0 <= i < 16 ==>
              r[i] == ((((i >= k && c[i - k]) != (i < k && c[16 - k + i]))
                        != (5 <= i < 5 + k && c[11 - k + i])) != (12 <= i < 12 + k && c[4 - k + i]))
  {
    seq(16, i requires 0 <= i < 16 =>
      ((((i >= k && c[i - k]) != (i < k && c[16 - k + i]))
        != (5 <= i < 5 + k && c[11 - k + i])) != (12 <= i < 12 + k && c[4 - k + i])))
  }

  lemma {:induction false} JumpStep(c: Register, k: nat)
    requires k < 4
    ensures Jump(c, k + 1) == TimesX(Jump(c, k)) && Jump(c, 0) == c
  {
    var a, b := Jump(c, k + 1), TimesX(Jump(c, k));
    assert Jump(c, k)[15] == c[15 - k];
    forall i | 0 <= i < 16
      ensures a[i] == b[i]
    {
    }
  }

  lemma {:induction false} FourSteps(c: Register)
    ensures TimesXs(c, 4) == Jump(c, 4)
  {
    JumpStep(c, 0);
    JumpStep(c, 1);
    JumpStep(c, 2);
    JumpStep(c, 3);
    hide TimesX, Jump;
    var c1 := TimesX(c);
    var c2 := TimesX(c1);
    var c3 := TimesX(c2);
    assert TimesXs(c, 4) == TimesXs(c1, 3);
    assert TimesXs(c1, 3) == TimesXs(c2, 2);
    assert TimesXs(c2, 2) == TimesXs(c3, 1);
    assert TimesXs(c3, 1) == TimesXs(TimesX(c3), 0);
  }

  lemma {:induction false} ZerosTail(n: nat)
    requires n > 0
    ensures |Zeros(n)| > 0 && !Zeros(n)[0] && Zeros(n)[1..] == Zeros(n - 1)
  {
  }

  lemma {:induction false} RemainderStep(c: Register, s: seq<bool>)
    requires s != []
    ensures Remainder(c, s) == Remainder(Plus(TimesX(c), Constant(s[0])), s[1..])
  {
  }

  lemma {:induction false} RemainderOfZeros(c: Register, n: nat)
    ensures Remainder(c, Zeros(n)) == TimesXs(c, n)
    decreases n
  {
    hide TimesX, Plus, Constant, Zeros;
    if n == 0 {
      assert Zeros(0) == [];
    } else {
      ZerosTail(n);
      RemainderStep(c, Zeros(n));
      NoConstant(TimesX(c));
      hide Remainder;
      RemainderOfZeros(TimesX(c), n - 1);
    }
  }

  lemma {:induction false} NoConstant(c: Register)
    ensures Plus(c, Constant(false)) == c
  {
  }

  /** x^16 reduces to the rest of the polynomial. */
  lemma {:induction false} TopTerm(bit: bool)
    ensures TimesXs(Constant(bit), 16) == Reduced(bit)
  {
    FourSteps(Constant(bit));
    FourSteps(Jump(Constant(bit), 4));
    FourSteps(Jump(Jump(Constant(bit), 4), 4));
    FourSteps(Jump(Jump(Jump(Constant(bit), 4), 4), 4));
    FourJumps(bit);
    hide Jump, Reduced, Constant;
    TimesXsAdd(Constant(bit), 4, 12);
    TimesXsAdd(TimesXs(Constant(bit), 4), 4, 8);
    TimesXsAdd(TimesXs(TimesXs(Constant(bit), 4), 4), 4, 4);
  }

  lemma {:induction false} FourJumps(bit: bool)
    ensures Jump(Jump(Jump(Jump(Constant(bit), 4), 4), 4), 4) == Reduced(bit)
  {
    var a := Jump(Constant(bit), 4);
    assert forall i :: 0 <= i < 16 ==> a[i] == (bit && i == 4);
    var b := Jump(a, 4);
    assert forall i :: 0 <= i < 16 ==> b[i] == (bit && i == 8);
    var c := Jump(b, 4);
    assert forall i :: 0 <= i < 16 ==> c[i] == (bit && i == 12);
  }

  /** The register after a message is the remainder of the message times x^16. */
  lemma {:induction false} SerialIsRemainder(c: Register, bits: seq<bool>)
    ensures Serial(TimesXs(c, 16), bits) == Remainder(c, bits + Zeros(16))
    decreases |bits|
  {
    if bits == [] {
      assert bits + Zeros(16) == Zeros(16);
      RemainderOfZeros(c, 16);
    } else {
      hide TimesX, Shift, TimesXs, Plus, Constant, Reduced;
      assert (bits + Zeros(16))[1..] == bits[1..] + Zeros(16);
      SerialIsRemainder(Plus(TimesX(c), Constant(bits[0])), bits[1..]);
      ShiftIsTimesX(TimesXs(c, 16), bits[0]);
      TimesXsLinear(TimesX(c), Constant(bits[0]), 16);
      TimesXsCommute(c, 16);
      TopTerm(bits[0]);
    }
  }

  // ----- the division itself

  /** A coefficient, none outside the list. */
  function At(s: seq<bool>, j: int): bool {
    0 <= j < |s| && s[j]
  }

  /** A coefficient of `q` times x^16 + x^12 + x^5 + 1. */
  function Product(q: seq<bool>, j: int): bool {
    ((At(q, j) != At(q, j - 4)) != At(q, j - 11)) != At(q, j - 16)
  }

  /** The coefficients of the product, the highest degree first. */
  function ByGenerator(q: seq<bool>): (r: seq<bool>)
    ensures |r| == |q| + 16 && forall j :: 0 <= j < |r| ==> r[j] == Product(q, j)
  {
    seq(|q| + 16, j => Product(q, j))
  }

  /** A polynomial below degree 16 as the last of `n + 16` coefficients. */
  function Placed(c: Register, n: nat): (r: seq<bool>)
    ensures |r| == n + 16 && forall j :: 0 <= j < |r| ==> r[j] == (n <= j && c[15 + n - j])
  {
    seq(n + 16, j requires 0 <= j < n + 16 => n <= j && c[15 + n - j])
  }

  /** The message times x^16 is `q` times the generator, plus `r` of degree below 16. */
  ghost predicate Divides(bits: seq<bool>, q: seq<bool>, r: Register) {
    |q| == |bits| && bits + Zeros(16) == Plus(ByGenerator(q), Placed(r, |bits|))
  }

  /** One more bit of the message gives one more bit of the quotient. */
  lemma {:induction false} DividesNext(bits: seq<bool>, q: seq<bool>, r: Register, bit: bool)
    requires Divides(bits, q, r)
    ensures Divides(bits + [bit], q + [r[15] != bit], Shift(r, bit))
  {
    hide Product;
    var n, o, r' := |bits|, r[15] != bit, Shift(r, bit);
    var before, after := Plus(ByGenerator(q), Placed(r, n)), Plus(ByGenerator(q + [o]), Placed(r', n + 1));
    forall j | 0 <= j < n + 17
      ensures (bits + [bit] + Zeros(16))[j] == after[j]
    {
      ProductSnoc(q, o, j);
      if j < n + 16 {
        assert before[j] == (bits + Zeros(16))[j];
      } else {
        PastTheEnd(q, j);
      }
    }
  }

  lemma {:induction false} ProductSnoc(q: seq<bool>, o: bool, j: nat)
    ensures Product(q + [o], j)
          == (Product(q, j) != (o && (j == |q| || j == |q| + 4 || j == |q| + 11 || j == |q| + 16)))
  {
    AtSnoc(q, o, j);
    AtSnoc(q, o, j - 4);
    AtSnoc(q, o, j - 11);
    AtSnoc(q, o, j - 16);
    hide At;
  }

  lemma {:induction false} AtSnoc(q: seq<bool>, o: bool, j: int)
    ensures At(q + [o], j) == if j == |q| then o else At(q, j)
    ensures j == |q| ==> !At(q, j)
  {
  }

  lemma {:induction false} PastTheEnd(q: seq<bool>, j: nat)
    requires j >= |q| + 16
    ensures !Product(q, j)
  {
  }

  /** The product decides the next coefficient of the quotient. */
  lemma {:induction false} ProductNext(q: seq<bool>, q': seq<bool>, j: nat)
    requires |q| == |q'| && j < |q| && q[..j] == q'[..j] && Product(q, j) == Product(q', j)
    ensures q[j] == q'[j]
  {
    SameBefore(q, q', j, j - 4);
    SameBefore(q, q', j, j - 11);
    SameBefore(q, q', j, j - 16);
    assert At(q, j) == q[j] && At(q', j) == q'[j];
    hide At;
  }

  lemma {:induction false} SameBefore(q: seq<bool>, q': seq<bool>, j: nat, i: int)
    requires |q| == |q'| && j <= |q| && q[..j] == q'[..j] && i < j
    ensures At(q, i) == At(q', i)
  {
    if 0 <= i {
      assert q[i] == q[..j][i] && q'[i] == q'[..j][i];
    }
  }

  lemma {:induction false} SerialQuotient(bits: seq<bool>) returns (q: seq<bool>)
    ensures Divides(bits, q, Serial(Zero(), bits))
    decreases |bits|
  {
    if bits == [] {
      q := [];
    } else {
      var n := |bits| - 1;
      var rest := SerialQuotient(bits[..n]);
      var r := Serial(Zero(), bits[..n]);
      DividesNext(bits[..n], rest, r, bits[n]);
      q := rest + [r[15] != bits[n]];
      assert bits[..n] + [bits[n]] == bits;
      SerialConcat(Zero(), bits[..n], [bits[n]]);
      OneShift(r, bits[n]);
    }
  }

  lemma {:induction false} OneShift(c: Register, bit: bool)
    ensures Serial(c, [bit]) == Shift(c, bit)
  {
    assert [bit][1..] == [];
  }

  /** Quotients that agree so far agree at the next place. */
  lemma {:induction false} SameQuotient(bits: seq<bool>, q: seq<bool>, r: Register, q': seq<bool>, r': Register, k: nat)
    requires Divides(bits, q, r) && Divides(bits, q', r') && k <= |q|
    ensures q[..k] == q'[..k]
  {
    hide Product;
    if k > 0 {
      SameQuotient(bits, q, r, q', r', k - 1);
      var j := k - 1;
      assert (bits + Zeros(16))[j] == Plus(ByGenerator(q), Placed(r, |bits|))[j];
      assert (bits + Zeros(16))[j] == Plus(ByGenerator(q'), Placed(r', |bits|))[j];
      ProductNext(q, q', j);
      assert q[..k] == q[..j] + [q[j]] && q'[..k] == q'[..j] + [q'[j]];
    }
  }

  /** Quotient and remainder are determined. */
  lemma {:induction false} DivisionIsUnique(bits: seq<bool>, q: seq<bool>, r: Register, q': seq<bool>, r': Register)
    requires Divides(bits, q, r) && Divides(bits, q', r')
    ensures q == q' && r == r'
  {
    hide Product;
    SameQuotient(bits, q, r, q', r', |q|);
    assert q[..|q|] == q && q'[..|q|] == q';
    forall i | 0 <= i < 16
      ensures r[i] == r'[i]
    {
      var j := |bits| + 15 - i;
      assert Plus(ByGenerator(q), Placed(r, |bits|))[j] == Plus(ByGenerator(q'), Placed(r', |bits|))[j];
    }
  }

  /** The register after a message is the remainder of the division, and nothing else is. */
  lemma {:induction false} SerialDivides(bits: seq<bool>, r: Register)
    ensures r == Serial(Zero(), bits) <==> exists q :: Divides(bits, q, r)
  {
    var q := SerialQuotient(bits);
    if other :| Divides(bits, other, r) {
      DivisionIsUnique(bits, q, Serial(Zero(), bits), other, r);
    }
  }

  // ----- the byte step

  /** The bits of a byte as they are sent, the most significant first. */
  function Sent(d: Byte): (r: seq<bool>)
    ensures |r| == 8
  {
    [d[7], d[6], d[5], d[4], d[3], d[2], d[1], d[0]]
  }

  function AllSent(buf: seq<Byte>): seq<bool> {
    if buf == [] then [] else Sent(buf[0]) + AllSent(buf[1..])
  }

  function Extended(d: Byte): (r: Register) {
    d + seq(8, _ => false)
  }

  function Right(c: Register, n: nat): (r: Register)
    ensures forall i :: 0 <= i < 16 ==> r[i] == (i + n < 16 && c[i + n])
  {
    ShiftRight(c, n)
  }

  function Left(c: Register, n: nat): (r: Register)
    ensures forall i :: 0 <= i < 16 ==> r[i] == (i >= n && c[i - n])
  {
    ShiftLeft(c, n)
  }

  function LowByte(c: Register): (r: Register)
    ensures forall i :: 0 <= i < 16 ==> r[i] == (i < 8 && c[i])
  {
    And(c, seq(16, i => i < 8))
  }

  function Swapped(c: Register): (r: Register)
    ensures forall i :: 0 <= i < 16 ==> r[i] == c[if i < 8 then i + 8 else i - 8]
  {
    Or(Right(c, 8), Left(c, 8))
  }

  /** The five assignments of `step`. */
  function StepValue(crc: Register, d: Byte): Register {
    var c1 := Swapped(crc);
    var c2 := Plus(c1, Extended(d));
    var c3 := Plus(c2, Right(LowByte(c2), 4));
    var c4 := Plus(c3, Left(c3, 12));
    Plus(c4, Left(LowByte(c4), 5))
  }

  /** The next bits of the message can be added to the top of the register beforehand. */
  function Above(d: seq<bool>): (r: Register)
    requires |d| <= 8
    ensures forall i :: 0 <= i < 16 ==> r[i] == (15 - i < |d| && d[15 - i])
  {
    seq(16, i requires 0 <= i < 16 => 15 - i < |d| && d[15 - i])
  }

  lemma {:induction false} Preload(c: Register, d: seq<bool>)
    requires |d| <= 8
    ensures Serial(c, d) == TimesXs(Plus(c, Above(d)), |d|)
    decreases |d|
  {
    if d == [] {
      assert Plus(c, Above(d)) == c;
    } else {
      PreloadStep(c, d);
      hide Plus, Above, Shift, TimesX;
      Preload(Shift(c, d[0]), d[1..]);
    }
  }

  lemma {:induction false} PreloadStep(c: Register, d: seq<bool>)
    requires 0 < |d| <= 8
    ensures TimesX(Plus(c, Above(d))) == Plus(Shift(c, d[0]), Above(d[1..]))
  {
  }

  /** A byte step is eight bit steps. */
  lemma {:induction false} StepIsEightShifts(c: Register, d: Byte)
    ensures StepValue(c, d) == Serial(c, Sent(d))
  {
    var y := Plus(c, Above(Sent(d)));
    Preload(c, Sent(d));
    TimesXsAdd(y, 4, 4);
    FourSteps(y);
    FourSteps(Jump(y, 4));
    StepIsTwoJumps(c, d);
  }

  /** The bits that leave at the top, folded once. */
  function Folded(y: Register, i: nat): bool
    requires i < 8
  {
    y[8 + i] != (i < 4 && y[12 + i])
  }

  /** Bit `i` after eight steps. */
  function AfterEight(y: Register, i: nat): bool
    requires i < 16
  {
    if i < 5 then Folded(y, i)
    else if i < 8 then Folded(y, i) != Folded(y, i - 5)
    else if i < 12 then y[i - 8] != Folded(y, i - 5)
    else if i == 12 then (y[4] != Folded(y, 0)) != Folded(y, 7)
    else y[i - 8] != Folded(y, i - 12)
  }

  lemma {:induction false} TwoJumpsAt(y: Register, i: nat)
    requires i < 16
    ensures Jump(Jump(y, 4), 4)[i] == AfterEight(y, i)
  {
    var z := Jump(y, 4);
    assert Jump(z, 4)[i] == ((((i >= 4 && z[i - 4]) != (i < 4 && z[12 + i]))
                              != (5 <= i < 9 && z[7 + i])) != (12 <= i < 16 && z[i]));
    hide AfterEight;
    match i {
      case 0 => case 1 => case 2 => case 3 => case 4 => case 5 => case 6 => case 7 =>
      case 8 => case 9 => case 10 => case 11 => case 12 => case 13 => case 14 => case _ =>
    }
  }

  /** After the third assignment the low byte is folded and the high byte is the old
      low one. */
  lemma {:induction false} AfterThree(c: Register, d: Byte, k: nat)
    requires k < 16
    ensures var c2 := Plus(Swapped(c), Extended(d));
            var y := Plus(c, Above(Sent(d)));
            Plus(c2, Right(LowByte(c2), 4))[k] == if k < 8 then Folded(y, k) else y[k - 8]
  {
    var y := Plus(c, Above(Sent(d)));
    assert forall j :: 0 <= j < 8 ==> y[j] == c[j] && y[j + 8] == (c[j + 8] != d[j]);
    var c2 := Plus(Swapped(c), Extended(d));
    assert forall j :: 0 <= j < 8 ==> c2[j] == y[j + 8] && c2[j + 8] == y[j];
  }

  lemma {:induction false} StepAt(c: Register, d: Byte, i: nat)
    requires i < 16
    ensures StepValue(c, d)[i] == AfterEight(Plus(c, Above(Sent(d))), i)
  {
    var c2 := Plus(Swapped(c), Extended(d));
    var c3 := Plus(c2, Right(LowByte(c2), 4));
    var c4 := Plus(c3, Left(c3, 12));
    var c5 := Plus(c4, Left(LowByte(c4), 5));
    assert c5[i] == (c4[i] != (5 <= i < 13 && c4[i - 5]));
    assert c4[i] == (c3[i] != (i >= 12 && c3[i - 12]));
    assert i >= 5 ==> c4[i - 5] == c3[i - 5];
    AfterThree(c, d, i);
    if i >= 5 {
      AfterThree(c, d, i - 5);
    }
    if i >= 12 {
      AfterThree(c, d, i - 12);
    }
    hide Plus, Swapped, Extended, Right, Left, LowByte, Folded, Above, Sent;
  }

  lemma {:induction false} StepIsTwoJumps(c: Register, d: Byte)
    ensures StepValue(c, d) == Jump(Jump(Plus(c, Above(Sent(d))), 4), 4)
  {
    hide *;
    forall i | 0 <= i < 16
      ensures StepValue(c, d)[i] == Jump(Jump(Plus(c, Above(Sent(d))), 4), 4)[i]
    {
      TwoJumpsAt(Plus(c, Above(Sent(d))), i);
      StepAt(c, d, i);
    }
  }

  class CRC16 {
    var crc: Register

    constructor ()
      ensures crc == Zero()
    {
      crc := Zero();
    }

    method Step(data: Byte)
      modifies this
      ensures crc == Serial(old(crc), Sent(data))
    {
      hide Swapped, LowByte, Left, Right, Plus, Serial, Sent, Extended;
      StepIsEightShifts(crc, data);
      crc := Swapped(crc);
      crc := Plus(crc, Extended(data));
      crc := Plus(crc, Right(LowByte(crc), 4));
      crc := Plus(crc, Left(crc, 12));
      crc := Plus(crc, Left(LowByte(crc), 5));
    }
  }

  /** `compute`: the remainder of the buffer times x^16. */
  method Compute(buf: seq<Byte>) returns (c: CRC16)
    ensures fresh(c) && c.crc == Serial(Zero(), AllSent(buf)) == Remainder(Zero(), AllSent(buf) + Zeros(16))
    ensures exists q :: Divides(AllSent(buf), q, c.crc)
  {
    hide Sent, TimesX, Divides;
    c := new CRC16();
    for i := 0 to |buf|
      invariant fresh(c) && c.crc == Serial(Zero(), AllSent(buf[..i]))
    {
      c.Step(buf[i]);
      SentSnoc(buf[..i], buf[i]);
      assert buf[..i] + [buf[i]] == buf[..i + 1];
      SerialConcat(Zero(), AllSent(buf[..i]), Sent(buf[i]));
    }
    assert buf[..|buf|] == buf;
    SerialIsRemainder(Zero(), AllSent(buf));
    ZeroTimes(16);
    SerialDivides(AllSent(buf), c.crc);
  }

  lemma {:induction false} ZeroTimes(n: nat)
    ensures TimesXs(Zero(), n) == Zero()
    decreases n
  {
    if n > 0 {
      assert TimesX(Zero()) == Zero();
      ZeroTimes(n - 1);
    }
  }

  lemma {:induction false} SentSnoc(a: seq<Byte>, d: Byte)
    ensures AllSent(a + [d]) == AllSent(a) + Sent(d)
  {
    hide Sent;
    if a == [] {
      assert a + [d] == [d];
      assert [d][1..] == [];
      assert AllSent([d]) == Sent(d) + AllSent([]);
    } else {
      SentSnoc(a[1..], d);
      assert (a + [d])[1..] == a[1..] + [d];
      assert AllSent(a + [d]) == Sent(a[0]) + (AllSent(a[1..]) + Sent(d));
    }
  }

  // ----- error detection

  lemma {:induction false} ShiftLinear(c: Register, d: Register, x: bool, y: bool)
    ensures Plus(Shift(c, x), Shift(d, y)) == Shift(Plus(c, d), x != y)
  {
  }

  /** The register is linear in what it starts from and in the message. */
  lemma {:induction false} SerialLinear(c: Register, d: Register, a: seq<bool>, b: seq<bool>)
    requires |a| == |b|
    ensures Plus(Serial(c, a), Serial(d, b)) == Serial(Plus(c, d), Plus(a, b))
    decreases |a|
  {
    if a != [] {
      ShiftLinear(c, d, a[0], b[0]);
      assert Plus(a, b)[1..] == Plus(a[1..], b[1..]);
      hide Shift;
      SerialLinear(Shift(c, a[0]), Shift(d, b[0]), a[1..], b[1..]);
    }
  }

  lemma {:induction false} ShiftZero(c: Register)
    ensures Shift(c, false) == Zero() <==> c == Zero()
  {
    var s := Shift(c, false);
    if s == Zero() {
      assert !s[0];
      forall i | 0 <= i < 16
        ensures !c[i]
      {
        assert i < 15 ==> !s[i + 1];
      }
      assert c == Zero();
    }
  }

  lemma {:induction false} ZerosKeep(c: Register, n: nat)
    ensures c == Zero() <==> Serial(c, Zeros(n)) == Zero()
    decreases n
  {
    if n > 0 {
      assert Zeros(n)[1..] == Zeros(n - 1);
      ShiftZero(c);
      hide Shift;
      ZerosKeep(Shift(c, false), n - 1);
    }
  }

  /** A register that some `m` bits bring to zero has nothing below its top `m` bits. */
  lemma {:induction false} ReachesZero(c: Register, bits: seq<bool>)
    requires |bits| <= 16 && Serial(c, bits) == Zero()
    ensures forall i :: 0 <= i < 16 - |bits| ==> !c[i]
    decreases |bits|
  {
    if bits != [] {
      var s := Shift(c, bits[0]);
      ReachesZero(s, bits[1..]);
      assert !s[0];
      forall i | 0 <= i < 16 - |bits|
        ensures !c[i]
      {
        assert !s[i + 1];
      }
    }
  }

  /** Up to sixteen bits, not all clear, leave something in an empty register. */
  lemma {:induction false} ShortIsNotZero(bits: seq<bool>, k: nat)
    requires k < |bits| <= 16 && bits[k]
    ensures Serial(Zero(), bits) != Zero()
    decreases |bits|
  {
    var s := Shift(Zero(), bits[0]);
    if bits[0] {
      assert s[0];
      if Serial(s, bits[1..]) == Zero() {
        ReachesZero(s, bits[1..]);
      }
    } else {
      assert s == Zero();
      ShortIsNotZero(bits[1..], k - 1);
    }
  }

  /** Messages of the same length that differ only within sixteen consecutive bits never
      have the same CRC. */
  lemma {:induction false} BurstsAreDetected(a: seq<bool>, b: seq<bool>, from: nat)
    requires |a| == |b| && a != b
    requires forall i :: 0 <= i < |a| && a[i] != b[i] ==> from <= i < from + 16
    ensures Serial(Zero(), a) != Serial(Zero(), b)
  {
    var e := Plus(a, b);
    var k :| 0 <= k < |a| && a[k] != b[k];
    assert e[k];
    hide Plus, Serial, Shift, Zero;
    ShortWindow(e, from, k);
    SameSum(Serial(Zero(), a), Serial(Zero(), b));
    SameSum(Zero(), Zero());
    SerialLinear(Zero(), Zero(), a, b);
  }

  /** Only sixteen consecutive bits may be set, and one is. */
  lemma {:induction false} ShortWindow(e: seq<bool>, from: nat, k: nat)
    requires k < |e| && e[k] && forall i :: 0 <= i < |e| && e[i] ==> from <= i < from + 16
    ensures Serial(Zero(), e) != Zero()
  {
    var to := if from + 16 <= |e| then from + 16 else |e|;
    var burst := e[from..to];
    assert e[..from] == Zeros(from) && e[to..] == Zeros(|e| - to);
    assert e == Zeros(from) + burst + Zeros(|e| - to);
    assert burst[k - from];
    hide Serial, Zero, Zeros;
    BurstIsNotZero(from, burst, k - from, |e| - to);
  }

  lemma {:induction false} SameSum(c: Register, d: Register)
    ensures Plus(c, d) == Zero() <==> c == d
  {
    if Plus(c, d) == Zero() {
      forall i | 0 <= i < 16
        ensures c[i] == d[i]
      {
        assert !Plus(c, d)[i];
      }
    }
    if c == d {
      assert forall i :: 0 <= i < 16 ==> !Plus(c, d)[i];
    }
  }

  lemma {:induction false} BurstIsNotZero(lead: nat, burst: seq<bool>, k: nat, tail: nat)
    requires k < |burst| <= 16 && burst[k]
    ensures Serial(Zero(), Zeros(lead) + burst + Zeros(tail)) != Zero()
  {
    hide Serial, Shift, Zero;
    SerialConcat(Zero(), Zeros(lead) + burst, Zeros(tail));
    SerialConcat(Zero(), Zeros(lead), burst);
    ZerosKeep(Zero(), lead);
    ShortIsNotZero(burst, k);
    ZerosKeep(Serial(Zero(), burst), tail);
  }

  /** Buffers of the same length that differ only in two neighbouring bytes never have
      the same CRC. */
  lemma {:induction false} NeighbouringBytes(a: seq<Byte>, b: seq<Byte>, k: nat)
    requires |a| == |b| && a != b && forall i :: 0 <= i < |a| && i != k && i != k + 1 ==> a[i] == b[i]
    ensures Serial(Zero(), AllSent(a)) != Serial(Zero(), AllSent(b))
  {
    hide Serial;
    AllSentAt(a);
    AllSentAt(b);
    var j :| 0 <= j < |a| && a[j] != b[j];
    var i :| 0 <= i < 8 && a[j][i] != b[j][i];
    assert AllSent(a)[8 * j + (7 - i)] != AllSent(b)[8 * j + (7 - i)];
    forall n | 0 <= n < 8 * |a| && AllSent(a)[n] != AllSent(b)[n]
      ensures 8 * k <= n < 8 * k + 16
    {
      assert n == 8 * (n / 8) + n % 8;
    }
    BurstsAreDetected(AllSent(a), AllSent(b), 8 * k);
  }

  lemma {:induction false} AllSentAt(a: seq<Byte>)
    ensures |AllSent(a)| == 8 * |a|
    ensures forall n :: 0 <= n < 8 * |a| ==> AllSent(a)[n] == a[n / 8][7 - n % 8]
  {
    if a != [] {
      AllSentAt(a[1..]);
      forall n | 0 <= n < 8 * |a|
        ensures AllSent(a)[n] == a[n / 8][7 - n % 8]
      {
        if n >= 8 {
          assert AllSent(a)[n] == AllSent(a[1..])[n - 8];
          assert (n - 8) / 8 == n / 8 - 1 && (n - 8) % 8 == n % 8;
        }
      }
    }
  }
}
