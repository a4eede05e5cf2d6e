/** src/MulDiv.bsv: the bit-serial divider and the multiplier that takes four bits a
    step, against the quotients, remainders and products of sections 7.1 and 7.2 of the
    RISC-V Unprivileged ISA 20191213. */
module MulDiv {
  const W32 := 0x1_0000_0000
  const W34 := 0x4_0000_0000
  const W64 := 0x1_0000_0000_0000_0000

  /** A 32-bit pattern. */
  type Bits32 = x: nat | x < W32

  function Pow2(n: nat): (r: nat)
    ensures r > 0
  {
    if n == 0 then 1 else 2 * Pow2(n - 1)
  }

  predicate BitSet(x: nat, k: nat) {
    x / Pow2(k) % 2 == 1
  }

  // ----- division

  datatype Divide = Divide(index: nat, rem: nat, div: nat, num: nat, den: nat)

  /** The highest bit of `num` below bit `n`, as a power of two, or 0. */
  function TopBit(num: nat, n: nat): nat {
    if n == 0 then 0 else if BitSet(num, n - 1) then Pow2(n - 1) else TopBit(num, n - 1)
  }

  function DivideInit(n: nat, num: nat, den: nat): Divide {
    Divide(TopBit(num, n), 0, 0, num, den)
  }

  /** One step on registers of `n` bits. `index` is a power of two, so `num & index` and
      `div | index` touch that one bit. */
  function DivideStep(n: nat, s: Divide): Divide
    requires s.index > 0
  {
    var bit := s.num / s.index % 2;
    var rem := (2 * s.rem + bit) % Pow2(n);
    if rem >= s.den then
      Divide(s.index / 2, rem - s.den, if s.div / s.index % 2 == 1 then s.div else s.div + s.index, s.num, s.den)
    else
      Divide(s.index / 2, rem, s.div, s.num, s.den)
  }

  /** The step repeated until the index is 0. */
  function DivideRun(n: nat, s: Divide): Divide
    decreases s.index
  {
    if s.index == 0 then s else DivideRun(n, DivideStep(n, s))
  }

  predicate IsPow2(x: nat) {
    x == 1 || (x > 1 && x % 2 == 0 && IsPow2(x / 2))
  }

  /** The weight of the lowest bit already processed. */
  function Done(index: nat): nat {
    if index == 0 then 1 else 2 * index
  }

  /** What is processed so far of `num` has been divided by `den`. */
  ghost predicate Divided(s: Divide, n: nat) {
    var q := Done(s.index);
    && 0 < s.den < Pow2(n) && s.num < Pow2(n)
    && (s.index == 0 || IsPow2(s.index))
    && s.rem < s.den && s.div % q == 0
    && s.num / q == s.div / q * s.den + s.rem
  }

  lemma {:induction false} Halves(x: nat, p: nat)
    requires p > 0
    ensures x / p == 2 * (x / (2 * p)) + x / p % 2
    ensures x / p / 2 == x / (2 * p)
  {
    var a := x / p;
    var r := x % p;
    assert x == p * a + r;
    var h := a / 2;
    assert a == 2 * h + a % 2;
    var r2 := p * (a % 2) + r;
    assert x == 2 * p * h + r2;
    assert 0 <= r2 < 2 * p by {
      if a % 2 == 1 {
        assert p * (a % 2) == p;
      } else {
        assert p * (a % 2) == 0;
      }
    }
    QuotientIs(x, 2 * p, h, r2);
  }

  lemma {:induction false} QuotientIs(x: nat, m: nat, q: nat, r: nat)
    requires r < m && x == m * q + r
    ensures x / m == q && x % m == r
  {
    var a := x / m;
    assert x == m * a + x % m;
    if a < q {
      Scale(m, a, q);
    } else if q < a {
      Scale(m, q, a);
    }
  }

  lemma {:induction false} Scale(m: nat, a: nat, b: nat)
    requires a < b
    ensures m * a + m <= m * b
  {
    if a + 1 < b {
      Scale(m, a, b - 1);
      assert m * b == m * (b - 1) + m;
    } else {
      assert m * b == m * a + m;
    }
  }

  /** The quotient register before and after bit `p` is set. */
  lemma {:induction false} QuotientBit(div: nat, p: nat, d: nat)
    requires p > 0 && div == 2 * p * d
    ensures div / p == 2 * d && div % p == 0 && div / p % 2 == 0
    ensures (div + p) / p == 2 * d + 1 && (div + p) % p == 0
  {
    assert div == p * (2 * d);
    QuotientIs(div, p, 2 * d, 0);
    assert div + p == p * (2 * d + 1);
    QuotientIs(div + p, p, 2 * d + 1, 0);
  }

  lemma {:induction false} Products(d: nat, den: nat)
    ensures 2 * d * den == 2 * (d * den) && (2 * d + 1) * den == 2 * (d * den) + den && d * den >= 0
  {
  }

  lemma {:induction false} HalfPower(p: nat)
    requires IsPow2(p)
    ensures p > 0 && Done(p / 2) == p && (p / 2 == 0 || IsPow2(p / 2))
  {
  }

  lemma {:induction false} DivideLess(x: nat, p: nat)
    requires p > 0
    ensures x / p <= x
  {
    assert x == p * (x / p) + x % p;
    AtLeast(p, x / p);
  }

  lemma {:induction false} AtLeast(p: nat, q: nat)
    requires p > 0
    ensures p * q >= q
  {
    if p > 1 {
      AtLeast(p - 1, q);
      assert p * q == (p - 1) * q + q;
    }
  }

  /** A step keeps the relation: neither the remainder register nor the quotient
      register overflows. */
  lemma {:induction false} StepDivides(s: Divide, n: nat)
    requires Divided(s, n) && s.index > 0
    ensures Divided(DivideStep(n, s), n)
  {
    var p, q := s.index, 2 * s.index;
    var d, bit := s.div / q, s.num / p % 2;
    assert s.div == q * d;
    Halves(s.num, p);
    QuotientBit(s.div, p, d);
    Products(d, s.den);
    HalfPower(p);
    DivideLess(s.num, p);
    var r := 2 * s.rem + bit;
    hide IsPow2, Pow2;
    assert s.num / p == 2 * (d * s.den) + r;
    QuotientIs(r, Pow2(n), 0, r);
  }

  lemma {:induction false} RunDivides(s: Divide, n: nat)
    requires Divided(s, n)
    ensures var r := DivideRun(n, s);
          r.num == s.num && r.den == s.den && s.num == r.div * s.den + r.rem && r.rem < s.den
    decreases s.index
  {
    if s.index == 0 {
      assert s.num / 1 == s.num && s.div / 1 == s.div;
    } else {
      StepDivides(s, n);
      RunDivides(DivideStep(n, s), n);
    }
  }

  lemma {:induction false} PowersArePowers(k: nat)
    ensures IsPow2(Pow2(k))
  {
    if k > 0 {
      PowersArePowers(k - 1);
    }
  }

  lemma {:induction false} TopBitIsTop(num: nat, n: nat)
    requires num < Pow2(n)
    ensures var p := TopBit(num, n); if num == 0 then p == 0 else IsPow2(p) && p <= num < 2 * p
  {
    if n > 0 {
      var p := Pow2(n - 1);
      if num >= p {
        QuotientIs(num, p, 1, num - p);
        PowersArePowers(n - 1);
      } else {
        QuotientIs(num, p, 0, num);
        TopBitIsTop(num, n - 1);
      }
    }
  }

  lemma {:induction false} InitDivides(n: nat, num: nat, den: nat)
    requires num < Pow2(n) && 0 < den < Pow2(n)
    ensures Divided(DivideInit(n, num, den), n)
  {
    TopBitIsTop(num, n);
    var q := Done(TopBit(num, n));
    QuotientIs(num, q, 0, num);
    QuotientIs(0, q, 0, 0);
  }

  /** For every width, the iteration ends with the quotient and the remainder. */
  lemma {:induction false} DivisionIsCorrect(n: nat, num: nat, den: nat)
    requires num < Pow2(n) && 0 < den < Pow2(n)
    ensures var r := DivideRun(n, DivideInit(n, num, den));
          num == r.div * den + r.rem && r.rem < den && r.div == num / den && r.rem == num % den
  {
    InitDivides(n, num, den);
    RunDivides(DivideInit(n, num, den), n);
    var r := DivideRun(n, DivideInit(n, num, den));
    assert r.div * den == den * r.div;
    QuotientIs(num, den, r.div, r.rem);
  }

  // ----- the divider

  datatype DivRequest = DivRequest(x1: Bits32, x2: Bits32, isSigned: bool, rem: bool)

  datatype DivideState = Overflow | Zero | Idle | Busy(s: Divide)

  /** The number a pattern stands for. */
  function Value(x: Bits32, isSigned: bool): int {
    if isSigned && x >= 0x8000_0000 then x - W32 else x
  }

  function AbsInt(x: int): nat {
    if x < 0 then -x else x
  }

  /** The two's complement pattern of a number. */
  function Pattern(x: int): Bits32 {
    x % W32
  }

  function Over(a: nat, b: nat): nat
    requires b > 0
  {
    a / b
  }

  function Rest(a: nat, b: nat): (r: nat)
    requires b > 0
    ensures r < b
  {
    a % b
  }

  /** Quotient rounded towards zero. */
  function Quotient(n: int, d: int): int
    requires d != 0
  {
    var q := Over(AbsInt(n), AbsInt(d));
    if (n < 0) == (d < 0) then q else 0 - q
  }

  /** What is left of `n`. */
  function Remaining(n: int, d: int): int
    requires d != 0
  {
    n - d * Quotient(n, d)
  }

  /** What DIV, DIVU, REM and REMU return; for a zero divisor the remainder is 0. */
  function DivResult(r: DivRequest): Bits32 {
    var n, d := Value(r.x1, r.isSigned), Value(r.x2, r.isSigned);
    if d == 0 then (if r.rem then 0 else Pattern(-1))
    else if r.rem then Pattern(Remaining(n, d))
    else Pattern(Quotient(n, d))
  }

  /** The truncated quotient and its remainder are the usual ones. */
  lemma {:induction false} TruncatingDivision(n: int, d: int)
    requires d != 0
    ensures n == d * Quotient(n, d) + Remaining(n, d) && AbsInt(Remaining(n, d)) < AbsInt(d)
    ensures (Remaining(n, d) != 0 ==> (Remaining(n, d) < 0 <==> n < 0))
    ensures Remaining(n, d) == if n < 0 then 0 - Rest(AbsInt(n), AbsInt(d)) else Rest(AbsInt(n), AbsInt(d))
  {
    hide Over, Rest;
    var a, b := AbsInt(n), AbsInt(d);
    var q: int := Over(a, b);
    Magnitudes(a, b);
    NegatedProducts(b, q);
    assert d * Quotient(n, d) == if n < 0 then 0 - b * q else b * q;
  }

  lemma {:induction false} Magnitudes(a: nat, b: nat)
    requires b > 0
    ensures a == b * Over(a, b) + Rest(a, b)
  {
  }

  lemma {:induction false} NegatedProducts(b: int, q: int)
    ensures (0 - b) * q == 0 - b * q && b * (0 - q) == 0 - b * q && (0 - b) * (0 - q) == b * q
  {
  }

  class DivServer {
    var state: DivideState
    var requests: seq<DivRequest>

    ghost predicate Valid()
      reads this
    {
      match state
      case Idle => requests == []
      case Zero => |requests| == 1 && requests[0].x2 == 0
      case Overflow => |requests| == 1 && requests[0].isSigned && requests[0].x1 == 0x8000_0000
            && requests[0].x2 == W32 - 1
      case Busy(s) =>
        && |requests| == 1 && requests[0].x2 != 0 && Divided(s, 34)
        && s.num == AbsInt(Value(requests[0].x1, requests[0].isSigned))
              && s.den == AbsInt(Value(requests[0].x2, requests[0].isSigned))
    }

    constructor ()
      ensures Valid() && state == Idle
    {
      state, requests := Idle, [];
    }

    method Put(req: DivRequest)
      requires Valid() && state == Idle
      modifies this
      ensures Valid() && state != Idle && requests == [req]
    {
      var n, d := AbsInt(Value(req.x1, req.isSigned)), AbsInt(Value(req.x2, req.isSigned));
      requests := requests + [req];
      if req.x2 == 0 {
        state := Zero;
      } else if req.x1 == 0x8000_0000 && req.x2 == W32 - 1 && req.isSigned {
        state := Overflow;
      } else {
        Width34();
        InitDivides(34, n, d);
        state := Busy(DivideInit(34, n, d));
      }
    }

    predicate Ready()
      reads this
    {
      state.Zero? || state.Overflow? || (state.Busy? && state.s.index == 0)
    }

    method Step()
      requires Valid() && state.Busy? && state.s.index != 0
      modifies this`state
      ensures Valid() && state.Busy? && state.s.index < old(state.s.index) && requests == old(requests)
    {
      StepDivides(state.s, 34);
      state := Busy(DivideStep(34, state.s));
    }

    /** The response is the one the instruction set asks for. */
    method Get() returns (r: Bits32)
      requires Valid() && Ready()
      modifies this
      ensures Valid() && state == Idle && r == DivResult(old(requests[0]))
    {
      var req := requests[0];
      hide Divided, Pow2, DivResult, Value, Pattern;
      var n, d := Value(req.x1, req.isSigned), Value(req.x2, req.isSigned);
      SpecialResults(req);
      requests := requests[1..];
      match state {
        case Busy(s) =>
          BusyResult(s, req);
          if req.rem {
            r := if req.isSigned && n < 0 then Pattern(-(s.rem % W32)) else s.rem % W32;
          } else {
            r := if req.isSigned && ((n < 0) != (d < 0)) then Pattern(-(s.div % W32)) else s.div % W32;
          }
        case Overflow =>
          r := if req.rem then 0 else req.x1;
        case Zero =>
          r := if req.rem then 0 else Pattern(-1);
      }
      state := Idle;
    }

    /** A request is served in finitely many steps. */
    method Serve(req: DivRequest) returns (r: Bits32)
      requires Valid() && state == Idle
      modifies this
      ensures Valid() && state == Idle && r == DivResult(req)
    {
      Put(req);
      while !Ready()
        invariant Valid() && state != Idle && requests == [req]
        decreases if state.Busy? then state.s.index else 0
      {
        Step();
      }
      r := Get();
    }
  }

  /** A zero divisor, and the quotient that does not fit. */
  lemma {:induction false} SpecialResults(req: DivRequest)
    ensures req.x2 == 0 ==> DivResult(req) == if req.rem then 0 else Pattern(-1)
    ensures req.isSigned && req.x1 == 0x8000_0000 && req.x2 == W32 - 1 ==>
          DivResult(req) == if req.rem then 0 else req.x1
  {
    if req.isSigned && req.x1 == 0x8000_0000 && req.x2 == W32 - 1 {
      var n, d := Value(req.x1, true), Value(req.x2, true);
      assert n == -0x8000_0000 && d == -1;
      assert Quotient(n, d) == 0x8000_0000 && Remaining(n, d) == 0;
    }
  }

  /** The magnitudes with their signs put back. */
  lemma {:induction false} BusyResult(s: Divide, req: DivRequest)
    requires Divided(s, 34) && s.index == 0 && req.x2 != 0
    requires s.num == AbsInt(Value(req.x1, req.isSigned)) && s.den == AbsInt(Value(req.x2, req.isSigned))
    ensures var n, d := Value(req.x1, req.isSigned), Value(req.x2, req.isSigned);
            DivResult(req) ==
              if req.rem then (if req.isSigned && n < 0 then Pattern(-(s.rem % W32)) else s.rem % W32)
              else (if req.isSigned && ((n < 0) != (d < 0)) then Pattern(-(s.div % W32)) else s.div % W32)
  {
    var n, d := Value(req.x1, req.isSigned), Value(req.x2, req.isSigned);
    hide Divided, Pow2, Over, Remaining;
    FinalState(s, n, d);
    Patterns(s.rem);
    Patterns(s.div);
  }

  lemma {:induction false} Patterns(x: nat)
    requires x < W32
    ensures Pattern(x) == x && x % W32 == x
  {
  }

  lemma {:induction false} Width34()
    ensures Pow2(34) == W34
  {
    assert Pow2(8) == 256;
    assert Pow2(16) == 65536;
    assert Pow2(24) == 0x100_0000;
    assert Pow2(32) == W32;
  }

  /** When the index is 0 the registers hold quotient and remainder of the magnitudes. */
  lemma {:induction false} FinalState(s: Divide, n: int, d: int)
    requires Divided(s, 34) && s.index == 0 && s.num == AbsInt(n) < W32 && s.den == AbsInt(d) < W32 && d != 0
    ensures s.div == Over(AbsInt(n), AbsInt(d)) && s.div < W32 && s.rem < W32
    ensures Remaining(n, d) == if n < 0 then 0 - s.rem else s.rem
  {
    hide *;
    FinalQuotient(s);
    PositiveDivisor(s);
    TruncatingDivision(n, d);
    OverLess(s.num, s.den);
  }

  lemma {:induction false} OverLess(x: nat, p: nat)
    requires p > 0
    ensures Over(x, p) <= x
  {
    DivideLess(x, p);
  }

  lemma {:induction false} PositiveDivisor(s: Divide)
    requires Divided(s, 34)
    ensures s.den > 0 && s.rem < s.den
  {
  }

  lemma {:induction false} FinalQuotient(s: Divide)
    requires Divided(s, 34) && s.index == 0
    ensures s.den > 0 && s.div == Over(s.num, s.den) && s.rem == Rest(s.num, s.den)
  {
    hide Pow2, IsPow2;
    assert s.num / 1 == s.num && s.div / 1 == s.div;
    assert s.div * s.den == s.den * s.div;
    QuotientIs(s.num, s.den, s.div, s.rem);
  }

  // ----- multiplication

  /** One step of the 64-bit multiplier: four bits of `rhs`. */
  datatype Multiply = Multiply(status: nat, acc: nat, lhs: nat, rhs: nat)

  function MulStep(s: Multiply): Multiply {
    Multiply(s.status * 16 % W64, (s.acc + Partial(s.lhs, s.rhs % 16)) % W64, s.lhs * 16 % W64, s.rhs / 16)
  }

  /** `lhs` shifted by each bit that is set, in 64 bits each. */
  function Partial(lhs: nat, bits: nat): nat {
    (if bits % 2 == 1 then lhs else 0)
    + (if bits / 2 % 2 == 1 then lhs * 2 % W64 else 0)
    + (if bits / 4 % 2 == 1 then lhs * 4 % W64 else 0)
    + (if bits / 8 % 2 == 1 then lhs * 8 % W64 else 0)
  }

  lemma {:induction false} ModShift(x: int, k: int)
    ensures (x + W64 * k) % W64 == x % W64
  {
  }

  lemma {:induction false} Excess(x: int)
    ensures x == W64 * (x / W64) + x % W64
  {
  }

  /** The partial products added in a step are `lhs` times four bits, up to a multiple
      of 2^64. */
  lemma {:induction false} PartialProducts(lhs: nat, bits: nat) returns (k: int)
    requires bits < 16
    ensures Partial(lhs, bits) + W64 * k == lhs * bits
  {
    var b0, b1, b2, b3 := bits % 2, bits / 2 % 2, bits / 4 % 2, bits / 8 % 2;
    assert bits == b0 + 2 * b1 + 4 * b2 + 8 * b3;
    SumOfBits(lhs, b0, b1, b2, b3);
    Times01(lhs, b0);
    var k1 := Shifted(lhs, 2, b1);
    var k2 := Shifted(lhs, 4, b2);
    var k3 := Shifted(lhs, 8, b3);
    k := k1 + k2 + k3;
  }

  lemma {:induction false} SumOfBits(x: nat, b0: nat, b1: nat, b2: nat, b3: nat)
    ensures x * (b0 + 2 * b1 + 4 * b2 + 8 * b3) == x * b0 + 2 * (x * b1) + 4 * (x * b2) + 8 * (x * b3)
  {
  }

  lemma {:induction false} Shifted(x: nat, m: nat, b: nat) returns (k: int)
    requires b < 2
    ensures (if b == 1 then x * m % W64 else 0) + W64 * k == m * (x * b)
  {
    Times01(x, b);
    Excess(x * m);
    k := if b == 1 then x * m / W64 else 0;
    assert m * x == x * m;
  }

  lemma {:induction false} Times01(x: nat, b: nat)
    requires b < 2
    ensures x * b == if b == 1 then x else 0
  {
  }

  /** A step moves a part of the product into the accumulator. */
  lemma {:induction false} StepAdds(s: Multiply)
    ensures var t := MulStep(s); (t.acc + t.lhs * t.rhs) % W64 == (s.acc + s.lhs * s.rhs) % W64
  {
    var t := MulStep(s);
    var bits, rest := s.rhs % 16, s.rhs / 16;
    var k := PartialProducts(s.lhs, bits);
    var sum := s.acc + Partial(s.lhs, bits);
    hide Partial;
    Excess(sum);
    Excess(s.lhs * 16);
    var l, j := sum / W64, s.lhs * 16 / W64;
    Regroup(s.lhs, s.rhs, bits, rest);
    assert t.lhs * rest == 16 * (s.lhs * rest) - W64 * (j * rest) by {
      Distribute(t.lhs, s.lhs, j, rest);
    }
    assert s.acc + s.lhs * s.rhs == t.acc + t.lhs * t.rhs + W64 * (k + l + j * rest);
    ModShift(t.acc + t.lhs * t.rhs, k + l + j * rest);
  }

  lemma {:induction false} Regroup(x: nat, y: nat, bits: nat, rest: nat)
    requires y == 16 * rest + bits
    ensures x * y == x * bits + 16 * (x * rest)
  {
  }

  lemma {:induction false} Distribute(t: int, x: int, j: int, rest: int)
    requires x * 16 == W64 * j + t
    ensures t * rest == 16 * (x * rest) - W64 * (j * rest)
  {
    assert t == x * 16 - W64 * j;
    assert (x * 16) * rest == 16 * (x * rest);
    assert (W64 * j) * rest == W64 * (j * rest);
    assert (x * 16 - W64 * j) * rest == (x * 16) * rest - (W64 * j) * rest;
  }

  lemma {:induction false} Spread(p: nat, b: nat, y: nat)
    ensures p * (16 * b + y) == 16 * p * b + p * y
  {
  }

  lemma {:induction false} DivideTwice(r: nat, p: nat)
    requires p > 0
    ensures r / p / 16 == r / (16 * p)
  {
    var a, x := r / p, r % p;
    assert r == p * a + x;
    var b, y := a / 16, a % 16;
    assert a == 16 * b + y;
    Spread(p, b, y);
    assert p * y + x < 16 * p by {
      Scale(p, y, 16);
    }
    QuotientIs(r, 16 * p, b, p * y + x);
  }

  /** What is still to be added is the product of the two registers. */
  ghost predicate Multiplied(s: Multiply, l: nat, r: nat, k: nat) {
    && s.acc < W64 && s.lhs < W64 && k <= 16
    && s.status == (if k < 16 then Pow2(4 * k) else 0)
    && s.rhs == r / Pow2(4 * k)
    && (s.acc + s.lhs * s.rhs) % W64 == l * r % W64
  }

  lemma {:induction false} Powers(k: nat)
    requires k < 16
    ensures Pow2(4 * k + 4) == 16 * Pow2(4 * k)
    ensures Pow2(64) == W64 && (k < 15 ==> Pow2(4 * k + 4) < W64)
  {
    PowStep(4 * k);
    PowStep(4 * k + 1);
    PowStep(4 * k + 2);
    PowStep(4 * k + 3);
    Width64();
    if k < 15 {
      PowGrows(4 * k + 4, 64);
    }
  }

  lemma {:induction false} Width64()
    ensures Pow2(64) == W64
  {
    Width34();
    PowStep(32);
    PowStep(33);
    PowAdd(32, 32);
    hide Pow2;
  }

  lemma {:induction false} PowGrows(m: nat, n: nat)
    requires m < n
    ensures Pow2(m) < Pow2(n)
    decreases n
  {
    if m < n - 1 {
      PowGrows(m, n - 1);
    }
  }

  lemma {:induction false} PowStep(n: nat)
    ensures Pow2(n + 1) == 2 * Pow2(n)
  {
  }

  lemma {:induction false} PowAdd(m: nat, n: nat)
    ensures Pow2(m + n) == Pow2(m) * Pow2(n)
    decreases m
  {
    if m > 0 {
      PowAdd(m - 1, n);
      PowStep(m - 1 + n);
      assert 2 * Pow2(m - 1) * Pow2(n) == 2 * (Pow2(m - 1) * Pow2(n));
    }
  }

  lemma {:induction false} StepMultiplies(s: Multiply, l: nat, r: nat, k: nat)
    requires Multiplied(s, l, r, k) && k < 16
    ensures s.status != 0 && Multiplied(MulStep(s), l, r, k + 1)
  {
    hide Pow2, Partial;
    StepAdds(s);
    Powers(k);
    DivideTwice(r, Pow2(4 * k));
    NextStatus(s.status, k);
    assert 4 * (k + 1) == 4 * k + 4;
  }

  lemma {:induction false} NextStatus(status: nat, k: nat)
    requires k < 16 && status == Pow2(4 * k)
    ensures status * 16 % W64 == if k < 15 then Pow2(4 * k + 4) else 0
  {
    Powers(k);
    hide Pow2;
    if k == 15 {
      assert 16 * status == W64;
    }
  }

  lemma {:induction false} AllAdded(s: Multiply, l: nat, r: nat)
    requires Multiplied(s, l, r, 16) && r < W64
    ensures s.acc == l * r % W64
  {
    Powers(0);
    hide Pow2;
    assert s.rhs == 0;
  }

  class MulServer64 {
    var busy: bool
    var s: Multiply
    ghost var l: nat
    ghost var r: nat
    ghost var steps: nat

    ghost predicate Valid()
      reads this
    {
      busy ==> r < W64 && Multiplied(s, l, r, steps)
    }

    constructor ()
      ensures Valid() && !busy
    {
      busy, s := false, Multiply(0, 0, 0, 0);
    }

    method Put(lhs: nat, rhs: nat)
      requires Valid() && !busy && lhs < W64 && rhs < W64
      modifies this
      ensures Valid() && busy && l == lhs && r == rhs && steps == 0
    {
      busy, s := true, Multiply(1, 0, lhs, rhs);
      l, r, steps := lhs, rhs, 0;
      assert Pow2(0) == 1 && rhs / 1 == rhs;
    }

    method Step()
      requires Valid() && busy && s.status != 0
      modifies this
      ensures Valid() && busy && l == old(l) && r == old(r) && steps == old(steps) + 1
    {
      hide Multiplied, MulStep;
      InProgress(s, l, r, steps);
      StepMultiplies(s, l, r, steps);
      s := MulStep(s);
      steps := steps + 1;
    }

    /** The answer is ready after exactly sixteen steps. */
    method Get() returns (p: nat)
      requires Valid() && busy && s.status == 0
      modifies this
      ensures Valid() && !busy && p == l * r % W64 && steps == 16 && steps == old(steps) && l == old(l) && r == old(r)
    {
      hide Multiplied;
      InProgress(s, l, r, steps);
      AllAdded(s, l, r);
      busy := false;
      p := s.acc;
    }
  }

  lemma {:induction false} InProgress(s: Multiply, l: nat, r: nat, k: nat)
    requires Multiplied(s, l, r, k)
    ensures k <= 16 && (s.status == 0 <==> k == 16)
  {
  }

  // ----- the products of the instruction set

  datatype MulRequest = MulRequest(x1: Bits32, x2: Bits32, x1Signed: bool, x2Signed: bool, high: bool)

  /** The low or the high half of the exact product, as a 32-bit pattern. */
  function MulResult(r: MulRequest): Bits32 {
    var p := Value(r.x1, r.x1Signed) * Value(r.x2, r.x2Signed);
    Pattern(if r.high then p / W32 else p)
  }

  /** A pattern extended to 64 bits. */
  function Extend(x: Bits32, isSigned: bool): (r: nat)
    ensures r < W64
  {
    Value(x, isSigned) % W64
  }

  /** Which half is returned. */
  function Half(p: nat, high: bool): Bits32
    requires p < W64
  {
    if high then p / W32 else p % W32
  }

  lemma {:induction false} ExtendedProduct(a: int, b: int)
    ensures (a % W64) * (b % W64) % W64 == a * b % W64
  {
    Excess(a);
    Excess(b);
    var (x, y) := (a % W64, b % W64);
    var (i, j) := (a / W64, b / W64);
    assert a * b == x * y + W64 * (i * b + x * j) by {
      assert a * b == (W64 * i + x) * b;
      assert (W64 * i + x) * b == W64 * (i * b) + x * b;
      assert x * b == x * (W64 * j + y);
      assert x * (W64 * j + y) == W64 * (x * j) + x * y;
    }
    ModShift(x * y, i * b + x * j);
  }

  /** The half of the 64-bit product is the half of the exact product. */
  lemma {:induction false} HalfOfProduct(p: int, high: bool)
    ensures Half(p % W64, high) == Pattern(if high then p / W32 else p)
  {
    var q, m := p / W64, p % W64;
    Excess(p);
    assert p == W32 * (W32 * q + m / W32) + m % W32;
    assert p / W32 == W32 * q + m / W32;
  }

  /** The configuration in use multiplies at once. */
  method FastMultiply(req: MulRequest) returns (r: Bits32)
    ensures r == MulResult(req)
  {
    var p := Extend(req.x1, req.x1Signed) * Extend(req.x2, req.x2Signed) % W64;
    ExtendedProduct(Value(req.x1, req.x1Signed), Value(req.x2, req.x2Signed));
    HalfOfProduct(Value(req.x1, req.x1Signed) * Value(req.x2, req.x2Signed), req.high);
    r := Half(p, req.high);
  }

  /** The other one uses the small multiplier, and gives the same answers. */
  method SlowMultiply(server: MulServer64, req: MulRequest) returns (r: Bits32)
    requires server.Valid() && !server.busy
    modifies server
    ensures server.Valid() && !server.busy && server.steps == 16 && r == MulResult(req)
  {
    hide Multiplied, MulStep;
    server.Put(Extend(req.x1, req.x1Signed), Extend(req.x2, req.x2Signed));
    ghost var l, m := server.l, server.r;
    while server.s.status != 0
      invariant server.Valid() && server.busy && server.l == l && server.r == m && server.steps <= 16
      decreases 16 - server.steps
    {
      InProgress(server.s, l, m, server.steps);
      server.Step();
      InProgress(server.s, l, m, server.steps);
    }
    var p := server.Get();
    ExtendedProduct(Value(req.x1, req.x1Signed), Value(req.x2, req.x2Signed));
    HalfOfProduct(Value(req.x1, req.x1Signed) * Value(req.x2, req.x2Signed), req.high);
    r := Half(p, req.high);
  }
}
