/** src/tmds_encoder.v: words with few transitions and a bounded running disparity, as in
    section 5.4.4 of HDMI 1.3a. Bits are listed from the least significant. */
module Tmds {
  type Bits = seq<bool>

  type Byte = b: Bits | |b| == 8 witness [false, false, false, false, false, false, false, false]

  type Symbol = b: Bits | |b| == 10 witness [false, false, false, false, false, false, false, false, false, false]

  function Count(b: Bits): (n: nat)
    ensures n <= |b|
  {
    if b == [] then 0 else (if b[0] then 1 else 0) + Count(b[1..])
  }

  function Flip(b: Bits): (r: Bits)
    ensures |r| == |b| && forall i :: 0 <= i < |b| ==> r[i] == !b[i]
  {
    seq(|b|, i requires 0 <= i < |b| => !b[i])
  }

  /** Each bit the exclusive or, or its complement, of the data bit and the bit before. */
  function ChainFrom(before: bool, d: Bits, xnor: bool): (r: Bits)
    ensures |r| == |d|
    decreases |d|
  {
    if d == [] then []
    else
      var b := (d[0] != before) != xnor;
      [b] + ChainFrom(b, d[1..], xnor)
  }

  function Chained(d: Byte, xnor: bool): (r: Byte) {
    [d[0]] + ChainFrom(d[0], d[1..], xnor)
  }

  function UseXnor(d: Byte): bool {
    Count(d) > 4 || (Count(d) == 4 && !d[0])
  }

  /** The 4-bit count of ones minus zeros, halved, of the data word. */
  function Disparity(w: Byte): (r: nat)
    ensures r < 16
  {
    (12 + Count(w)) % 16
  }

  function Negative(n: nat): bool {
    n / 8 % 2 == 1
  }

  /** A 4-bit register read as a signed number. */
  function Signed(n: nat): int {
    if n < 8 then n else n - 16
  }

  /** One clock with `blank` low: the symbol and the new bias register. */
  function Encode(bias: nat, d: Byte): (r: (Symbol, nat)) {
    var xnor := UseXnor(d);
    var w := Chained(d, xnor);
    var top := if xnor then 0 else 1;
    var disparity := Disparity(w);
    if bias == 0 || disparity == 0 then
      if !xnor then (w + [true, false], (bias + disparity) % 16)
      else (Flip(w) + [false, true], (bias + 16 - disparity) % 16)
    else if Negative(bias) == Negative(disparity) then
      (Flip(w) + [!xnor, true], (bias + top + 16 - disparity) % 16)
    else
      (w + [!xnor, false], (bias + 16 - (1 - top) + disparity) % 16)
  }

  /** The control symbol for `c` when `blank` is high. */
  function Control(c1: bool, c0: bool): Symbol {
    match (c1, c0)
    case (false, false) => [false, false, true, false, true, false, true, false, true, true]
    case (false, true) => [true, true, false, true, false, true, false, true, false, false]
    case (true, false) => [false, false, true, false, true, false, true, false, true, false]
    case (true, true) => [true, true, false, true, false, true, false, true, false, true]
  }

  // ----- decoding

  function Unchain(w: Byte, xnor: bool): Byte {
    [w[0]] + seq(7, i requires 0 <= i < 7 => (w[i + 1] != w[i]) != xnor)
  }

  function Decode(s: Symbol): Byte {
    var w := if s[9] then Flip(s[..8]) else s[..8];
    Unchain(w, !s[8])
  }

  lemma {:induction false} ChainAt(before: bool, d: Bits, xnor: bool, i: nat)
    requires i < |d|
    ensures var r := ChainFrom(before, d, xnor); r[i] == ((d[i] != (if i == 0 then before else r[i - 1])) != xnor)
    decreases |d|
  {
    if i > 0 {
      var b := (d[0] != before) != xnor;
      ChainAt(b, d[1..], xnor, i - 1);
    }
  }

  lemma {:induction false} UnchainChained(d: Byte, xnor: bool)
    ensures Unchain(Chained(d, xnor), xnor) == d
  {
    var w := Chained(d, xnor);
    forall i | 0 <= i < 7
      ensures ((w[i + 1] != w[i]) != xnor) == d[i + 1]
    {
      ChainAt(d[0], d[1..], xnor, i);
    }
  }

  /** Every emitted word decodes to its byte. */
  lemma {:induction false} DecodeEncode(bias: nat, d: Byte)
    ensures Decode(Encode(bias, d).0) == d
  {
    var xnor := UseXnor(d);
    var w := Chained(d, xnor);
    UnchainChained(d, xnor);
    var s := Encode(bias, d).0;
    assert s[..8] == w || s[..8] == Flip(w);
    assert Flip(Flip(w)) == w;
  }

  // ----- disparity

  lemma {:induction false} CountConcat(a: Bits, b: Bits)
    ensures Count(a + b) == Count(a) + Count(b)
  {
    if a == [] {
      assert a + b == b;
    } else {
      CountConcat(a[1..], b);
      assert (a + b)[1..] == a[1..] + b;
    }
  }

  lemma {:induction false} CountFlip(a: Bits)
    ensures Count(Flip(a)) == |a| - Count(a)
  {
    if a != [] {
      CountFlip(a[1..]);
      assert Flip(a)[1..] == Flip(a[1..]);
    }
  }

  lemma {:induction false} CountTwo(x: bool, y: bool)
    ensures Count([x, y]) == (if x then 1 else 0) + (if y then 1 else 0)
  {
    assert [x, y][1..] == [y];
    assert [y][1..] == [];
  }

  /** Half of ones minus zeros in a symbol. */
  function HalfDisparity(s: Symbol): int {
    Count(s) - 5
  }

  /** The bias register counts the disparity sent, and never leaves -4..4. */
  lemma {:induction false} BiasCounts(bias: nat, d: Byte)
    requires bias < 16 && -4 <= Signed(bias) <= 4
    ensures var (s, bias') := Encode(bias, d);
            bias' < 16 && Signed(bias') == Signed(bias) + HalfDisparity(s) && -4 <= Signed(bias') <= 4
  {
    var xnor := UseXnor(d);
    var w := Chained(d, xnor);
    hide Count, Flip, Chained, UseXnor;
    CountFlip(w);
    SymbolCount(w, true, false);
    SymbolCount(Flip(w), false, true);
    SymbolCount(Flip(w), !xnor, true);
    SymbolCount(w, !xnor, false);
    BiasArithmetic(bias, Disparity(w), Count(w), xnor);
  }

  lemma {:induction false} SymbolCount(w: Byte, x: bool, y: bool)
    ensures HalfDisparity(w + [x, y]) == Count(w) + (if x then 1 else 0) + (if y then 1 else 0) - 5
  {
    CountConcat(w, [x, y]);
    CountTwo(x, y);
  }

  lemma {:induction false} Sign(n: nat)
    requires n < 16
    ensures Negative(n) <==> Signed(n) < 0
  {
  }

  /** A 4-bit sum is the sum of signed numbers when that is in range. */
  lemma {:induction false} SignedSum(n: nat, k: int)
    requires n < 16 && -8 <= Signed(n) + k < 8 && -8 <= k <= 8
    ensures Signed((n + k + 16) % 16) == Signed(n) + k
  {
    var m := n + k + 16;
    assert m % 16 == if m < 16 then m else if m < 32 then m - 16 else m - 32;
  }

  lemma {:induction false} SignedDisparity(ones: nat)
    requires ones <= 8
    ensures var n := (12 + ones) % 16;
          Signed(n) == ones - 4 && (n == 0 <==> ones == 4) && n == if ones < 4 then 12 + ones else ones - 4
  {
  }

  lemma {:induction false} Mod16(x: nat, y: int)
    requires y >= 0 && (y == x || y == x + 16 || x == y + 16)
    ensures x % 16 == y % 16
  {
  }

  /** The four cases of the encoder on numbers. */
  lemma {:induction false} BiasArithmetic(bias: nat, disparity: nat, ones: nat, xnor: bool)
    requires bias < 16 && -4 <= Signed(bias) <= 4 && ones <= 8 && disparity == (12 + ones) % 16
    ensures var top := if xnor then 0 else 1;
            var (next, sent) :=
              if bias == 0 || disparity == 0 then
                if !xnor then ((bias + disparity) % 16, ones + 1 - 5)
                      else ((bias + 16 - disparity) % 16, 8 - ones + 1 - 5)
              else if Negative(bias) == Negative(disparity)
                    then ((bias + top + 16 - disparity) % 16, 8 - ones + top + 1 - 5)
              else ((bias + 16 - (1 - top) + disparity) % 16, ones + top - 5);
            Signed(next) == Signed(bias) + sent && -4 <= Signed(next) <= 4
  {
    var top := if xnor then 0 else 1;
    Sign(bias);
    Sign(disparity);
    SignedDisparity(ones);
    hide Negative;
    if bias == 0 || disparity == 0 {
      if !xnor {
        SignedSum(bias, ones - 4);
        Mod16(bias + disparity, bias + (ones - 4) + 16);
      } else {
        SignedSum(bias, 4 - ones);
        Mod16(bias + 16 - disparity, bias + (4 - ones) + 16);
      }
    } else if Negative(bias) == Negative(disparity) {
      SignedSum(bias, top - (ones - 4));
      Mod16(bias + top + 16 - disparity, bias + (top - (ones - 4)) + 16);
    } else {
      SignedSum(bias, ones - 4 - (1 - top));
      Mod16(bias + 16 - (1 - top) + disparity, bias + (ones - 4 - (1 - top)) + 16);
    }
  }

  // ----- transitions

  function Transitions(b: Bits): nat {
    if |b| < 2 then 0 else (if b[0] != b[1] then 1 else 0) + Transitions(b[1..])
  }

  lemma {:induction false} ChainTransitions(before: bool, d: Bits, xnor: bool)
    ensures Transitions([before] + ChainFrom(before, d, xnor)) == if xnor then |d| - Count(d) else Count(d)
    decreases |d|
  {
    var r := [before] + ChainFrom(before, d, xnor);
    if d != [] {
      var b := (d[0] != before) != xnor;
      ChainTransitions(b, d[1..], xnor);
      assert r[1..] == [b] + ChainFrom(b, d[1..], xnor);
    }
  }

  lemma {:induction false} FlipTransitions(b: Bits)
    ensures Transitions(Flip(b)) == Transitions(b)
    decreases |b|
  {
    if |b| >= 2 {
      FlipTransitions(b[1..]);
      assert Flip(b)[1..] == Flip(b[1..]);
    }
  }

  /** The eight data bits of an emitted word change at most three times, and a control
      symbol's at least six, so no word is mistaken for a control symbol. */
  lemma {:induction false} FewTransitions(bias: nat, d: Byte)
    ensures Transitions(Encode(bias, d).0[..8]) <= 3
    ensures forall c1, c0 :: Encode(bias, d).0 != Control(c1, c0)
  {
    var xnor := UseXnor(d);
    var w := Chained(d, xnor);
    ChainTransitions(d[0], d[1..], xnor);
    FlipTransitions(w);
    var s := Encode(bias, d).0;
    assert s[..8] == w || s[..8] == Flip(w);
    forall c1, c0
      ensures Transitions(Control(c1, c0)[..8]) >= 6
    {
      ControlTransitions(c1, c0);
    }
  }

  lemma {:induction false} ControlTransitions(c1: bool, c0: bool)
    ensures Transitions(Control(c1, c0)[..8]) >= 6
  {
    var s := Control(c1, c0)[..8];
    assert Transitions(s[6..]) == 1;
    assert s[5..][1..] == s[6..] && s[4..][1..] == s[5..] && s[3..][1..] == s[4..] && s[2..][1..] == s[3..]
          && s[1..][1..] == s[2..];
    assert Transitions(s[5..]) == 2;
    assert Transitions(s[4..]) == 3;
    assert Transitions(s[3..]) == 4;
    assert Transitions(s[2..]) == 5;
    assert Transitions(s[1..]) >= 5;
  }

  // ----- the clocked block

  function Total(sent: seq<Symbol>): int {
    if sent == [] then 0 else Total(sent[..|sent| - 1]) + HalfDisparity(sent[|sent| - 1])
  }

  class Encoder {
    var encoded: Symbol
    var dcBias: nat
    ghost var sent: seq<Symbol>   // data words since the last blanking

    ghost predicate Valid()
      reads this
    {
      dcBias < 16 && Signed(dcBias) == Total(sent) && -4 <= Total(sent) <= 4
    }

    constructor ()
      ensures Valid() && dcBias == 0 && sent == []
    {
      encoded, dcBias, sent := Control(false, false), 0, [];
    }

    /** One rising edge of the pixel clock. */
    method Clock(data: Byte, c1: bool, c0: bool, blank: bool)
      requires Valid()
      modifies this
      ensures Valid()
      ensures blank ==> encoded == Control(c1, c0) && sent == []
      ensures !blank ==> sent == old(sent) + [encoded] && Total(sent) == Total(old(sent)) + HalfDisparity(encoded)
      ensures !blank ==> Decode(encoded) == data && Transitions(encoded[..8]) <= 3
    {
      if blank {
        encoded, dcBias, sent := Control(c1, c0), 0, [];
      } else {
        hide Encode, Decode, Transitions;
        BiasCounts(dcBias, data);
        DecodeEncode(dcBias, data);
        FewTransitions(dcBias, data);
        encoded, dcBias := Encode(dcBias, data).0, Encode(dcBias, data).1;
        sent := sent + [encoded];
        assert sent[..|sent| - 1] == old(sent);
      }
    }
  }

  /** Half of ones minus zeros in the words sent since the last blanking before clock `k`. */
  function Balance(blanks: seq<bool>, out: seq<Symbol>, k: nat): int
    requires k <= |out| <= |blanks|
  {
    if k == 0 || blanks[k - 1] then 0 else Balance(blanks, out, k - 1) + HalfDisparity(out[k - 1])
  }

  lemma {:induction false} BalancePrefix(blanks: seq<bool>, out: seq<Symbol>, s: Symbol, k: nat)
    requires k <= |out| < |blanks|
    ensures Balance(blanks, out + [s], k) == Balance(blanks, out, k)
  {
    if k > 0 {
      BalancePrefix(blanks, out, s, k - 1);
    }
  }

  /** What goes into the encoder in a clock. */
  datatype Input = Input(data: Byte, c1: bool, c0: bool, blank: bool)

  function Blanks(inputs: seq<Input>): (r: seq<bool>)
    ensures |r| == |inputs|
  {
    seq(|inputs|, i requires 0 <= i < |inputs| => inputs[i].blank)
  }

  /** Each symbol is the control symbol or decodes to its byte; the running disparity is
      within four of balance, and the register holds it. */
  ghost predicate Right(inputs: seq<Input>, out: seq<Symbol>, biases: seq<nat>) {
    && |biases| == |out| + 1 <= |inputs| + 1
    && (forall k :: 0 <= k < |out| ==>
          if inputs[k].blank then out[k] == Control(inputs[k].c1, inputs[k].c0) else Decode(out[k]) == inputs[k].data)
    && (forall k :: 0 <= k <= |out| ==> biases[k] < 16 && Signed(biases[k]) == Balance(Blanks(inputs), out, k))
    && (forall k :: 0 <= k <= |out| ==> -4 <= Balance(Blanks(inputs), out, k) <= 4)
  }

  lemma {:induction false} RightStep(inputs: seq<Input>, out: seq<Symbol>, biases: seq<nat>, s: Symbol, bias: nat)
    requires Right(inputs, out, biases) && |out| < |inputs|
    requires var i := inputs[|out|]; if i.blank then s == Control(i.c1, i.c0) else Decode(s) == i.data
    requires bias < 16 && -4 <= Signed(bias) <= 4
    requires Signed(bias) == if inputs[|out|].blank then 0 else Signed(biases[|out|]) + HalfDisparity(s)
    ensures Right(inputs, out + [s], biases + [bias])
    ensures Balance(Blanks(inputs), out + [s], |out| + 1) == Signed(bias)
  {
    hide Decode, Control, HalfDisparity, Signed;
    var b := Blanks(inputs);
    forall k | 0 <= k <= |out|
      ensures Balance(b, out + [s], k) == Balance(b, out, k)
    {
      BalancePrefix(b, out, s, k);
    }
  }

  /** For every sequence of pixels and blankings. As the disparity stays within four of
      balance, the register never wraps. */
  method Run(inputs: seq<Input>) returns (out: seq<Symbol>, biases: seq<nat>)
    ensures |out| == |inputs| && Right(inputs, out, biases)
  {
    hide Decode, Control, HalfDisparity, Right, Transitions;
    var e := new Encoder();
    out, biases := [], [e.dcBias];
    assert Right(inputs, [], [0]) by {
      RightAtFirst(inputs);
    }
    for k := 0 to |inputs|
      invariant fresh(e) && e.Valid() && |out| == k && |biases| == k + 1
      invariant biases[k] == e.dcBias && Right(inputs, out, biases)
    {
      e.Clock(inputs[k].data, inputs[k].c1, inputs[k].c0, inputs[k].blank);
      RightStep(inputs, out, biases, e.encoded, e.dcBias);
      out, biases := out + [e.encoded], biases + [e.dcBias];
    }
  }

  lemma {:induction false} RightAtFirst(inputs: seq<Input>)
    ensures Right(inputs, [], [0])
  {
  }
}
