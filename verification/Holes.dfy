/** The hole lists of rust/src/hole.rs as values: sorted, separated regions of free
    memory, and what they say about the live blocks between them. `w` is the size of a
    machine word; a hole header is two words. */
module Holes {
  datatype Region = Region(addr: nat, size: nat) {
    function End(): nat {
      addr + size
    }
  }

  /** A requested size and alignment. */
  datatype Layout = Layout(size: nat, align: nat)

  predicate PowerOfTwo(n: nat) {
    n == 1 || (1 < n && n % 2 == 0 && PowerOfTwo(n / 2))
  }

  predicate Multiple(x: nat, m: nat) {
    0 < m && x % m == 0
  }

  function AlignDown(x: nat, align: nat): (r: nat)
    requires 0 < align
    ensures Multiple(r, align) && r <= x < r + align
  {
    assert x == align * (x / align) + x % align;
    assert (align * (x / align)) % align == 0 by { MultipleMod(x / align, align); }
    x - x % align
  }

  function AlignUp(x: nat, align: nat): (r: nat)
    requires 0 < align
    ensures Multiple(r, align) && x <= r < x + align
  {
    AlignDown(x + align - 1, align)
  }

  lemma {:induction false} MultipleMod(k: nat, m: nat)
    requires 0 < m
    ensures (m * k) % m == 0
  {
    if k > 0 {
      MultipleMod(k - 1, m);
      assert m * k == m * (k - 1) + m;
      AddMod(m * (k - 1), m);
    }
  }

  lemma {:induction false} AddMod(x: nat, m: nat)
    requires 0 < m
    ensures (x + m) % m == x % m
  {
    var q, r := x / m, x % m;
    assert x == m * q + r;
    assert x + m == m * (q + 1) + r;
    Quotient(x + m, m, q + 1, r);
  }

  lemma {:induction false} Scale(m: nat, a: nat, b: nat)
    requires a < b
    ensures m * a + m <= m * b
  {
    if a + 1 < b {
      Scale(m, a, b - 1);
      assert m * b == m * (b - 1) + m;
    } else {
      assert m * b == m * a + m;
    }
  }

  lemma {:induction false} Quotient(x: nat, m: nat, q: nat, r: nat)
    requires r < m && x == m * q + r
    ensures x % m == r && x / m == q
  {
    var a := x / m;
    assert x == m * a + x % m;
    if a < q {
      Scale(m, a, q);
    } else if q < a {
      Scale(m, q, a);
    }
  }

  /** Sums and differences of multiples are multiples. */
  lemma {:induction false} MultipleSum(x: nat, y: nat, m: nat)
    requires Multiple(x, m) && Multiple(y, m)
    ensures Multiple(x + y, m)
    ensures x <= y ==> Multiple(y - x, m) && (x < y ==> x + m <= y)
  {
    var a, b := x / m, y / m;
    assert x == m * a && y == m * b;
    assert x + y == m * (a + b);
    MultipleMod(a + b, m);
    if x <= y {
      if b < a {
        Scale(m, b, a);
      }
      assert y - x == m * (b - a);
      MultipleMod(b - a, m);
      if a < b {
        Scale(m, a, b);
      }
    }
  }

  lemma {:induction false} MultipleTrans(x: nat, y: nat, m: nat)
    requires Multiple(x, y) && Multiple(y, m)
    ensures Multiple(x, m)
  {
    var a, b := x / y, y / m;
    assert x == y * a && y == m * b;
    assert x == m * (b * a);
    MultipleMod(b * a, m);
  }

  /** Of two powers of two the smaller divides the larger. */
  lemma {:induction false} PowersDivide(a: nat, b: nat)
    requires PowerOfTwo(a) && PowerOfTwo(b) && a <= b
    ensures Multiple(b, a)
    decreases b
  {
    if a > 1 {
      PowersDivide(a / 2, b / 2);
      var k := (b / 2) / (a / 2);
      assert b / 2 == (a / 2) * k;
      assert b == a * k;
      MultipleMod(k, a);
    }
  }

  // ----- lists of holes

  /** Whole words, with room for a header, in `[lo, hi)`. */
  predicate Sized(r: Region, w: nat, lo: nat, hi: nat) {
    0 < w && Multiple(r.addr, w) && Multiple(r.size, w) && 2 * w <= r.size && lo <= r.addr && r.End() <= hi
  }

  ghost predicate Sorted(hs: seq<Region>, w: nat, lo: nat, hi: nat) {
    && (forall i :: 0 <= i < |hs| ==> Sized(hs[i], w, lo, hi))
    && (forall i, j :: 0 <= i < j < |hs| ==> hs[i].End() <= hs[j].addr)
  }

  /** No two holes touch. */
  ghost predicate Separated(hs: seq<Region>, w: nat, lo: nat, hi: nat) {
    && (forall i :: 0 <= i < |hs| ==> Sized(hs[i], w, lo, hi))
    && (forall i, j :: 0 <= i < j < |hs| ==> hs[i].End() < hs[j].addr)
  }

  predicate Has(r: Region, x: nat) {
    r.addr <= x < r.End()
  }

  /** The byte `x` is free. */
  ghost predicate In(hs: seq<Region>, x: nat) {
    exists i :: 0 <= i < |hs| && Has(hs[i], x)
  }

  function Total(hs: seq<Region>): nat {
    if hs == [] then 0 else hs[0].size + Total(hs[1..])
  }

  lemma {:induction false} TotalConcat(a: seq<Region>, b: seq<Region>)
    ensures Total(a + b) == Total(a) + Total(b)
  {
    if a == [] {
      assert a + b == b;
    } else {
      TotalConcat(a[1..], b);
      assert (a + b)[1..] == a[1..] + b;
    }
  }

  lemma {:induction false} InConcat(a: seq<Region>, b: seq<Region>, x: nat)
    ensures In(a + b, x) <==> In(a, x) || In(b, x)
  {
    if In(a, x) {
      var i :| 0 <= i < |a| && Has(a[i], x);
      assert Has((a + b)[i], x);
    }
    if In(b, x) {
      var i :| 0 <= i < |b| && Has(b[i], x);
      assert Has((a + b)[|a| + i], x);
    }
    if In(a + b, x) {
      var i :| 0 <= i < |a + b| && Has((a + b)[i], x);
      assert if i < |a| then Has(a[i], x) else Has(b[i - |a|], x);
    }
  }

  /** Replacing the holes `[i, j)` by `mid` keeps the others. */
  lemma {:induction false} Replaced(hs: seq<Region>, i: nat, j: nat, mid: seq<Region>)
    requires i <= j <= |hs|
    ensures forall x :: In(hs, x) <==> In(hs[..i], x) || In(hs[i..j], x) || In(hs[j..], x)
    ensures forall x :: In(hs[..i] + mid + hs[j..], x) <==> In(hs[..i], x) || In(mid, x) || In(hs[j..], x)
    ensures Total(hs[..i] + mid + hs[j..]) + Total(hs[i..j]) == Total(hs) + Total(mid)
  {
    assert hs == hs[..i] + hs[i..j] + hs[j..];
    TotalConcat(hs[..i] + hs[i..j], hs[j..]);
    TotalConcat(hs[..i], hs[i..j]);
    TotalConcat(hs[..i] + mid, hs[j..]);
    TotalConcat(hs[..i], mid);
    forall x: nat
      ensures In(hs, x) <==> In(hs[..i], x) || In(hs[i..j], x) || In(hs[j..], x)
      ensures In(hs[..i] + mid + hs[j..], x) <==> In(hs[..i], x) || In(mid, x) || In(hs[j..], x)
    {
      InConcat(hs[..i] + hs[i..j], hs[j..], x);
      InConcat(hs[..i], hs[i..j], x);
      InConcat(hs[..i] + mid, hs[j..], x);
      InConcat(hs[..i], mid, x);
    }
  }

  /** A separated list is determined by which bytes are free. */
  lemma {:induction false} Canonical(a: seq<Region>, b: seq<Region>, w: nat, lo: nat, hi: nat)
    requires Separated(a, w, lo, hi) && Separated(b, w, lo, hi)
    requires forall x :: In(a, x) <==> In(b, x)
    ensures a == b
    decreases |a|
  {
    if a == [] || b == [] {
      if a != [] {
        FirstIn(a, w, lo, hi);
      } else if b != [] {
        FirstIn(b, w, lo, hi);
      }
    } else {
      FirstIsLeast(a, b, w, lo, hi);
      FirstIsLeast(b, a, w, lo, hi);
      FirstEnds(a, b, w, lo, hi);
      FirstEnds(b, a, w, lo, hi);
      forall x: nat
        ensures In(a[1..], x) <==> In(b[1..], x)
      {
        RestIn(a, w, lo, hi, x);
        RestIn(b, w, lo, hi, x);
      }
      Canonical(a[1..], b[1..], w, lo, hi);
      assert a == [a[0]] + a[1..] && b == [b[0]] + b[1..];
    }
  }

  lemma {:induction false} FirstIn(a: seq<Region>, w: nat, lo: nat, hi: nat)
    requires a != [] && Separated(a, w, lo, hi)
    ensures In(a, a[0].addr)
  {
    assert Has(a[0], a[0].addr);
  }

  lemma {:induction false} FirstIsLeast(a: seq<Region>, b: seq<Region>, w: nat, lo: nat, hi: nat)
    requires a != [] && b != [] && Separated(a, w, lo, hi) && Separated(b, w, lo, hi)
    requires forall x :: In(a, x) <==> In(b, x)
    ensures a[0].addr <= b[0].addr
  {
    assert Has(b[0], b[0].addr);
    assert In(a, b[0].addr);
  }

  lemma {:induction false} FirstEnds(a: seq<Region>, b: seq<Region>, w: nat, lo: nat, hi: nat)
    requires a != [] && b != [] && Separated(a, w, lo, hi) && Separated(b, w, lo, hi) && a[0].addr == b[0].addr
    requires forall x :: In(a, x) <==> In(b, x)
    ensures a[0].End() <= b[0].End()
  {
    Edge(b, w, lo, hi, 0);
    assert !Has(a[0], b[0].End());
  }

  lemma {:induction false} RestIn(a: seq<Region>, w: nat, lo: nat, hi: nat, x: nat)
    requires a != [] && Separated(a, w, lo, hi)
    ensures In(a[1..], x) <==> In(a, x) && !Has(a[0], x)
  {
    assert a == [a[0]] + a[1..];
    InConcat([a[0]], a[1..], x);
    assert In([a[0]], x) <==> Has([a[0]][0], x);
    if In(a[1..], x) {
      var i :| 0 <= i < |a[1..]| && Has(a[1..][i], x);
      assert a[1..][i] == a[i + 1];
    }
  }

  // ----- live blocks

  /** The size a block really takes: at least a header, in whole words. */
  function BlockSize(w: nat, l: Layout): (r: nat)
    requires 0 < w
    ensures Multiple(r, w) && 2 * w <= r && l.size <= r
  {
    AlignUp(if l.size < 2 * w then 2 * w else l.size, w)
  }

  type Live = map<nat, Layout>

  /** The byte `x` belongs to the block at `b`. */
  predicate Owns(w: nat, live: Live, b: nat, x: nat)
    requires 0 < w
  {
    b in live && b <= x < b + BlockSize(w, live[b])
  }

  ghost predicate Used(w: nat, live: Live, x: nat)
    requires 0 < w
  {
    exists b :: Owns(w, live, b, x)
  }

  /** Live blocks are inside `[lo, hi)`, aligned as asked, and disjoint. */
  ghost predicate Disjoint(w: nat, live: Live, lo: nat, hi: nat)
    requires 0 < w
  {
    && (forall b :: b in live ==>
          Multiple(b, w) && lo <= b && b + BlockSize(w, live[b]) <= hi && Multiple(b, live[b].align))
    && (forall b, c :: b in live && c in live && b < c ==> b + BlockSize(w, live[b]) <= c)
  }

  /** The holes are exactly what the live blocks leave of `[lo, hi)`. */
  ghost predicate Complement(w: nat, hs: seq<Region>, live: Live, lo: nat, hi: nat)
    requires 0 < w
  {
    forall x :: lo <= x < hi ==> (In(hs, x) <==> !Used(w, live, x))
  }

  ghost predicate Fair(w: nat, hs: seq<Region>, live: Live, lo: nat, hi: nat) {
    0 < w && lo <= hi && Separated(hs, w, lo, hi) && Disjoint(w, live, lo, hi) && Complement(w, hs, live, lo, hi)
  }

  /** A maximal free run of `[lo, hi)`. */
  ghost predicate MaximalRun(w: nat, live: Live, lo: nat, hi: nat, r: Region)
    requires 0 < w
  {
    && 0 < r.size && lo <= r.addr && r.End() <= hi
    && (forall x :: Has(r, x) ==> !Used(w, live, x))
    && (r.addr == lo || Used(w, live, r.addr - 1))
    && (r.End() == hi || Used(w, live, r.End()))
  }

  /** The holes are exactly the maximal free runs left by the live blocks. */
  lemma {:induction false} HolesAreMaximalRuns(w: nat, hs: seq<Region>, live: Live, lo: nat, hi: nat, r: Region)
    requires Fair(w, hs, live, lo, hi)
    ensures r in hs <==> MaximalRun(w, live, lo, hi, r)
  {
    hide BlockSize, Multiple;
    if i :| 0 <= i < |hs| && hs[i] == r {
      forall x: nat | Has(r, x)
        ensures !Used(w, live, x)
      {
        assert In(hs, x);
      }
      Edge(hs, w, lo, hi, i);
    }
    if MaximalRun(w, live, lo, hi, r) {
      assert Has(r, r.addr);
      assert In(hs, r.addr);
      var i :| 0 <= i < |hs| && Has(hs[i], r.addr);
      if lo < r.addr {
        assert !Has(hs[i], r.addr - 1) by {
          assert !In(hs, r.addr - 1);
        }
      }
      if r.End() < hi {
        assert !Has(hs[i], r.End()) by {
          assert !In(hs, r.End());
        }
      }
      Edge(hs, w, lo, hi, i);
      if hs[i].End() < hi {
        assert !Has(r, hs[i].End());
      }
      assert hs[i] == r;
    }
  }

  /** The bytes on both sides of a hole are not free. */
  lemma {:induction false} Edge(hs: seq<Region>, w: nat, lo: nat, hi: nat, i: nat)
    requires Separated(hs, w, lo, hi) && i < |hs|
    ensures !In(hs, hs[i].End())
    ensures 0 < hs[i].addr ==> !In(hs, hs[i].addr - 1)
  {
  }

  /** The hole list depends only on which blocks are live. */
  lemma {:induction false} DependsOnlyOnLive(w: nat, a: seq<Region>, b: seq<Region>, live: Live, lo: nat, hi: nat)
    requires Fair(w, a, live, lo, hi) && Fair(w, b, live, lo, hi)
    ensures a == b
  {
    forall x: nat
      ensures In(a, x) <==> In(b, x)
    {
      assert In(a, x) ==> lo <= x < hi;
      assert In(b, x) ==> lo <= x < hi;
    }
    Canonical(a, b, w, lo, hi);
  }

  /** Once everything is freed, in whatever order, one hole is left. */
  lemma {:induction false} EmptyHeapIsOneHole(w: nat, hs: seq<Region>, lo: nat, hi: nat)
    requires Fair(w, hs, map[], lo, hi) && lo < hi
    ensures hs == [Region(lo, hi - lo)]
  {
    forall x: nat
      ensures !Used(w, map[], x)
    {
    }
    HolesAreMaximalRuns(w, hs, map[], lo, hi, Region(lo, hi - lo));
    var i :| 0 <= i < |hs| && hs[i] == Region(lo, hi - lo);
    var one := [Region(lo, hi - lo)];
    forall x: nat | lo <= x < hi
      ensures In(one, x)
    {
      assert Has(one[0], x);
    }
    DependsOnlyOnLive(w, hs, one, map[], lo, hi);
  }

  /** After a hole there is nothing, or room for a header. */
  lemma {:induction false} GapAfterHole(w: nat, hs: seq<Region>, live: Live, lo: nat, hi: nat, i: nat)
    requires Fair(w, hs, live, lo, hi) && i < |hs|
    ensures hs[i].End() == hi || hs[i].End() + 2 * w <= hi
  {
    hide BlockSize, Multiple;
    var e := hs[i].End();
    if e < hi {
      Edge(hs, w, lo, hi, i);
      var c :| Owns(w, live, c, e);
      assert !Owns(w, live, c, e - 1) by {
        assert Has(hs[i], e - 1);
        assert In(hs, e - 1);
      }
    }
  }

  lemma {:induction false} GapAfterBlock(w: nat, hs: seq<Region>, live: Live, lo: nat, hi: nat, b: nat)
    requires Fair(w, hs, live, lo, hi) && b in live
    ensures var e := b + BlockSize(w, live[b]); e == hi || e + 2 * w <= hi
  {
    hide BlockSize, Multiple;
    var e := b + BlockSize(w, live[b]);
    if e < hi {
      if c :| Owns(w, live, c, e) {
        assert c != b;
      } else {
        assert In(hs, e);
        var j :| 0 <= j < |hs| && Has(hs[j], e);
        assert !Has(hs[j], e - 1) by {
          assert Owns(w, live, b, e - 1);
          assert !In(hs, e - 1);
        }
      }
    }
  }

  lemma {:induction false} GapBefore(w: nat, hs: seq<Region>, live: Live, lo: nat, hi: nat, b: nat)
    requires Fair(w, hs, live, lo, hi) && b in live
    ensures b == lo || lo + 2 * w <= b
  {
    hide BlockSize, Multiple;
    if lo < b {
      if c :| Owns(w, live, c, lo) {
        assert c == lo;
      } else {
        assert In(hs, lo);
        var i :| 0 <= i < |hs| && Has(hs[i], lo);
        assert !Has(hs[i], b) by {
          assert Owns(w, live, b, b);
          assert !In(hs, b);
        }
      }
    }
  }

  // ----- splitting a hole

  /** Bytes `[x, x + size)` can be cut out of `h`: what is left on either side is
      nothing or has room for a header. */
  predicate Fits(w: nat, h: Region, x: nat, size: nat, align: nat)
    requires 0 < align
  {
    && Multiple(x, align)
    && (x == h.addr || h.addr + 2 * w <= x)
    && (x + size == h.End() || x + size + 2 * w <= h.End())
  }

  ghost predicate FitsSomewhere(w: nat, hs: seq<Region>, x: nat, size: nat, align: nat)
    requires 0 < align
  {
    exists i :: 0 <= i < |hs| && Fits(w, hs[i], x, size, align)
  }

  /** The address `split_current` tries. */
  function Candidate(w: nat, h: Region, align: nat): nat
    requires 0 < align
  {
    if h.addr == AlignUp(h.addr, align) then h.addr else AlignUp(h.addr + 2 * w, align)
  }

  /** If any legal cut exists in the hole, the candidate is one, and the lowest. */
  lemma {:induction false} CandidateIsLowest(w: nat, h: Region, size: nat, align: nat, x: nat)
    requires PowerOfTwo(w) && PowerOfTwo(align) && Multiple(h.addr, w)
    requires Fits(w, h, x, size, align)
    ensures Candidate(w, h, align) <= x && Fits(w, h, Candidate(w, h, align), size, align)
  {
    var a := Candidate(w, h, align);
    if Multiple(h.addr, align) {
      MultipleSum(h.addr, AlignUp(h.addr, align), align);
    } else {
      if align <= w {
        PowersDivide(align, w);
        MultipleTrans(h.addr, w, align);
      }
      PowersDivide(w, align);
      MultipleSum(w, align, w);
      assert 2 * w <= align;
      if x < a {
        MultipleSum(x, a, align);
      }
      MultipleSum(a, x, align);
    }
  }

  lemma {:induction false} CandidateIsAligned(w: nat, h: Region, align: nat)
    requires PowerOfTwo(w) && PowerOfTwo(align) && Multiple(h.addr, w)
    ensures Multiple(Candidate(w, h, align), w)
  {
    if Multiple(h.addr, align) {
      MultipleSum(h.addr, AlignUp(h.addr, align), align);
    } else {
      if align <= w {
        PowersDivide(align, w);
        MultipleTrans(h.addr, w, align);
      }
      PowersDivide(w, align);
      MultipleTrans(AlignUp(h.addr + 2 * w, align), align, w);
    }
  }

  /** What is left of a hole once `[x, x + size)` is cut out. */
  function Pieces(h: Region, x: nat, size: nat): seq<Region>
    requires h.addr <= x && x + size <= h.End()
  {
    (if h.addr < x then [Region(h.addr, x - h.addr)] else [])
    + (if x + size < h.End() then [Region(x + size, h.End() - (x + size))] else [])
  }

  function Cut(hs: seq<Region>, i: nat, x: nat, size: nat): seq<Region>
    requires i < |hs| && hs[i].addr <= x && x + size <= hs[i].End()
  {
    hs[..i] + Pieces(hs[i], x, size) + hs[i + 1..]
  }

  lemma {:induction false} CutTotal(hs: seq<Region>, i: nat, x: nat, size: nat)
    requires i < |hs| && hs[i].addr <= x && x + size <= hs[i].End()
    ensures Total(Cut(hs, i, x, size)) + size == Total(hs)
  {
    var h, mid := hs[i], Pieces(hs[i], x, size);
    Replaced(hs, i, i + 1, mid);
    assert hs[i..i + 1] == [h];
    assert Total([h]) == h.size;
    var front := if h.addr < x then [Region(h.addr, x - h.addr)] else [];
    var back := if x + size < h.End() then [Region(x + size, h.End() - (x + size))] else [];
    TotalConcat(front, back);
    assert Total(front) == x - h.addr && Total(back) == h.End() - (x + size);
  }

  lemma {:induction false} CutIn(hs: seq<Region>, w: nat, lo: nat, hi: nat, i: nat, x: nat, size: nat)
    requires Separated(hs, w, lo, hi) && i < |hs| && hs[i].addr <= x && x + size <= hs[i].End()
    ensures forall y: nat :: In(Cut(hs, i, x, size), y) <==> In(hs, y) && !(x <= y < x + size)
    ensures Total(Cut(hs, i, x, size)) + size == Total(hs)
  {
    hide Multiple, Total;
    CutTotal(hs, i, x, size);
    var h, mid := hs[i], Pieces(hs[i], x, size);
    Replaced(hs, i, i + 1, mid);
    assert hs[i..i + 1] == [h];
    forall y: nat
      ensures In(Cut(hs, i, x, size), y) <==> In(hs, y) && !(x <= y < x + size)
    {
      assert In([h], y) <==> Has([h][0], y);
      if In(mid, y) {
        var k :| 0 <= k < |mid| && Has(mid[k], y);
        assert Has(h, y);
      }
      if h.addr <= y < x {
        assert Has(mid[0], y);
      }
      if x + size <= y < h.End() {
        assert Has(mid[|mid| - 1], y);
      }
      if In(hs[..i], y) {
        var k :| 0 <= k < |hs[..i]| && Has(hs[..i][k], y);
        assert hs[k].End() < h.addr;
      }
      if In(hs[i + 1..], y) {
        var k :| 0 <= k < |hs[i + 1..]| && Has(hs[i + 1..][k], y);
        assert hs[i + 1..][k] == hs[i + 1 + k];
        assert h.End() < hs[i + 1 + k].addr;
      }
    }
  }

  lemma {:induction false} PiecesSized(h: Region, w: nat, lo: nat, hi: nat, x: nat, size: nat, align: nat)
    requires Sized(h, w, lo, hi) && 0 < align && Fits(w, h, x, size, align) && Multiple(x, w) && Multiple(size, w)
    ensures forall k :: 0 <= k < |Pieces(h, x, size)| ==> Sized(Pieces(h, x, size)[k], w, lo, hi)
  {
    hide Multiple;
    MultipleSum(h.addr, x, w);
    MultipleSum(x, size, w);
    MultipleSum(h.addr, h.size, w);
    MultipleSum(x + size, h.End(), w);
  }

  lemma {:induction false} CutSeparated(hs: seq<Region>, w: nat, lo: nat, hi: nat, i: nat, x: nat, size: nat,
        align: nat)
    requires Separated(hs, w, lo, hi) && i < |hs| && 0 < align && Fits(w, hs[i], x, size, align) && Multiple(x, w)
    requires Multiple(size, w) && 0 < size
    ensures Separated(Cut(hs, i, x, size), w, lo, hi)
  {
    hide Multiple, Sized;
    var h, mid, cut := hs[i], Pieces(hs[i], x, size), Cut(hs, i, x, size);
    PiecesSized(h, w, lo, hi, x, size, align);
    forall k | 0 <= k < |cut|
      ensures cut[k] == if k < i then hs[k] else if k < i + |mid| then mid[k - i] else hs[k - |mid| + 1]
    {
    }
  }

  /** An allocation turns the bytes it returns from free to used. */
  lemma {:induction false} CutFair(w: nat, hs: seq<Region>, live: Live, lo: nat, hi: nat, i: nat, x: nat, l: Layout)
    requires Fair(w, hs, live, lo, hi) && i < |hs| && 0 < l.align && Fits(w, hs[i], x, BlockSize(w, l), l.align)
    requires Multiple(x, w)
    ensures Fair(w, Cut(hs, i, x, BlockSize(w, l)), live[x := l], lo, hi)
    ensures x !in live
  {
    var size := BlockSize(w, l);
    hide BlockSize, Multiple, Cut;
    CutIn(hs, w, lo, hi, i, x, size);
    CutSeparated(hs, w, lo, hi, i, x, size, l.align);
    forall y: nat | x <= y < x + size
      ensures !Used(w, live, y)
    {
      assert Has(hs[i], y);
      assert In(hs, y);
    }
    NewBlock(w, live, lo, hi, x, l);
    forall y: nat | lo <= y < hi
      ensures In(Cut(hs, i, x, size), y) <==> !Used(w, live[x := l], y)
    {
      assert In(hs, y) <==> !Used(w, live, y);
    }
  }

  lemma {:induction false} NewBlock(w: nat, live: Live, lo: nat, hi: nat, x: nat, l: Layout)
    requires 0 < w && Disjoint(w, live, lo, hi) && lo <= x && x + BlockSize(w, l) <= hi && Multiple(x, w)
    requires Multiple(x, l.align)
    requires forall y: nat :: x <= y < x + BlockSize(w, l) ==> !Used(w, live, y)
    ensures x !in live && Disjoint(w, live[x := l], lo, hi)
    ensures forall y: nat :: Used(w, live[x := l], y) <==> Used(w, live, y) || x <= y < x + BlockSize(w, l)
  {
    hide BlockSize, Multiple;
    var size := BlockSize(w, l);
    var live' := live[x := l];
    forall b | b in live
      ensures b + BlockSize(w, live[b]) <= x || x + size <= b
    {
      assert !Owns(w, live, b, x) by {
        assert !Used(w, live, x);
      }
      assert !(x <= b < x + size) by {
        assert Owns(w, live, b, b);
        assert Used(w, live, b);
      }
    }
    forall y: nat
      ensures Used(w, live', y) <==> Used(w, live, y) || x <= y < x + size
    {
      if b :| Owns(w, live, b, y) {
        assert Owns(w, live', b, y);
      }
      if x <= y < x + size {
        assert Owns(w, live', x, y);
      }
      if b :| Owns(w, live', b, y) {
        assert b != x ==> Owns(w, live, b, y);
      }
    }
  }

  /** Freeing a block turns its bytes from used to free. */
  lemma {:induction false} FreeFair(w: nat, hs: seq<Region>, hs': seq<Region>, live: Live, lo: nat, hi: nat, b: nat)
    requires Fair(w, hs, live, lo, hi) && b in live && Separated(hs', w, lo, hi)
    requires forall x :: In(hs', x) <==> In(hs, x) || Has(Region(b, BlockSize(w, live[b])), x)
    ensures Fair(w, hs', live - {b}, lo, hi)
  {
    hide BlockSize, Multiple;
    forall y: nat | lo <= y < hi
      ensures Used(w, live, y) <==> Used(w, live - {b}, y) || Has(Region(b, BlockSize(w, live[b])), y)
      ensures !(Used(w, live - {b}, y) && Has(Region(b, BlockSize(w, live[b])), y))
    {
      if Used(w, live - {b}, y) {
        var c :| Owns(w, live - {b}, c, y);
        assert Owns(w, live, c, y);
      }
      if Used(w, live, y) {
        var c :| Owns(w, live, c, y);
        assert c != b ==> Owns(w, live - {b}, c, y);
      }
      assert Has(Region(b, BlockSize(w, live[b])), y) ==> Owns(w, live, b, y);
    }
  }

  /** New memory at the top is free. */
  lemma {:induction false} ExtendFair(w: nat, hs: seq<Region>, hs': seq<Region>, live: Live, lo: nat, hi: nat,
        size: nat)
    requires Fair(w, hs, live, lo, hi) && Separated(hs', w, lo, hi + size)
    requires forall x :: In(hs', x) <==> In(hs, x) || Has(Region(hi, size), x)
    ensures Fair(w, hs', live, lo, hi + size)
  {
    forall y: nat | lo <= y < hi + size
      ensures In(hs', y) <==> !Used(w, live, y)
    {
      assert In(hs, y) ==> y < hi;
    }
  }
}
