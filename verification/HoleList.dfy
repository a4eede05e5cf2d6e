/** `HoleList` and `Cursor` of rust/src/hole.rs: the free list threaded through the free
    memory itself. A hole at address `a` keeps its size in the word at `a` and its link
    in the next word; link 0 is none. */
module HoleList {
  import opened Holes
  import opened Wrappers

  type Memory = map<nat, nat>

  function Get(m: Memory, a: nat): nat {
    if a in m then m[a] else 0
  }

  function Header(m: Memory, w: nat, a: nat, size: nat, next: nat): Memory {
    m[a := size][a + w := next]
  }

  /** The address of hole `k`, or 0 past the end. */
  function Head(hs: seq<Region>, k: nat): nat {
    if k < |hs| then hs[k].addr else 0
  }

  /** The header of hole `k` is in memory; the last one links to `after`. */
  predicate Node(m: Memory, w: nat, hs: seq<Region>, k: nat, after: nat)
    requires k < |hs|
  {
    Get(m, hs[k].addr) == hs[k].size && Get(m, hs[k].addr + w) == (if k + 1 < |hs| then hs[k + 1].addr else after)
  }

  ghost predicate Nodes(m: Memory, w: nat, hs: seq<Region>, after: nat) {
    forall k :: 0 <= k < |hs| ==> Node(m, w, hs, k, after)
  }

  ghost predicate Links(m: Memory, w: nat, first: nat, hs: seq<Region>) {
    first == Head(hs, 0) && Nodes(m, w, hs, 0)
  }

  /** Only words in holes changed. */
  ghost predicate Kept(m: Memory, m': Memory, hs: seq<Region>) {
    forall x :: !In(hs, x) ==> Get(m', x) == Get(m, x)
  }

  predicate SameHeader(m: Memory, m': Memory, w: nat, a: nat) {
    Get(m', a) == Get(m, a) && Get(m', a + w) == Get(m, a + w)
  }

  function Spliced(hs: seq<Region>, i: nat, j: nat, mid: seq<Region>): seq<Region>
    requires i <= j <= |hs|
  {
    hs[..i] + mid + hs[j..]
  }

  lemma {:induction false} SplicedLength(hs: seq<Region>, i: nat, j: nat, mid: seq<Region>)
    requires i <= j <= |hs|
    ensures |Spliced(hs, i, j, mid)| == i + |mid| + |hs| - j
  {
  }

  lemma {:induction false} SplicedAt(hs: seq<Region>, i: nat, j: nat, mid: seq<Region>, k: nat)
    requires i <= j <= |hs| && k < i + |mid| + |hs| - j
    ensures |Spliced(hs, i, j, mid)| == i + |mid| + |hs| - j
    ensures Spliced(hs, i, j, mid)[k] == if k < i then hs[k] else if k < i + |mid| then mid[k - i]
          else hs[k - i - |mid| + j]
  {
  }

  /** Link `mid` in place of the holes `[i, j)`. */
  lemma {:induction false} Splice(m: Memory, m': Memory, w: nat, first: nat, first': nat, hs: seq<Region>, i: nat,
        j: nat, mid: seq<Region>)
    requires i <= j <= |hs| && Links(m, w, first, hs)
    requires forall k :: 0 <= k < |hs| && (k + 1 < i || j <= k) ==> SameHeader(m, m', w, hs[k].addr)
    requires Nodes(m', w, mid, Head(hs, j))
    requires var next := if mid == [] then Head(hs, j) else mid[0].addr;
             if i == 0 then first' == next
             else first' == first && Get(m', hs[i - 1].addr) == hs[i - 1].size && Get(m', hs[i - 1].addr + w) == next
    ensures Links(m', w, first', Spliced(hs, i, j, mid))
  {
    hide Spliced, Get;
    SplicedLength(hs, i, j, mid);
    var all := Spliced(hs, i, j, mid);
    if 0 < |all| {
      SplicedAt(hs, i, j, mid, 0);
    }
    forall k | 0 <= k < |all|
      ensures Node(m', w, all, k, 0)
    {
      SplicedAt(hs, i, j, mid, k);
      if k + 1 < |all| {
        SplicedAt(hs, i, j, mid, k + 1);
      }
      if k < i {
        assert Node(m, w, hs, k, 0);
      } else if k < i + |mid| {
        assert Node(m', w, mid, k - i, Head(hs, j));
      } else {
        assert Node(m, w, hs, k - i - |mid| + j, 0);
        assert SameHeader(m, m', w, hs[k - i - |mid| + j].addr);
      }
    }
  }

  /** The headers of `mid` written from the last to the first. */
  function Written(m: Memory, w: nat, mid: seq<Region>, after: nat): Memory {
    if mid == [] then m
    else Header(Written(m, w, mid[1..], after), w, mid[0].addr, mid[0].size, if |mid| > 1 then mid[1].addr else after)
  }

  lemma {:induction false} AlignedAlready(x: nat, m: nat)
    requires Multiple(x, m)
    ensures AlignUp(x, m) == x
  {
    MultipleSum(x, AlignUp(x, m), m);
  }

  // ----- inserting and merging, on values

  function Inserted(hs: seq<Region>, k: nat, r: Region): seq<Region>
    requires k <= |hs|
  {
    hs[..k] + [r] + hs[k..]
  }

  lemma {:induction false} InsertedOnly(r: Region)
    ensures Inserted([], 0, r) == [r]
  {
  }

  lemma {:induction false} InsertedSorted(hs: seq<Region>, w: nat, lo: nat, hi: nat, k: nat, r: Region)
    requires Separated(hs, w, lo, hi) && Sized(r, w, lo, hi) && k <= |hs|
    requires k > 0 ==> hs[k - 1].End() <= r.addr
    requires k < |hs| ==> r.End() <= hs[k].addr
    ensures Sorted(Inserted(hs, k, r), w, lo, hi)
    ensures if k == 0 then Loose(Inserted(hs, k, r), 0, 1) else Loose(Inserted(hs, k, r), k - 1, 2)
  {
    hide Multiple, Inserted;
    assert |Inserted(hs, k, r)| == |hs| + 1 by {
      InsertedLength(hs, k, r);
    }
    forall i | 0 <= i <= |hs|
      ensures Sized(Inserted(hs, k, r)[i], w, lo, hi)
      ensures i < k ==> Inserted(hs, k, r)[i].End() <= r.addr
      ensures i > k ==> r.End() <= Inserted(hs, k, r)[i].addr
    {
      InsertedAt(hs, k, r, i);
    }
    forall i, j | 0 <= i < j <= |hs|
      ensures Inserted(hs, k, r)[i].End() <= Inserted(hs, k, r)[j].addr
      ensures i != k && j != k ==> Inserted(hs, k, r)[i].End() < Inserted(hs, k, r)[j].addr
    {
      InsertedAt(hs, k, r, i);
      InsertedAt(hs, k, r, j);
    }
  }

  lemma {:induction false} InsertedLength(hs: seq<Region>, k: nat, r: Region)
    requires k <= |hs|
    ensures |Inserted(hs, k, r)| == |hs| + 1
  {
  }

  lemma {:induction false} InsertedAt(hs: seq<Region>, k: nat, r: Region, i: nat)
    requires k <= |hs| && i <= |hs|
    ensures Inserted(hs, k, r)[i] == if i < k then hs[i] else if i == k then r else hs[i - 1]
  {
  }

  lemma {:induction false} InsertedIn(hs: seq<Region>, k: nat, r: Region)
    requires k <= |hs|
    ensures Gains(Inserted(hs, k, r), hs, r)
    ensures Total(Inserted(hs, k, r)) == Total(hs) + r.size
  {
    Replaced(hs, k, k, [r]);
    assert hs[k..k] == [];
    assert Total([r]) == r.size;
    forall x: nat
      ensures In([r], x) <==> Has(r, x)
    {
      assert In([r], x) <==> Has([r][0], x);
    }
  }

  /** Holes `j` and `j + 1` do not touch. */
  predicate Apart(hs: seq<Region>, j: nat) {
    j + 1 < |hs| ==> hs[j].End() < hs[j + 1].addr
  }

  lemma {:induction false} Unchanged(m: Memory, hs: seq<Region>)
    ensures SameBytes(hs, hs) && Kept(m, m, hs)
  {
  }

  /** Only holes `c` to `c + n` may touch the ones after them. */
  ghost predicate Loose(hs: seq<Region>, c: nat, n: nat) {
    forall j :: 0 <= j < |hs| && !(c <= j < c + n) ==> Apart(hs, j)
  }

  lemma {:induction false} LooseStep(hs: seq<Region>, c: nat, n: nat)
    requires Loose(hs, c, n) && 0 < n && c < |hs| && Apart(hs, c)
    ensures Loose(hs, c + 1, n - 1)
    ensures c == |hs| - 1 ==> Loose(hs, c, 0)
  {
  }

  ghost predicate SameBytes(a: seq<Region>, b: seq<Region>) {
    forall x: nat :: In(a, x) <==> In(b, x)
  }

  /** The bytes of `a` are those of `b` and of `r`. */
  ghost predicate Gains(a: seq<Region>, b: seq<Region>, r: Region) {
    forall x: nat :: In(a, x) <==> In(b, x) || Has(r, x)
  }

  lemma {:induction false} AllApart(hs: seq<Region>, w: nat, lo: nat, hi: nat, c: nat)
    requires Sorted(hs, w, lo, hi) && Loose(hs, c, 0)
    ensures Separated(hs, w, lo, hi)
  {
    hide Multiple;
    forall i, j | 0 <= i < j < |hs|
      ensures hs[i].End() < hs[j].addr
    {
      assert Apart(hs, i);
      if i + 1 < j {
        assert hs[i + 1].End() <= hs[j].addr;
      }
    }
  }

  /** Changes only inside holes, twice. */
  lemma {:induction false} KeptTwice(m: Memory, m1: Memory, m2: Memory, hs: seq<Region>, hs1: seq<Region>)
    requires Kept(m, m1, hs) && Kept(m1, m2, hs1) && SameBytes(hs1, hs)
    ensures Kept(m, m2, hs)
  {
  }

  /** Words changed only in `r` or in the holes. */
  ghost predicate Changes(m: Memory, m': Memory, hs: seq<Region>, r: Region) {
    forall x :: Get(m', x) != Get(m, x) ==> Has(r, x) || In(hs, x)
  }

  lemma {:induction false} OneHole(w: nat, lo: nat, hi: nat, r: Region)
    requires Sized(r, w, lo, hi)
    ensures Separated([r], w, lo, hi) && Total([r]) == r.size && Total([]) == 0
  {
  }

  /** Linking and merging change only what is free afterwards. */
  lemma {:induction false} MergedKept(m: Memory, m1: Memory, m2: Memory, hs: seq<Region>, hs1: seq<Region>,
        hs2: seq<Region>, r: Region)
    requires Changes(m, m1, hs, r) && Kept(m1, m2, hs1) && SameBytes(hs2, hs1) && Gains(hs1, hs, r)
    ensures Kept(m, m2, hs2) && Gains(hs2, hs, r)
  {
  }

  lemma {:induction false} MadeKept(m: Memory, made: Memory, m': Memory, hs: seq<Region>, hs': seq<Region>, r: Region)
    requires Changes(m, made, hs, r) && Kept(made, m', hs') && Gains(hs', hs, r)
    ensures Kept(m, m', hs')
  {
  }

  lemma {:induction false} SameTwice(a: seq<Region>, b: seq<Region>, c: seq<Region>)
    requires SameBytes(a, b) && SameBytes(b, c)
    ensures SameBytes(a, c)
  {
  }

  function Joined(hs: seq<Region>, c: nat): seq<Region>
    requires c + 1 < |hs|
  {
    hs[..c] + [Region(hs[c].addr, hs[c].size + hs[c + 1].size)] + hs[c + 2..]
  }

  lemma {:induction false} JoinedAt(hs: seq<Region>, c: nat, j: nat)
    requires c + 1 < |hs| && hs[c].End() == hs[c + 1].addr && j < |hs| - 1
    ensures Joined(hs, c)[j].addr == hs[if j <= c then j else j + 1].addr
    ensures Joined(hs, c)[j].End() == hs[if j < c then j else j + 1].End()
    ensures Joined(hs, c)[j] == if j == c then Region(hs[c].addr, hs[c].size + hs[c + 1].size)
          else hs[if j < c then j else j + 1]
  {
  }

  lemma {:induction false} JoinedSorted(hs: seq<Region>, w: nat, lo: nat, hi: nat, c: nat)
    requires Sorted(hs, w, lo, hi) && c + 1 < |hs| && hs[c].End() == hs[c + 1].addr
    ensures Sorted(Joined(hs, c), w, lo, hi)
  {
    MultipleSum(hs[c].size, hs[c + 1].size, w);
    hide Multiple, Joined;
    assert |Joined(hs, c)| == |hs| - 1 by {
      JoinedLength(hs, c);
    }
    forall j | 0 <= j < |hs| - 1
      ensures Sized(Joined(hs, c)[j], w, lo, hi)
    {
      JoinedAt(hs, c, j);
    }
    forall i, j | 0 <= i < j < |hs| - 1
      ensures Joined(hs, c)[i].End() <= Joined(hs, c)[j].addr
    {
      JoinedAt(hs, c, i);
      JoinedAt(hs, c, j);
    }
  }

  lemma {:induction false} JoinedLength(hs: seq<Region>, c: nat)
    requires c + 1 < |hs|
    ensures |Joined(hs, c)| == |hs| - 1
  {
  }

  lemma {:induction false} JoinedIn(hs: seq<Region>, c: nat)
    requires c + 1 < |hs| && hs[c].End() == hs[c + 1].addr
    ensures SameBytes(Joined(hs, c), hs)
    ensures Total(Joined(hs, c)) == Total(hs)
  {
    var r := Region(hs[c].addr, hs[c].size + hs[c + 1].size);
    var two := hs[c..c + 2];
    Replaced(hs, c, c + 2, [r]);
    assert Total([r]) == r.size;
    assert Total(two) == r.size by {
      assert two == [hs[c]] + [hs[c + 1]];
      TotalConcat([hs[c]], [hs[c + 1]]);
      assert Total([hs[c]]) == hs[c].size && Total([hs[c + 1]]) == hs[c + 1].size;
    }
    forall x: nat
      ensures In([r], x) <==> In(two, x)
    {
      assert In([r], x) <==> Has([r][0], x);
      assert In(two, x) <==> Has(two[0], x) || Has(two[1], x);
    }
  }

  lemma {:induction false} LastEnd(hs: seq<Region>, k: nat, r: Region)
    requires k <= |hs|
    ensures |Inserted(hs, k, r)| == |hs| + 1
    ensures Inserted(hs, k, r)[|hs|] == if k == |hs| then r else hs[|hs| - 1]
    ensures k > 0 ==> Inserted(hs, k, r)[k - 1] == hs[k - 1]
    ensures Inserted(hs, k, r)[k] == r
  {
  }

  lemma {:induction false} AlignedEnd(w: nat, r: Region, lo: nat, hi: nat)
    requires Sized(r, w, lo, hi)
    ensures AlignUp(r.End(), w) == r.End()
  {
    MultipleSum(r.addr, r.size, w);
    AlignedAlready(r.End(), w);
  }

  // ----- the same changes in memory

  ghost predicate Clear(hs: seq<Region>, r: Region) {
    forall k :: 0 <= k < |hs| ==> hs[k].End() <= r.addr || r.End() <= hs[k].addr
  }

  /** The block `r` is a hole of its own, linked nowhere yet. */
  ghost predicate Made(m: Memory, w: nat, first: nat, hs: seq<Region>, lo: nat, hi: nat, r: Region) {
    && 0 < lo && Links(m, w, first, hs) && Separated(hs, w, lo, hi) && Sized(r, w, lo, hi) && Clear(hs, r)
    && Get(m, r.addr) == r.size && m == Header(m, w, r.addr, r.size, 0)
  }

  lemma {:induction false} MadeFacts(m: Memory, w: nat, first: nat, hs: seq<Region>, lo: nat, hi: nat, r: Region)
    requires Made(m, w, first, hs, lo, hi, r)
    ensures 0 < w && Get(m, r.addr) == r.size && m == Header(m, w, r.addr, r.size, 0) && 0 < lo <= r.addr
    ensures Links(m, w, first, hs) && Sorted(hs, w, lo, hi) && Sized(r, w, lo, hi)
  {
    hide Multiple;
  }

  lemma {:induction false} MadeAt(m: Memory, w: nat, first: nat, hs: seq<Region>, lo: nat, hi: nat, r: Region, k: nat)
    requires Made(m, w, first, hs, lo, hi, r) && k < |hs|
    ensures hs[k].addr != r.addr && if hs[k].addr < r.addr then hs[k].End() <= r.addr else r.End() <= hs[k].addr
  {
    assert Sized(hs[k], w, lo, hi);
  }

  /** Writing a header in a block that is not a hole leaves the list alone. */
  lemma {:induction false} MakeHoleLinks(m: Memory, w: nat, first: nat, hs: seq<Region>, lo: nat, hi: nat, r: Region)
    requires 0 < lo && Links(m, w, first, hs) && Separated(hs, w, lo, hi) && Sized(r, w, lo, hi) && Clear(hs, r)
    ensures var m' := Header(m, w, r.addr, r.size, 0);
            Made(m', w, first, hs, lo, hi, r) && Changes(m, m', hs, r)
  {
    var m' := Header(m, w, r.addr, r.size, 0);
    forall k | 0 <= k < |hs|
      ensures Node(m', w, hs, k, 0)
    {
      assert Node(m, w, hs, k, 0);
    }
  }

  /** `r` linked between holes `k - 1` and `k`. */
  lemma {:induction false} InsertLinks(m: Memory, w: nat, first: nat, hs: seq<Region>, lo: nat, hi: nat, k: nat,
        r: Region)
    requires Made(m, w, first, hs, lo, hi, r) && k <= |hs|
    ensures var m1 := if k == 0 then m else m[hs[k - 1].addr + w := r.addr];
            var m' := m1[r.addr + w := Head(hs, k)];
            && Links(m', w, if k == 0 then r.addr else first, Inserted(hs, k, r))
            && Changes(m, m', hs, r)
  {
    var m1 := if k == 0 then m else m[hs[k - 1].addr + w := r.addr];
    var m' := m1[r.addr + w := Head(hs, k)];
    forall j | 0 <= j < |hs|
      ensures Get(m', hs[j].addr) == Get(m, hs[j].addr)
      ensures j + 1 != k ==> SameHeader(m, m', w, hs[j].addr)
    {
      assert k > 0 && j < k - 1 ==> hs[j].End() < hs[k - 1].addr;
      assert k > 0 && k - 1 < j ==> hs[k - 1].End() < hs[j].addr;
    }
    assert Node(m', w, [r], 0, Head(hs, k));
    if k > 0 {
      assert Node(m, w, hs, k - 1, 0);
      assert Has(hs[k - 1], hs[k - 1].addr + w);
    }
    assert Inserted(hs, k, r) == Spliced(hs, k, k, [r]);
    Splice(m, m', w, first, if k == 0 then r.addr else first, hs, k, k, [r]);
  }

  /** Hole `c` absorbs the next one. */
  function Merged(m: Memory, w: nat, hole: nat, next: nat): Memory {
    m[next + w := 0][hole + w := Get(m, next + w)][hole := Get(m, hole) + Get(m, next)]
  }

  /** Only words of the two holes change. */
  lemma {:induction false} MergeChanges(m: Memory, w: nat, hs: seq<Region>, lo: nat, hi: nat, c: nat)
    requires Sorted(hs, w, lo, hi) && c + 1 < |hs|
    ensures hs[c].addr + 2 * w <= hs[c].End() && hs[c + 1].addr + 2 * w <= hs[c + 1].End() && 0 < w
    ensures var m' := Merged(m, w, hs[c].addr, hs[c + 1].addr);
            forall x :: Get(m', x) != Get(m, x) ==> Has(hs[c], x) || Has(hs[c + 1], x)
  {
    hide Multiple;
    assert Sized(hs[c], w, lo, hi) && Sized(hs[c + 1], w, lo, hi);
  }

  lemma {:induction false} MergeOthers(m: Memory, w: nat, hs: seq<Region>, lo: nat, hi: nat, c: nat, j: nat)
    requires Sorted(hs, w, lo, hi) && c + 1 < |hs| && j < |hs| && j != c && j != c + 1
    ensures SameHeader(m, Merged(m, w, hs[c].addr, hs[c + 1].addr), w, hs[j].addr)
  {
    hide Multiple, Merged;
    MergeChanges(m, w, hs, lo, hi, c);
    assert Sized(hs[j], w, lo, hi);
    assert if j < c then hs[j].End() <= hs[c].addr else hs[c + 1].End() <= hs[j].addr;
  }

  lemma {:induction false} MergeLinks(m: Memory, w: nat, first: nat, hs: seq<Region>, lo: nat, hi: nat, c: nat)
    requires Links(m, w, first, hs) && Sorted(hs, w, lo, hi) && c + 1 < |hs| && hs[c].End() == hs[c + 1].addr
    ensures hs[c].addr + 2 * w <= hs[c + 1].addr
    ensures var m' := Merged(m, w, hs[c].addr, hs[c + 1].addr);
            Links(m', w, first, Joined(hs, c)) && Kept(m, m', hs)
  {
    hide Sorted, Joined;
    var a, b := hs[c], hs[c + 1];
    var m' := Merged(m, w, a.addr, b.addr);
    MergeChanges(m, w, hs, lo, hi, c);
    assert Node(m, w, hs, c, 0) && Node(m, w, hs, c + 1, 0);
    forall j | 0 <= j < |hs| && j != c && j != c + 1
      ensures SameHeader(m, m', w, hs[j].addr)
    {
      MergeOthers(m, w, hs, lo, hi, c, j);
    }
    var mid := [Region(a.addr, a.size + b.size)];
    assert Node(m', w, mid, 0, Head(hs, c + 2));
    if c > 0 {
      assert Node(m, w, hs, c - 1, 0);
      assert SameHeader(m, m', w, hs[c - 1].addr);
    }
    JoinedSpliced(hs, c);
    Splice(m, m', w, first, first, hs, c, c + 2, mid);
  }

  lemma {:induction false} JoinedSpliced(hs: seq<Region>, c: nat)
    requires c + 1 < |hs|
    ensures Joined(hs, c) == Spliced(hs, c, c + 2, [Region(hs[c].addr, hs[c].size + hs[c + 1].size)])
  {
  }

  lemma {:induction false} Place(m: Memory, w: nat, first: nat, hs: seq<Region>, lo: nat, hi: nat, top: nat, k: nat,
        r: Region)
    requires Made(m, w, first, hs, lo, hi, r) && k <= |hs|
    requires (k > 0 ==> hs[k - 1].addr < r.addr) && (k < |hs| ==> r.addr < hs[k].addr)
    requires Room(w, r.End(), top) && (hs != [] ==> Room(w, hs[|hs| - 1].End(), top))
    ensures |Inserted(hs, k, r)| == |hs| + 1 && Inserted(hs, k, r)[k] == r
    ensures k > 0 ==> Inserted(hs, k, r)[k - 1] == hs[k - 1]
    ensures Sorted(Inserted(hs, k, r), w, lo, hi)
    ensures if k == 0 then Loose(Inserted(hs, k, r), 0, 1) else Loose(Inserted(hs, k, r), k - 1, 2)
    ensures Room(w, Inserted(hs, k, r)[|hs|].End(), top) && Gains(Inserted(hs, k, r), hs, r)
    ensures Total(Inserted(hs, k, r)) == Total(hs) + r.size
  {
    LastEnd(hs, k, r);
    InsertedIn(hs, k, r);
    InsertedSorted(hs, w, lo, hi, k, r);
  }

  /** What a cursor reads at hole `c`. */
  lemma {:induction false} AtCursor(m: Memory, w: nat, first: nat, hs: seq<Region>, lo: nat, hi: nat, c: nat)
    requires 0 < lo && Links(m, w, first, hs) && Sorted(hs, w, lo, hi) && c < |hs|
    ensures c + 1 < |hs| ==> Head(hs, c + 1) == hs[c + 1].addr
    ensures 0 < w && Get(m, hs[c].addr) == hs[c].size && Get(m, hs[c].addr + w) == Head(hs, c + 1) && 0 < hs[c].addr
    ensures Head(hs, c + 1) == 0 <==> c == |hs| - 1
    ensures AlignUp(hs[c].End(), w) == hs[c].End()
    ensures c + 1 < |hs| ==> hs[c].End() <= hs[c + 1].addr && 2 * w <= hs[c].size
  {
    assert Node(m, w, hs, c, 0);
    AlignedEnd(w, hs[c], lo, hi);
  }

  lemma {:induction false} AtHead(m: Memory, w: nat, first: nat, hs: seq<Region>, lo: nat, hi: nat)
    requires 0 < lo && Links(m, w, first, hs) && Sorted(hs, w, lo, hi)
    ensures first == 0 <==> hs == []
    ensures hs != [] ==> first == hs[0].addr
  {
    assert hs != [] ==> Sized(hs[0], w, lo, hi);
  }

  lemma {:induction false} SeparatedSorted(hs: seq<Region>, w: nat, lo: nat, hi: nat)
    requires Separated(hs, w, lo, hi)
    ensures Sorted(hs, w, lo, hi)
    ensures Loose(hs, 0, 0)
  {
  }

  /** After address `e` the heap ends, or there is room for a header. */
  predicate Room(w: nat, e: nat, top: nat) {
    top <= e || e + 2 * w <= top
  }

  lemma {:induction false} WrittenOne(m: Memory, w: nat, a: Region, after: nat)
    ensures Written(m, w, [a], after) == Header(m, w, a.addr, a.size, after)
  {
    assert [a][1..] == [];
  }

  lemma {:induction false} WrittenTwo(m: Memory, w: nat, a: Region, b: Region, after: nat)
    ensures Written(m, w, [a, b], after) == Header(Header(m, w, b.addr, b.size, after), w, a.addr, a.size, b.addr)
  {
    assert [a, b][1..] == [b];
    WrittenOne(m, w, b, after);
  }

  function Linked(m: Memory, w: nat, prev: nat, next: nat): Memory {
    if prev == 0 then m else m[prev + w := next]
  }

  /** What the surgery of `split_current` writes. */
  function Relinked(m: Memory, w: nat, prev: nat, hole: nat, mid: seq<Region>, next: nat): Memory {
    Linked(Written(Linked(m, w, prev, 0)[hole + w := 0], w, mid, next), w, prev, if mid == [] then next
          else mid[0].addr)
  }

  lemma {:induction false} SplitLinks(m: Memory, w: nat, first: nat, hs: seq<Region>, lo: nat, hi: nat, i: nat,
        ptr: nat, size: nat, align: nat)
    requires 0 < w && 0 < lo && 0 < align && 2 * w <= size && i < |hs| && Links(m, w, first, hs)
    requires Separated(hs, w, lo, hi) && Fits(w, hs[i], ptr, size, align)
    ensures hs[i].addr <= ptr && ptr + size <= hs[i].End()
    ensures Get(m, hs[i].addr + w) == Head(hs, i + 1) && (i > 0 ==> hs[i - 1].addr != 0)
    ensures var mid, next := Pieces(hs[i], ptr, size), Head(hs, i + 1);
            var prev := if i == 0 then 0 else hs[i - 1].addr;
            var head := if mid == [] then next else mid[0].addr;
            var m' := Relinked(m, w, prev, hs[i].addr, mid, next);
            Kept(m, m', hs) && Links(m', w, if i == 0 then head else first, Cut(hs, i, ptr, size))
  {
    hide Multiple;
    var mid, next := Pieces(hs[i], ptr, size), Head(hs, i + 1);
    assert Node(m, w, hs, i, 0);
    var prev := if i == 0 then 0 else hs[i - 1].addr;
    var m' := Relinked(m, w, prev, hs[i].addr, mid, next);
    PiecesWritten(m, w, hs[i], ptr, size, prev, next);
    forall k | 0 <= k < |hs| && k != i
      ensures Get(m', hs[k].addr) == Get(m, hs[k].addr)
      ensures k + 1 != i ==> SameHeader(m, m', w, hs[k].addr)
    {
      assert k < i ==> hs[k].End() < hs[i].addr;
      assert k + 1 < i ==> hs[k].End() < hs[i - 1].addr;
    }
    if i > 0 {
      assert Node(m, w, hs, i - 1, 0);
      assert Has(hs[i - 1], hs[i - 1].addr + w);
    }
    assert Cut(hs, i, ptr, size) == Spliced(hs, i, i + 1, mid);
    Splice(m, m', w, first, if i > 0 then first else if mid == [] then next else mid[0].addr, hs, i, i + 1, mid);
  }

  /** The paddings are linked to each other, and nothing outside the hole changes. */
  lemma {:induction false} PiecesWritten(m: Memory, w: nat, h: Region, ptr: nat, size: nat, prev: nat, next: nat)
    requires 0 < w && h.addr <= ptr && ptr + size <= h.End() && (h.addr == ptr || h.addr + 2 * w <= ptr)
    requires 2 * w <= size
    requires ptr + size == h.End() || ptr + size + 2 * w <= h.End()
    requires prev + 2 * w <= h.addr + (if prev == 0 then 2 * w else 0)
    ensures var mid := Pieces(h, ptr, size);
            var m' := Relinked(m, w, prev, h.addr, mid, next);
            && Nodes(m', w, mid, next)
            && (prev != 0 ==> Get(m', prev + w) == if mid == [] then next else mid[0].addr)
            && (forall x :: Get(m', x) != Get(m, x) ==> Has(h, x) || (prev != 0 && x == prev + w))
  {
    var mid := Pieces(h, ptr, size);
    var m' := Relinked(m, w, prev, h.addr, mid, next);
    var base := Linked(m, w, prev, 0)[h.addr + w := 0];
    if |mid| == 2 {
      WrittenTwo(base, w, mid[0], mid[1], next);
      assert mid == [mid[0], mid[1]];
      assert Node(m', w, mid, 0, next) && Node(m', w, mid, 1, next);
    } else if |mid| == 1 {
      WrittenOne(base, w, mid[0], next);
      assert mid == [mid[0]];
      assert Node(m', w, mid, 0, next);
    }
  }

  // ----- from the hole list to the heap

  /** A live block touches no hole, and there is room around it. */
  lemma {:induction false} BlockPlace(w: nat, hs: seq<Region>, live: Live, lo: nat, hi: nat, b: nat)
    requires Fair(w, hs, live, lo, hi) && b in live
    ensures var r := Region(b, BlockSize(w, live[b]));
            && Sized(r, w, lo, hi) && Clear(hs, r) && (b == lo || lo + 2 * w <= b) && Room(w, r.End(), hi)
    ensures hs != [] ==> Room(w, hs[|hs| - 1].End(), hi)
  {
    hide BlockSize, Multiple;
    GapBefore(w, hs, live, lo, hi, b);
    GapAfterBlock(w, hs, live, lo, hi, b);
    if hs != [] {
      GapAfterHole(w, hs, live, lo, hi, |hs| - 1);
    }
    var r := Region(b, BlockSize(w, live[b]));
    forall k | 0 <= k < |hs|
      ensures hs[k].End() <= r.addr || r.End() <= hs[k].addr
    {
      assert !Has(hs[k], b) by {
        assert Owns(w, live, b, b);
        assert !In(hs, b);
      }
      assert !Has(r, hs[k].addr) by {
        assert Has(hs[k], hs[k].addr);
        assert In(hs, hs[k].addr);
        assert !Owns(w, live, b, hs[k].addr);
      }
    }
  }

  /** What is used is not free. */
  lemma {:induction false} UsedKept(w: nat, hs: seq<Region>, live: Live, lo: nat, hi: nat, m: Memory, m': Memory)
    requires Fair(w, hs, live, lo, hi) && Kept(m, m', hs)
    ensures forall x :: Used(w, live, x) ==> Get(m', x) == Get(m, x)
  {
    hide BlockSize, Multiple;
    forall x | Used(w, live, x)
      ensures !In(hs, x)
    {
      var b :| Owns(w, live, b, x);
    }
  }

  lemma {:induction false} WriteUsed(w: nat, first: nat, hs: seq<Region>, live: Live, lo: nat, hi: nat, m: Memory,
        a: nat, v: nat)
    requires Fair(w, hs, live, lo, hi) && Links(m, w, first, hs) && Used(w, live, a)
    ensures Links(m[a := v], w, first, hs)
  {
    hide BlockSize, Multiple;
    var b :| Owns(w, live, b, a);
    assert !In(hs, a);
    var m' := m[a := v];
    forall k | 0 <= k < |hs|
      ensures Node(m', w, hs, k, 0)
    {
      assert Node(m, w, hs, k, 0);
      assert !Has(hs[k], a);
    }
  }

  ghost predicate NoFit(w: nat, hs: seq<Region>, i: nat, size: nat, align: nat)
    requires 0 < align
  {
    forall j, x :: 0 <= j < i && j < |hs| ==> !Fits(w, hs[j], x, size, align)
  }

  lemma {:induction false} LowestFit(w: nat, hs: seq<Region>, lo: nat, hi: nat, i: nat, x: nat, size: nat, align: nat)
    requires 0 < align && i < |hs| && Separated(hs, w, lo, hi) && NoFit(w, hs, i, size, align)
    requires Fits(w, hs[i], x, size, align)
    requires forall y :: Fits(w, hs[i], y, size, align) ==> x <= y
    ensures FitsSomewhere(w, hs, x, size, align) && forall y :: FitsSomewhere(w, hs, y, size, align) ==> x <= y
  {
    hide Multiple;
    forall y | FitsSomewhere(w, hs, y, size, align)
      ensures x <= y
    {
      var j :| 0 <= j < |hs| && Fits(w, hs[j], y, size, align);
      assert i < j ==> hs[i].End() < hs[j].addr;
    }
  }

  lemma {:induction false} BlockSizeSame(w: nat, size: nat, align: nat)
    requires 0 < w && Multiple(size, w) && 2 * w <= size
    ensures BlockSize(w, Layout(size, align)) == size
  {
    AlignedAlready(size, w);
  }

  /** The top grows by whole words. */
  lemma {:induction false} GrowPlace(w: nat, hs: seq<Region>, live: Live, lo: nat, hi: nat, size: nat)
    requires Fair(w, hs, live, lo, hi) && Multiple(hi, w) && Multiple(size, w) && 2 * w <= size && lo + 2 * w <= hi
    ensures var r := Region(hi, size);
            Separated(hs, w, lo, hi + size) && Sized(r, w, lo, hi + size) && Clear(hs, r)
    ensures hs != [] ==> Room(w, hs[|hs| - 1].End(), hi)
  {
    hide Multiple;
    if hs != [] {
      GapAfterHole(w, hs, live, lo, hi, |hs| - 1);
    }
  }

  lemma {:induction false} WholeHeap(w: nat, m: Memory, addr: nat, size: nat)
    requires 0 < w && 0 < addr && 2 * w <= size && Multiple(addr, w) && Multiple(size, w)
    ensures var r := Region(addr, size);
            Fair(w, [r], map[], addr, addr + size) && Links(Header(m, w, addr, size, 0), w, addr, [r])
                  && Total([r]) == size
  {
    hide Multiple;
    var r := Region(addr, size);
    OneHole(w, addr, addr + size, r);
    assert Node(Header(m, w, addr, size, 0), w, [r], 0, 0);
    forall x: nat | addr <= x < addr + size
      ensures In([r], x) && !Used(w, map[], x)
    {
      assert Has([r][0], x);
    }
  }

  class List {
    const w: nat
    const limit: nat // isize::MAX
    var first: nat
    var bottom: nat
    var top: nat
    var pending: nat
    var mem: Memory
    ghost var holes: seq<Region>
    ghost var live: Live

    /** The list is linked in memory, and is what the live blocks leave. */
    ghost predicate Valid()
      reads this
    {
      && PowerOfTwo(w) && 2 <= w <= 128 && 0 < bottom && Multiple(bottom, w) && Multiple(top, w)
            && bottom + 2 * w <= top
      && pending < 2 * w && Links(mem, w, first, holes) && Fair(w, holes, live, bottom, top)
    }

    method SetNext(hole: nat, next: nat)
      modifies this`mem
      ensures mem == old(mem)[hole + w := next]
    {
      mem := mem[hole + w := next];
    }

    /** Link of the stub, for `prev` 0, or of a hole. */
    method SetPrevNext(prev: nat, next: nat)
      modifies this`mem, this`first
      ensures prev == 0 ==> first == next && mem == old(mem)
      ensures prev != 0 ==> first == old(first) && mem == old(mem)[prev + w := next]
    {
      if prev == 0 {
        first := next;
      } else {
        SetNext(prev, next);
      }
    }

    method MakeHole(addr: nat, size: nat)
      modifies this`mem
      ensures mem == Header(old(mem), w, addr, size, 0)
    {
      mem := Header(mem, w, addr, size, 0);
    }

    /** The last hole grows to the top when too little is left after it for another. */
    method CheckMergeTop(node: nat)
      requires 0 < w
      modifies this`mem
      ensures var end := node + Get(old(mem), node);
              mem == if end < top < AlignUp(end, w) + 2 * w then old(mem)[node := Get(old(mem), node) + (top - end)]
                    else old(mem)
    {
      var end := node + Get(mem, node);
      if end < top {
        var nextHoleEnd := AlignUp(end, w) + 2 * w;
        if nextHoleEnd > top {
          mem := mem[node := Get(mem, node) + (top - end)];
        }
      }
    }

    /** The first hole is moved down to the bottom when too little is left before it. */
    method CheckMergeBottom(node: nat) returns (hole: nat)
      requires bottom <= node
      modifies this`mem
      ensures bottom + 2 * w > node ==>
            hole == bottom && mem == Header(old(mem), w, bottom, Get(old(mem), node) + (node - bottom), 0)
      ensures bottom + 2 * w <= node ==> hole == node && mem == old(mem)
    {
      if bottom + 2 * w > node {
        var size := Get(mem, node) + (node - bottom);
        MakeHole(bottom, size);
        hole := bottom;
      } else {
        hole := node;
      }
    }

    /** Cut a block out of one hole, at the lowest address that leaves nothing or room
        for a header on either side; the list is unchanged when there is none. */
    method SplitCurrent(prev: nat, hole: nat, size: nat, align: nat, ghost i: nat) returns (ok: bool, ptr: nat)
      requires PowerOfTwo(w) && PowerOfTwo(align) && 2 * w <= size && Multiple(size, w) && 0 < bottom
      requires Links(mem, w, first, holes) && Separated(holes, w, bottom, top)
      requires i < |holes| && hole == holes[i].addr && prev == (if i == 0 then 0 else holes[i - 1].addr)
      modifies this`mem, this`first, this`holes
      ensures Links(mem, w, first, holes) && Kept(old(mem), mem, old(holes))
      ensures ok ==> Fits(w, old(holes)[i], ptr, size, align) && Multiple(ptr, w)
      ensures ok ==> holes == Cut(old(holes), i, ptr, size)
      ensures ok ==> forall x :: Fits(w, old(holes)[i], x, size, align) ==> ptr <= x
      ensures !ok ==> mem == old(mem) && first == old(first) && holes == old(holes)
      ensures !ok ==> forall x :: !Fits(w, holes[i], x, size, align)
    {
      ghost var h := holes[i];
      assert Node(mem, w, holes, i, 0);
      forall x | Fits(w, h, x, size, align)
        ensures Candidate(w, h, align) <= x && Fits(w, h, Candidate(w, h, align), size, align)
      {
        CandidateIsLowest(w, h, size, align, x);
      }
      CandidateIsAligned(w, h, align);
      ok, ptr := false, 0;
      var holeSize := Get(mem, hole);
      if holeSize < size {
        return;
      }
      var frontPadding, alignedAddr := 0, hole;
      if hole != AlignUp(hole, align) {
        alignedAddr := AlignUp(hole + 2 * w, align);
        frontPadding := alignedAddr - hole;
      }
      assert alignedAddr == Candidate(w, h, align);
      var allocationEnd, holeEnd := alignedAddr + size, hole + holeSize;
      if allocationEnd > holeEnd {
        return;
      }
      MultipleSum(alignedAddr, size, w);
      AlignedAlready(allocationEnd, w);
      var backPadding, backStart := holeEnd - allocationEnd, AlignUp(allocationEnd, w);
      if backPadding != 0 && backStart + 2 * w > holeEnd {
        return;
      }
      assert Fits(w, h, alignedAddr, size, align);
      ok, ptr := true, alignedAddr;
      Relink(prev, hole, frontPadding, backStart, backPadding, ptr, size, align, i);
    }

    /** The surgery of `split_current`: the hole gives way to its paddings. */
    method Relink(prev: nat, hole: nat, frontPadding: nat, backStart: nat, backPadding: nat, ptr: nat, size: nat,
          align: nat, ghost i: nat)
      requires 0 < w && 0 < bottom && 0 < align && 2 * w <= size && Links(mem, w, first, holes)
      requires Separated(holes, w, bottom, top)
      requires i < |holes| && hole == holes[i].addr && prev == (if i == 0 then 0 else holes[i - 1].addr)
      requires Fits(w, holes[i], ptr, size, align)
      requires frontPadding == ptr - hole && backStart == ptr + size && backPadding == holes[i].End() - backStart
      modifies this`mem, this`first, this`holes
      ensures Links(mem, w, first, holes) && Kept(old(mem), mem, old(holes)) && holes == Cut(old(holes), i, ptr, size)
    {
      hide Cut, Separated, Links, Fits, Kept, Get, PowerOfTwo;
      SplitLinks(mem, w, first, holes, bottom, top, i, ptr, size, align);
      ghost var mid := Pieces(holes[i], ptr, size);
      var next := Get(mem, hole + w);
      SetPrevNext(prev, 0);
      SetNext(hole, 0);
      ghost var base := mem;
      if frontPadding == 0 && backPadding == 0 {
        assert mid == [];
        SetPrevNext(prev, next);
      } else if frontPadding == 0 {
        assert mid == [Region(backStart, backPadding)];
        WrittenOne(base, w, mid[0], next);
        mem := Header(mem, w, backStart, backPadding, next);
        SetPrevNext(prev, backStart);
      } else if backPadding == 0 {
        assert mid == [Region(hole, frontPadding)];
        WrittenOne(base, w, mid[0], next);
        mem := Header(mem, w, hole, frontPadding, next);
        SetPrevNext(prev, hole);
      } else {
        assert mid == [Region(hole, frontPadding), Region(backStart, backPadding)];
        WrittenTwo(base, w, mid[0], mid[1], next);
        mem := Header(mem, w, backStart, backPadding, next);
        mem := Header(mem, w, hole, frontPadding, backStart);
        SetPrevNext(prev, hole);
      }
      assert mem == Relinked(old(mem), w, prev, hole, mid, next);
      holes := Cut(holes, i, ptr, size);
    }

    /** Merge the hole with up to `max` following holes that it touches. */
    method TryMergeNextN(start: nat, max: nat, ghost from: nat, ghost hi: nat)
      requires 0 < w && 0 < bottom && Links(mem, w, first, holes) && Sorted(holes, w, bottom, hi) && from < |holes|
      requires start == holes[from].addr
      requires Loose(holes, from, max)
      requires Room(w, holes[|holes| - 1].End(), top)
      modifies this`mem, this`holes
      ensures Links(mem, w, first, holes) && Separated(holes, w, bottom, hi) && Total(holes) == Total(old(holes))
      ensures SameBytes(holes, old(holes))
      ensures Kept(old(mem), mem, old(holes))
    {
      hide Links, Sorted, Separated, Total, In, Get, AlignUp, Multiple, Loose, SameBytes, Kept;
      var hole := start;
      ghost var c: nat := from;
      Unchanged(mem, holes);
      for k := 0 to max
        invariant Links(mem, w, first, holes) && Sorted(holes, w, bottom, hi) && c < |holes| && hole == holes[c].addr
        invariant Loose(holes, c, max - k)
        invariant Room(w, holes[|holes| - 1].End(), top) && Total(holes) == Total(old(holes))
        invariant SameBytes(holes, old(holes))
        invariant Kept(old(mem), mem, old(holes))
      {
        ghost var mem0, holes0 := mem, holes;
        AtCursor(mem, w, first, holes, bottom, hi, c);
        var next := Get(mem, hole + w);
        if next == 0 {
          LooseStep(holes, c, max - k);
          CheckMergeTop(hole);
          assert mem == mem0;
          AllApart(holes, w, bottom, hi, c);
          return;
        }
        if hole + Get(mem, hole) == next {
          Merge(hole, next, c, hi, max - k);
          KeptTwice(old(mem), mem0, mem, old(holes), holes0);
          SameTwice(holes, holes0, old(holes));
        } else {
          LooseStep(holes, c, max - k);
          hole, c := next, c + 1;
        }
      }
      AllApart(holes, w, bottom, hi, c);
    }

    method Merge(hole: nat, next: nat, ghost c: nat, ghost hi: nat, ghost n: nat)
      requires 0 < w && Links(mem, w, first, holes) && Sorted(holes, w, bottom, hi) && c + 1 < |holes|
      requires hole == holes[c].addr && next == holes[c + 1].addr == holes[c].End()
      requires 0 < n && Loose(holes, c, n)
      modifies this`mem, this`holes
      ensures Links(mem, w, first, holes) && Sorted(holes, w, bottom, hi) && c < |holes| && hole == holes[c].addr
      ensures Loose(holes, c, n - 1)
      ensures holes[|holes| - 1].End() == old(holes[|holes| - 1].End()) && Total(holes) == Total(old(holes))
      ensures SameBytes(holes, old(holes))
      ensures Kept(old(mem), mem, old(holes))
    {
      hide Multiple, Joined, In, Links, Sorted, Total;
      JoinedSorted(holes, w, bottom, hi, c);
      JoinedIn(holes, c);
      JoinedLength(holes, c);
      MergeLinks(mem, w, first, holes, bottom, hi, c);
      ghost var before := holes;
      var nextSize, nextNext := Get(mem, next), Get(mem, next + w);
      SetNext(next, 0);
      SetNext(hole, nextNext);
      mem := mem[hole := Get(mem, hole) + nextSize];
      holes := Joined(holes, c);
      assert mem == Merged(old(mem), w, hole, next);
      JoinedAt(before, c, |before| - 2);
      JoinedAt(before, c, c);
      forall j | 0 <= j < |holes| && !(c <= j < c + n - 1)
        ensures Apart(holes, j)
      {
        JoinedAt(before, c, j);
        assert Apart(before, if j < c then j else j + 1);
        if j + 1 < |holes| {
          JoinedAt(before, c, j + 1);
        }
      }
    }

    /** Before the first hole. */
    method TryInsertBack(node: nat, ghost r: Region, ghost hi: nat) returns (ok: bool)
      requires Made(mem, w, first, holes, bottom, hi, r) && node == r.addr && holes != []
      requires node == bottom || bottom + 2 * w <= node
      modifies this`mem, this`first, this`holes
      ensures ok <==> r.addr < old(holes)[0].addr
      ensures !ok ==> mem == old(mem) && first == old(first) && holes == old(holes)
      ensures ok ==> holes == Inserted(old(holes), 0, r) && Links(mem, w, first, holes) && first == node
      ensures ok ==> Changes(old(mem), mem, old(holes), r)
    {
      hide Made, Links, Changes, Inserted, Multiple, Sorted;
      MadeFacts(mem, w, first, holes, bottom, hi, r);
      AtHead(mem, w, first, holes, bottom, hi);
      MadeAt(mem, w, first, holes, bottom, hi, r, 0);
      ok := node < first;
      if ok {
        assert node + Get(mem, node) <= first;
        InsertLinks(mem, w, first, holes, bottom, hi, 0, r);
        var hole := first;
        var low := CheckMergeBottom(node);
        assert low == node && mem == old(mem);
        first := low;
        SetNext(low, hole);
        holes := Inserted(holes, 0, r);
      }
    }

    /** After the hole at the cursor. */
    method TryInsertAfter(hole: nat, node: nat, ghost i: nat, ghost r: Region, ghost hi: nat) returns (ok: bool)
      requires Made(mem, w, first, holes, bottom, hi, r) && node == r.addr && i < |holes| && hole == holes[i].addr
      requires hole < node
      modifies this`mem, this`holes
      ensures ok <==> i + 1 == |old(holes)| || r.addr < old(holes)[i + 1].addr
      ensures !ok ==> mem == old(mem) && holes == old(holes)
      ensures ok ==> holes == Inserted(old(holes), i + 1, r) && Links(mem, w, first, holes)
      ensures ok ==> Changes(old(mem), mem, old(holes), r)
    {
      hide Made, Links, Changes, Inserted, Multiple, Sorted;
      MadeFacts(mem, w, first, holes, bottom, hi, r);
      AtCursor(mem, w, first, holes, bottom, hi, i);
      MadeAt(mem, w, first, holes, bottom, hi, r, i);
      if i + 1 < |holes| {
        MadeAt(mem, w, first, holes, bottom, hi, r, i + 1);
      }
      var next := Get(mem, hole + w);
      if next != 0 {
        if node < next {
          assert node + Get(mem, node) <= next;
        } else {
          return false;
        }
      }
      assert hole + Get(mem, hole) <= node;
      InsertLinks(mem, w, first, holes, bottom, hi, i + 1, r);
      SetNext(hole, node);
      SetNext(node, next);
      holes := Inserted(holes, i + 1, r);
      ok := true;
    }

    /** The only hole there is. */
    method InsertOnly(node: nat, ghost r: Region, ghost hi: nat)
      requires Made(mem, w, first, holes, bottom, hi, r) && node == r.addr && holes == [] && Room(w, r.End(), top)
      requires node == bottom || bottom + 2 * w <= node
      modifies this`mem, this`first, this`holes
      ensures holes == [r] && Links(mem, w, first, holes) && mem == old(mem)
    {
      MadeFacts(mem, w, first, holes, bottom, hi, r);
      AlignedEnd(w, r, bottom, hi);
      hide Made, Multiple, AlignUp;
      var hole := CheckMergeBottom(node);
      CheckMergeTop(hole);
      assert hole == node && mem == old(mem);
      first := hole;
      holes := [r];
      assert Node(mem, w, holes, 0, 0);
    }

    /** Walk to the last hole before the block and link it there. */
    method InsertLater(node: nat, ghost r: Region, ghost hi: nat)
      requires Made(mem, w, first, holes, bottom, hi, r) && node == r.addr && holes != [] && holes[0].addr < node
      requires first == holes[0].addr
      requires Room(w, r.End(), top) && Room(w, holes[|holes| - 1].End(), top)
      modifies this`mem, this`holes
      ensures Links(mem, w, first, holes) && Separated(holes, w, bottom, hi)
      ensures Total(holes) == Total(old(holes)) + r.size
      ensures Gains(holes, old(holes), r) && Kept(old(mem), mem, holes)
    {
      hide Links, Separated, Sorted, Total, In, Get, Inserted, Gains, Kept, SameBytes, Loose, Made, Changes;
      ghost var hs := holes;
      MadeFacts(mem, w, first, hs, bottom, hi, r);
      var hole := first;
      ghost var i: nat := 0;
      var done := TryInsertAfter(hole, node, i, r, hi);
      while !done
        invariant i < |hs| && hole == hs[i].addr < node
        invariant !done ==> mem == old(mem) && holes == hs && i + 1 < |hs| && hs[i + 1].addr <= node
        invariant done ==> (i + 1 == |hs| || node < hs[i + 1].addr) && holes == Inserted(hs, i + 1, r)
        invariant done ==> Links(mem, w, first, holes) && Changes(old(mem), mem, hs, r)
        decreases |hs| - i
      {
        AtCursor(mem, w, first, holes, bottom, hi, i);
        MadeAt(mem, w, first, holes, bottom, hi, r, i + 1);
        hole, i := Get(mem, hole + w), i + 1;
        done := TryInsertAfter(hole, node, i, r, hi);
      }
      Place(old(mem), w, first, hs, bottom, hi, top, i + 1, r);
      ghost var mem1 := mem;
      TryMergeNextN(hole, 2, i, hi);
      MergedKept(old(mem), mem1, mem, hs, Inserted(hs, i + 1, r), holes, r);
    }

    /** Put the block at `addr` in its place in the list, and merge it with the holes
        it touches. The walk always finds a place, and none of the panics on the way
        can happen. */
    method Insert(addr: nat, size: nat, ghost hi: nat)
      requires 0 < bottom && Links(mem, w, first, holes) && Separated(holes, w, bottom, hi)
      requires Sized(Region(addr, size), w, bottom, hi) && Clear(holes, Region(addr, size))
      requires addr == bottom || bottom + 2 * w <= addr
      requires Room(w, addr + size, top) && (holes != [] ==> Room(w, holes[|holes| - 1].End(), top))
      modifies this`mem, this`first, this`holes
      ensures Links(mem, w, first, holes) && Separated(holes, w, bottom, hi) && Total(holes) == Total(old(holes)) + size
      ensures Gains(holes, old(holes), Region(addr, size))
      ensures Kept(old(mem), mem, holes)
    {
      hide Links, Separated, Sorted, Total, In, Get, Multiple, Inserted, Clear, Gains, Kept, SameBytes, Loose, Made,
           Changes;
      ghost var r, hs, first0 := Region(addr, size), holes, first;
      SeparatedSorted(hs, w, bottom, hi);
      AtHead(mem, w, first, hs, bottom, hi);
      MakeHoleLinks(mem, w, first, hs, bottom, hi, r);
      MakeHole(addr, size);
      ghost var made := mem;
      if first == 0 {
        InsertedOnly(r);
        Place(made, w, first, hs, bottom, hi, top, 0, r);
        InsertOnly(addr, r, hi);
        OneHole(w, bottom, hi, r);
        Unchanged(mem, holes);
      } else {
        MadeAt(made, w, first, hs, bottom, hi, r, 0);
        var back := TryInsertBack(addr, r, hi);
        if back {
          Place(made, w, first0, hs, bottom, hi, top, 0, r);
          ghost var mem1 := mem;
          TryMergeNextN(addr, 1, 0, hi);
          MergedKept(made, mem1, mem, hs, Inserted(hs, 0, r), holes, r);
        } else {
          InsertLater(addr, r, hi);
        }
      }
      MadeKept(old(mem), made, mem, hs, holes, r);
    }

    /** `HoleList::new`: one hole, made of the whole words of the given memory. */
    constructor (word: nat, max: nat, m: Memory, addr: nat, size: nat)
      requires PowerOfTwo(word) && 2 <= word <= 128 && 0 < addr && 2 * word <= size
      requires 2 * word <= AlignDown(size - (AlignUp(addr, word) - addr), word)
      ensures Valid() && w == word && limit == max && live == map[] && holes == [Region(bottom, top - bottom)]
      ensures addr <= bottom < addr + w && top + pending == addr + size && pending < w
      ensures Total(holes) == top - bottom
    {
      var aligned := AlignUp(addr, word);
      var requested := size - (aligned - addr);
      var whole := AlignDown(requested, word);
      w, limit := word, max;
      first, bottom, top, pending := aligned, aligned, aligned + whole, (requested - whole) % 256;
      mem := Header(m, word, aligned, whole, 0);
      holes, live := [Region(aligned, whole)], map[];
      WholeHeap(word, m, aligned, whole);
      MultipleSum(aligned, whole, word);
    }

    /** The size and alignment cannot be laid out in the address space. */
    predicate TooLarge(l: Layout)
      requires 0 < w
      reads this
    {
      limit < BlockSize(w, l) + (l.align - 1)
    }

    /** Try the holes from the lowest on. */
    method Search(size: nat, align: nat) returns (ok: bool, ptr: nat, ghost i: nat)
      requires PowerOfTwo(w) && PowerOfTwo(align) && 2 * w <= size && Multiple(size, w) && 0 < bottom
      requires Links(mem, w, first, holes) && Separated(holes, w, bottom, top)
      modifies this`mem, this`first, this`holes
      ensures !ok ==> mem == old(mem) && first == old(first) && holes == old(holes)
      ensures !ok ==> NoFit(w, holes, |holes|, size, align)
      ensures ok ==> Links(mem, w, first, holes) && Kept(old(mem), mem, old(holes)) && i < |old(holes)|
      ensures ok ==> NoFit(w, old(holes), i, size, align)
      ensures ok ==> Fits(w, old(holes)[i], ptr, size, align) && Multiple(ptr, w)
      ensures ok ==> holes == Cut(old(holes), i, ptr, size)
      ensures ok ==> forall x :: Fits(w, old(holes)[i], x, size, align) ==> ptr <= x
    {
      ghost var hs := holes;
      SeparatedSorted(hs, w, bottom, top);
      AtHead(mem, w, first, hs, bottom, top);
      hide Links, Get, Total, Fits, Cut, Separated, Kept, Sorted, NoFit, Multiple;
      ok, ptr, i := false, 0, 0;
      NoFitStep(w, hs, 0, size, align);
      if first == 0 {
        return;
      }
      var prev, hole := 0, first;
      while true
        invariant i < |hs| && hole == hs[i].addr && prev == (if i == 0 then 0 else hs[i - 1].addr)
        invariant mem == old(mem) && first == old(first) && holes == hs && NoFit(w, hs, i, size, align) && !ok
        decreases |hs| - i
      {
        AtCursor(mem, w, first, hs, bottom, top, i);
        ok, ptr := SplitCurrent(prev, hole, size, align, i);
        if ok {
          return;
        }
        NoFitStep(w, hs, i, size, align);
        var next := Get(mem, hole + w);
        if next == 0 {
          return;
        }
        prev, hole, i := hole, next, i + 1;
      }
    }

    /** First fit: the block is cut out of the lowest hole that admits a legal cut, at
        the lowest address that does; nothing changes when there is none. */
    method AllocateFirstFit(l: Layout) returns (r: Option<nat>)
      requires Valid() && PowerOfTwo(l.align)
      modifies this`mem, this`first, this`holes, this`live
      ensures Valid()
      ensures r.None? <==> TooLarge(l) || forall x :: !FitsSomewhere(w, old(holes), x, BlockSize(w, l), l.align)
      ensures r.None? ==> mem == old(mem) && first == old(first) && holes == old(holes) && live == old(live)
      ensures r.Some? ==> FitsSomewhere(w, old(holes), r.value, BlockSize(w, l), l.align)
      ensures r.Some? ==> forall x :: FitsSomewhere(w, old(holes), x, BlockSize(w, l), l.align) ==> r.value <= x
      ensures r.Some? ==> r.value !in old(live) && live == old(live)[r.value := l]
      ensures r.Some? ==> Total(holes) + BlockSize(w, l) == Total(old(holes))
      ensures forall x :: Used(w, old(live), x) ==> Get(mem, x) == old(Get(mem, x))
    {
      hide Links, Fair, Get, BlockSize, Total, Fits, Cut, Separated, Kept, Sorted, FitsSomewhere, NoFit, Multiple;
      ghost var hs := holes;
      FairSeparated(w, hs, live, bottom, top);
      var size := BlockSize(w, l);
      if limit < size + (l.align - 1) {
        return None;
      }
      var ok, ptr, i := Search(size, l.align);
      if !ok {
        NoFitAnywhere(w, hs, size, l.align);
        return None;
      }
      LowestFit(w, hs, bottom, top, i, ptr, size, l.align);
      CutFair(w, hs, live, bottom, top, i, ptr, l);
      FitInside(w, hs[i], ptr, size, l.align);
      CutIn(hs, w, bottom, top, i, ptr, size);
      UsedKept(w, hs, live, bottom, top, old(mem), mem);
      live := live[ptr := l];
      return Some(ptr);
    }

    /** The block becomes free; the other live blocks keep their contents. */
    method Deallocate(ptr: nat, l: Layout)
      requires Valid() && ptr in live && live[ptr] == l
      modifies this`mem, this`first, this`holes, this`live
      ensures Valid() && live == old(live) - {ptr} && Total(holes) == Total(old(holes)) + BlockSize(w, l)
      ensures forall x :: Used(w, live, x) ==> Get(mem, x) == old(Get(mem, x))
    {
      hide Links, Fair, Get, BlockSize, Total, Separated, Kept, Multiple, Gains;
      var size := BlockSize(w, l);
      FairSeparated(w, holes, live, bottom, top);
      BlockPlace(w, holes, live, bottom, top, ptr);
      Insert(ptr, size, top);
      GainsFair(w, old(holes), holes, live, bottom, top, ptr);
      live := live - {ptr};
      UsedKept(w, holes, live, bottom, top, old(mem), mem);
    }

    /** The memory after the top is added, in whole words once there are enough. */
    method Extend(more: nat)
      requires Valid()
      modifies this`mem, this`first, this`holes, this`top, this`pending
      ensures Valid() && top + pending == old(top) + old(pending) + more && top >= old(top)
      ensures Total(holes) == Total(old(holes)) + (top - old(top))
      ensures forall x :: Used(w, live, x) ==> Get(mem, x) == old(Get(mem, x))
    {
      hide Links, Fair, Get, BlockSize, Total, Separated, Kept, Multiple, Gains, AlignDown, PowerOfTwo, Used;
      var extendBy := pending + more;
      if extendBy < 2 * w {
        pending := extendBy % 256;
        return;
      }
      var newSize := AlignDown(extendBy, w);
      NewSize(w, extendBy);
      FairSeparated(w, holes, live, bottom, top);
      GrowPlace(w, holes, live, bottom, top, newSize);
      BlockSizeSame(w, newSize, 1);
      Insert(top, BlockSize(w, Layout(newSize, 1)), top + newSize);
      GrowFair(w, old(holes), holes, live, bottom, top, newSize);
      MultipleSum(top, newSize, w);
      top := top + newSize;
      pending := (extendBy - newSize) % 256;
      UsedKept(w, holes, live, bottom, top, old(mem), mem);
    }

    /** The owner of a live block may write anything in it. */
    method OwnerWrites(a: nat, v: nat)
      requires Valid() && Used(w, live, a)
      modifies this`mem
      ensures Valid() && mem == old(mem)[a := v]
    {
      WriteUsed(w, first, holes, live, bottom, top, mem, a, v);
      mem := mem[a := v];
    }
  }

  lemma {:induction false} FairSeparated(w: nat, hs: seq<Region>, live: Live, lo: nat, hi: nat)
    requires Fair(w, hs, live, lo, hi)
    ensures Separated(hs, w, lo, hi) && Sorted(hs, w, lo, hi)
  {
    hide BlockSize, Multiple;
  }

  lemma {:induction false} NoFitStep(w: nat, hs: seq<Region>, i: nat, size: nat, align: nat)
    requires 0 < align
    ensures NoFit(w, hs, 0, size, align)
    ensures NoFit(w, hs, i, size, align) && i < |hs| && (forall x :: !Fits(w, hs[i], x, size, align)) ==>
          NoFit(w, hs, i + 1, size, align)
  {
    hide Fits;
  }

  lemma {:induction false} NoFitAnywhere(w: nat, hs: seq<Region>, size: nat, align: nat)
    requires 0 < align && NoFit(w, hs, |hs|, size, align)
    ensures forall x :: !FitsSomewhere(w, hs, x, size, align)
  {
    hide Fits;
  }

  lemma {:induction false} FitInside(w: nat, h: Region, x: nat, size: nat, align: nat)
    requires 0 < align && Fits(w, h, x, size, align)
    ensures h.addr <= x && x + size <= h.End()
  {
  }

  lemma {:induction false} GainsFair(w: nat, hs: seq<Region>, hs': seq<Region>, live: Live, lo: nat, hi: nat, b: nat)
    requires Fair(w, hs, live, lo, hi) && b in live && Separated(hs', w, lo, hi)
    requires Gains(hs', hs, Region(b, BlockSize(w, live[b])))
    ensures Fair(w, hs', live - {b}, lo, hi)
  {
    FreeFair(w, hs, hs', live, lo, hi, b);
  }

  lemma {:induction false} GrowFair(w: nat, hs: seq<Region>, hs': seq<Region>, live: Live, lo: nat, hi: nat, size: nat)
    requires Fair(w, hs, live, lo, hi) && Separated(hs', w, lo, hi + size) && Gains(hs', hs, Region(hi, size))
    ensures Fair(w, hs', live, lo, hi + size)
  {
    ExtendFair(w, hs, hs', live, lo, hi, size);
  }

  lemma {:induction false} NewSize(w: nat, n: nat)
    requires 0 < w && 2 * w <= n
    ensures 2 * w <= AlignDown(n, w)
  {
    MultipleMod(2, w);
    MultipleSum(AlignDown(n, w), 2 * w, w);
  }
}
