/** Page tables from the start of the machine: the allocator of rust/src/palloc.rs is given
    its pages, a root is made, and the caller takes pages, writes in them, and maps and
    unmaps ranges with rust/src/vm.rs in any order. */
module VmRuns {
  import opened Wrappers
  import opened Palloc
  import opened PageTables
  import opened Vm

  /** `TakePage` is a call of `alloc` that returns this page; `Store` is a write of the
      caller in a page of its own. */
  datatype Request =
    | MapRange(virt: nat, phys: nat, size: nat, perms: Perms)
    | UnmapRange(virt: nat, size: nat, release: bool)
    | TakePage(page: nat)
    | Store(page: nat, index: nat, value: nat)

  type Requests = seq<Request>

  /** How a request ends; `OtherPage` when `alloc` returns another page than the one named. */
  datatype End = Served | Panicked(why: Outcome) | OtherPage

  function Last(reqs: Requests): Request
    requires reqs != []
  {
    reqs[|reqs| - 1]
  }

  function Before(reqs: Requests): (r: Requests)
    requires reqs != []
    ensures |r| < |reqs|
  {
    reqs[..|reqs| - 1]
  }

  /** The request maps or unmaps the page of this address. */
  predicate Covers(r: Request, va: nat) {
    (r.MapRange? || r.UnmapRange?) && Offset(r.virt, va) < r.size / PAGE_SIZE
  }

  // ----- what should hold after requests that were all served

  /** What an address translates to: the latest request about its page decides. */
  function Wanted(reqs: Requests, va: nat): Option<(nat, Perms)> {
    if reqs == [] then None
    else
      var r := Last(reqs);
      if !Covers(r, va) then Wanted(Before(reqs), va)
      else if r.MapRange? then Some((r.phys / PAGE_SIZE + Offset(r.virt, va), r.perms))
      else None
  }

  /** The pages that belong to the allocator, as free pages or tables: those of its range,
      without those the caller took, and with the frames that were unmapped and released. */
  ghost predicate Given(first: nat, last: nat, reqs: Requests, f: nat) {
    if reqs == [] then first <= f < last
    else
      var r, before := Last(reqs), Before(reqs);
      if r.TakePage? && r.page == f then false
      else Given(first, last, before, f) || (r.UnmapRange? && r.release && Behind(before, r, f))
  }

  /** The frame is behind a page of the request. */
  ghost predicate Behind(reqs: Requests, r: Request, f: nat) {
    exists va :: Covers(r, va) && Wanted(reqs, va).Some? && Wanted(reqs, va).value.0 == f
  }

  /** What the caller finds in a word of a page of its own: what it stored there last, or
      the first contents; unknown if it took the page and has not written there since. */
  function Stored(m0: Words, reqs: Requests, page: nat, index: nat): Option<nat> {
    if reqs == [] then Some(Word(m0, page, index))
    else
      var r := Last(reqs);
      if r.Store? && r.page == page && r.index == index then Some(r.value)
      else if r.TakePage? && r.page == page then None
      else Stored(m0, Before(reqs), page, index)
  }

  /** The tables there are: the root, and those on the way to every page mapped so far. */
  function TablesOf(reqs: Requests): set<Place> {
    if reqs == [] then {Root}
    else
      var r, before := Last(reqs), TablesOf(Before(reqs));
      if r.MapRange? then before + Needed(r.virt, r.size / PAGE_SIZE) else before
  }

  /** The tables that a request to map still has to add. */
  function Lacking(reqs: Requests, r: Request): set<Place> {
    if r.MapRange? then Needed(r.virt, r.size / PAGE_SIZE) - TablesOf(reqs) else {}
  }

  function FrameOf(reqs: Requests, va: nat): nat {
    var w := Wanted(reqs, va);
    if w.Some? then w.value.0 else 0
  }

  /** The frames of the first `n` pages of a range, the last one first. */
  function FramesOf(reqs: Requests, virt: nat, n: nat): seq<nat> {
    if n == 0 then [] else [FrameOf(reqs, virt + PAGE_SIZE * (n - 1))] + FramesOf(reqs, virt, n - 1)
  }

  /** The free pages, in the order in which they will be taken: the last of the range
      first; missing tables and the caller take from the front, where released frames are
      put. */
  function FreeAfter(first: nat, last: nat, reqs: Requests): seq<nat> {
    if reqs == [] then if first < last then Down(first, last)[1..] else []
    else
      var r, before := Last(reqs), Before(reqs);
      var free := FreeAfter(first, last, before);
      match r
      case MapRange(_, _, _, _) => if |Lacking(before, r)| <= |free| then free[|Lacking(before, r)|..] else []
      case UnmapRange(virt, size, release) => (if release then FramesOf(before, virt, size / PAGE_SIZE) else []) + free
      case TakePage(_) => if free == [] then [] else free[1..]
      case Store(_, _, _) => free
  }

  /** There are the pages that the request takes; a call of `alloc` names the first one. */
  predicate Enough(first: nat, last: nat, reqs: Requests, r: Request) {
    var free := FreeAfter(first, last, reqs);
    |Lacking(reqs, r)| <= |free| && (r.TakePage? ==> free != [] && r.page == free[0])
  }

  // ----- what is asked of the caller

  /** The request fits what was asked for before: it is aligned, goes around the address
      space at most once, and maps pages without translation or unmaps pages with one. */
  ghost predicate Legal(reqs: Requests, r: Request) {
    r.MapRange? || r.UnmapRange? ==>
      && r.virt % PAGE_SIZE == 0 && (r.MapRange? ==> r.phys % PAGE_SIZE == 0) && r.size % PAGE_SIZE == 0
      && r.size / PAGE_SIZE <= PAGES
      && forall va :: Covers(r, va) ==> (Wanted(reqs, va).None? <==> r.MapRange?)
  }

  /** The frames a request releases are the caller's, and none is released twice. */
  ghost predicate Releasable(first: nat, last: nat, reqs: Requests, r: Request) {
    && (forall va :: Covers(r, va) && Wanted(reqs, va).Some? ==>
          0 < Wanted(reqs, va).value.0 && !Given(first, last, reqs, Wanted(reqs, va).value.0))
    && (forall va, vb :: Covers(r, va) && Covers(r, vb) && Page(va) != Page(vb) && Wanted(reqs, va).Some? &&
                         Wanted(reqs, vb).Some? ==>
          Wanted(reqs, va).value.0 != Wanted(reqs, vb).value.0)
  }

  /** The caller releases and writes only what is its own. */
  ghost predicate Owns(first: nat, last: nat, reqs: Requests, r: Request) {
    && (r.UnmapRange? && r.release ==> Releasable(first, last, reqs, r))
    && (r.Store? ==> !Given(first, last, reqs, r.page))
  }

  ghost predicate Clean(first: nat, last: nat, reqs: Requests) {
    forall k :: 0 <= k < |reqs| ==> Owns(first, last, reqs[..k], reqs[k])
  }

  // ----- what is kept

  /** Every address translates to what was asked for. */
  ghost predicate Serves(m: Words, root: nat, reqs: Requests) {
    forall va :: Translate(m, root, va) == Wanted(reqs, va)
  }

  /** Which tables there are and which pages are free, in which order. */
  ghost predicate Counted(first: nat, last: nat, reqs: Requests, t: Tables, free: seq<nat>) {
    t.Keys == TablesOf(reqs) && free == FreeAfter(first, last, reqs)
  }

  /** The pages of the allocator are exactly the tables and the free pages, and every other
      page holds what the caller stored. */
  ghost predicate Inside(first: nat, last: nat, reqs: Requests, m0: Words, m: Words, t: Tables, free: seq<nat>) {
    && (forall f :: Given(first, last, reqs, f) <==> f in free || IsTable(t, f))
    && (forall q, k :: !Given(first, last, reqs, q) && Stored(m0, reqs, q, k).Some? ==>
          Word(m, q, k) == Stored(m0, reqs, q, k).value)
  }

  /** The allocator gets its pages and the first of them becomes the root of an empty
      tree; there is none when the range is empty. */
  method Boot(p: PageAlloc, first: nat, last: nat) returns (root: Option<nat>)
    requires p.Valid() && p.free == [] && 0 < first <= last
    modifies p
    ensures p.Valid() && (root.None? <==> first == last)
    ensures root.Some? ==> Tree(p.words, map[Root := root.value], p.free) && Serves(p.words, root.value, [])
    ensures root.Some? ==> Inside(first, last, [], old(p.words), p.words, map[Root := root.value], p.free)
    ensures root.Some? ==> Counted(first, last, [], map[Root := root.value], p.free)
  {
    hide Tree, Serves, FreeList, Word, Translate, IsTable;
    p.Init(first, last);
    ghost var free := p.free;
    assert free == Down(first, last);
    HeadOnce(p.words, p.node, free);
    root := InitPtable(p);
    if root.Some? {
      assert root.value in free && forall f :: f in p.free ==> f in free;
      EmptyTree(p.words, root.value, p.free);
      NothingWanted(p.words, root.value);
      BootInside(first, last, root.value, free);
    }
  }

  lemma {:induction false} BootInside(first: nat, last: nat, root: nat, free: seq<nat>)
    requires 0 < first < last && free == Down(first, last) && root == free[0]
    ensures forall f :: Given(first, last, [], f) <==> f in free[1..] || IsTable(map[Root := root], f)
  {
    hide IsTable;
    OnlyRoot(root);
    forall f: nat
      ensures first <= f < last <==> f == root || f in free[1..]
    {
      assert f in free <==> f == free[0] || f in free[1..];
      if first <= f < last {
        assert free[last - 1 - f] == f;
      }
    }
  }

  lemma {:induction false} OnlyRoot(root: nat)
    ensures forall f :: IsTable(map[Root := root], f) <==> f == root
  {
    assert Root in map[Root := root] && map[Root := root][Root] == root;
  }

  lemma {:induction false} HeadOnce(m: Words, node: Option<nat>, free: seq<nat>)
    requires FreeList(m, node, free)
    ensures free != [] ==> free[0] !in free[1..]
  {
  }

  lemma {:induction false} NothingWanted(m: Words, root: nat)
    requires forall va :: Translate(m, root, va) == None
    ensures Serves(m, root, [])
  {
  }

  // ----- one request

  lemma {:induction false} Covered(r: Request, k: nat)
    requires (r.MapRange? || r.UnmapRange?) && k < r.size / PAGE_SIZE && k < PAGES
    ensures Covers(r, r.virt + PAGE_SIZE * k)
  {
    OffsetOfPage(r.virt, r.virt + PAGE_SIZE * k, k);
  }

  /** A legal request to map finds no page mapped. */
  lemma {:induction false} LegalMap(m: Words, root: nat, reqs: Requests, r: Request, k: nat)
    requires Serves(m, root, reqs) && Legal(reqs, r) && r.MapRange? && k < r.size / PAGE_SIZE
    ensures k < PAGES && Translate(m, root, r.virt + PAGE_SIZE * k).None?
  {
    hide Translate, Wanted, Covers;
    Covered(r, k);
  }

  /** And a legal one to unmap finds them all. */
  lemma {:induction false} LegalUnmap(m: Words, root: nat, reqs: Requests, r: Request, k: nat)
    requires Serves(m, root, reqs) && Legal(reqs, r) && r.UnmapRange? && k < r.size / PAGE_SIZE
    ensures !Missing(m, root, r.virt, k)
  {
    hide Translate, Wanted, Covers;
    Covered(r, k);
  }

  /** A range that was mapped. */
  lemma {:induction false} MapServed(m: Words, t: Tables, free: seq<nat>, m': Words, t': Tables, free': seq<nat>,
        root: nat, first: nat, last: nat, m0: Words, reqs: Requests, r: Request)
    requires Serves(m, root, reqs) && Inside(first, last, reqs, m0, m, t, free) && r.MapRange?
    requires r.virt % PAGE_SIZE == 0 && r.phys % PAGE_SIZE == 0 && r.size % PAGE_SIZE == 0
    requires r.size / PAGE_SIZE <= PAGES
    requires Translates(m, m', root, r.virt, r.phys, r.size / PAGE_SIZE, r.perms)
    requires forall va :: Offset(r.virt, va) < r.size / PAGE_SIZE ==> Translate(m, root, va).None?
    requires Grows(t, free, t', free') && Untouched(m, m', t, free)
    ensures Legal(reqs, r) && Serves(m', root, reqs + [r]) && Inside(first, last, reqs + [r], m0, m', t', free')
  {
    hide Translate, Offset, Page, Word;
    assert Last(reqs + [r]) == r && Before(reqs + [r]) == reqs;
    AllTables(t);
    AllTables(t');
    forall f
      ensures Given(first, last, reqs + [r], f) <==> f in free' || IsTable(t', f)
    {
      if IsTable(t, f) {
        StaysTable(t, t', f);
      }
    }
    hide IsTable;
    assert forall q :: !Given(first, last, reqs, q) ==> Foreign(t, free, q);
  }

  lemma {:induction false} AllTables(t: Tables)
    ensures forall p :: p in t ==> IsTable(t, t[p])
  {
  }

  /** The tables that were missing came from the front of the free list. */
  lemma {:induction false} MapCounted(t: Tables, free: seq<nat>, t': Tables, free': seq<nat>, first: nat, last: nat,
        reqs: Requests, r: Request)
    requires Counted(first, last, reqs, t, free) && r.MapRange? && Grows(t, free, t', free')
    requires t'.Keys == t.Keys + Needed(r.virt, r.size / PAGE_SIZE)
    requires |free'| == |free| - |Needed(r.virt, r.size / PAGE_SIZE) - t.Keys|
    ensures Counted(first, last, reqs + [r], t', free') && Enough(first, last, reqs, r)
  {
    hide Needed;
    assert Last(reqs + [r]) == r && Before(reqs + [r]) == reqs;
  }

  lemma {:induction false} MapNotEnough(t: Tables, free: seq<nat>, first: nat, last: nat, reqs: Requests, r: Request)
    requires Counted(first, last, reqs, t, free) && r.MapRange?
    requires |Needed(r.virt, r.size / PAGE_SIZE) - t.Keys| > |free|
    ensures !Enough(first, last, reqs, r)
  {
    hide Needed;
  }

  lemma {:induction false} UnmapCounted(m: Words, t: Tables, free: seq<nat>, free': seq<nat>, root: nat, first: nat,
        last: nat, reqs: Requests, r: Request)
    requires Tree(m, t, free) && Root in t && t[Root] == root && Serves(m, root, reqs)
    requires Counted(first, last, reqs, t, free) && r.UnmapRange?
    requires free' == (if r.release then Frames(m, t, r.virt, r.size / PAGE_SIZE) else []) + free
    ensures Counted(first, last, reqs + [r], t, free') && Enough(first, last, reqs, r)
  {
    hide Tree;
    assert Last(reqs + [r]) == r && Before(reqs + [r]) == reqs;
    SameFrames(m, t, free, root, reqs, r.virt, r.size / PAGE_SIZE);
  }

  lemma {:induction false} SameFrames(m: Words, t: Tables, free: seq<nat>, root: nat, reqs: Requests, virt: nat, n: nat)
    requires Tree(m, t, free) && Root in t && t[Root] == root && Serves(m, root, reqs)
    ensures Frames(m, t, virt, n) == FramesOf(reqs, virt, n)
    decreases n
  {
    hide Tree, Translate, Leaf, Wanted;
    if n > 0 {
      TranslateIsLeaf(m, t, free, virt + PAGE_SIZE * (n - 1));
      SameFrames(m, t, free, root, reqs, virt, n - 1);
    }
  }

  lemma {:induction false} RestCounted(t: Tables, free: seq<nat>, first: nat, last: nat, reqs: Requests, r: Request)
    requires Counted(first, last, reqs, t, free)
    ensures r.TakePage? && free != [] ==> Counted(first, last, reqs + [r], t, free[1..])
    ensures r.TakePage? ==> (Enough(first, last, reqs, r) <==> free != [] && r.page == free[0])
    ensures r.Store? ==> Counted(first, last, reqs + [r], t, free) && Enough(first, last, reqs, r)
    ensures r.UnmapRange? ==> Enough(first, last, reqs, r)
  {
    assert Last(reqs + [r]) == r && Before(reqs + [r]) == reqs;
  }

  /** A range that was unmapped. */
  lemma {:induction false} UnmapServed(m: Words, t: Tables, free: seq<nat>, m': Words, free': seq<nat>,
        root: nat, first: nat, last: nat, m0: Words, reqs: Requests, r: Request)
    requires Tree(m, t, free) && Root in t && t[Root] == root
    requires Serves(m, root, reqs) && Inside(first, last, reqs, m0, m, t, free) && r.UnmapRange?
    requires r.virt % PAGE_SIZE == 0 && r.size % PAGE_SIZE == 0 && r.size / PAGE_SIZE <= PAGES
    requires Forgets(m, m', root, r.virt, r.size / PAGE_SIZE) && Untouched(m, m', t, free')
    requires forall va :: Offset(r.virt, va) < r.size / PAGE_SIZE ==> Translate(m, root, va).Some?
    requires free' == (if r.release then Frames(m, t, r.virt, r.size / PAGE_SIZE) else []) + free
    ensures Legal(reqs, r) && Serves(m', root, reqs + [r]) && Inside(first, last, reqs + [r], m0, m', t, free')
  {
    hide Translate, Offset, Page, Tree, Frames, FrameAt, Leaf, Word, IsTable;
    assert Last(reqs + [r]) == r && Before(reqs + [r]) == reqs;
    AllTables(t);
    forall f
      ensures Given(first, last, reqs + [r], f) <==> f in free' || IsTable(t, f)
    {
      if r.release {
        FrameBehind(m, t, free, root, reqs, r, f);
      }
    }
    assert forall q :: !Given(first, last, reqs + [r], q) ==> Foreign(t, free', q);
  }

  lemma {:induction false} FrameBehind(m: Words, t: Tables, free: seq<nat>, root: nat, reqs: Requests, r: Request,
        f: nat)
    requires Tree(m, t, free) && Root in t && t[Root] == root && Serves(m, root, reqs)
    requires r.UnmapRange? && r.size / PAGE_SIZE <= PAGES
    requires forall va :: Offset(r.virt, va) < r.size / PAGE_SIZE ==> Translate(m, root, va).Some?
    ensures Behind(reqs, r, f) <==> f in Frames(m, t, r.virt, r.size / PAGE_SIZE)
  {
    hide Translate, Offset, Page, Tree, Frames, Leaf, Wanted;
    var n := r.size / PAGE_SIZE;
    if f in Frames(m, t, r.virt, n) {
      InFrames(m, t, r.virt, n, f);
      var k :| 0 <= k < n && f == FrameAt(m, t, r.virt + PAGE_SIZE * k);
      var va := r.virt + PAGE_SIZE * k;
      Covered(r, k);
      TranslateIsLeaf(m, t, free, va);
      assert Covers(r, va) && Wanted(reqs, va).Some?;
    } else if Behind(reqs, r, f) {
      var va :| Covers(r, va) && Wanted(reqs, va).Some? && Wanted(reqs, va).value.0 == f;
      var k := Offset(r.virt, va);
      OffsetOfPage(r.virt, va, k);
      TranslationByPage(m, t, free, va, r.virt + PAGE_SIZE * k);
      TranslateIsLeaf(m, t, free, r.virt + PAGE_SIZE * k);
      AtFrames(m, t, r.virt, n, k);
      assert false;
    }
  }

  lemma {:induction false} AtFrames(m: Words, t: Tables, virt: nat, n: nat, k: nat)
    requires k < n
    ensures FrameAt(m, t, virt + PAGE_SIZE * k) in Frames(m, t, virt, n)
    decreases n
  {
    hide FrameAt;
    if k < n - 1 {
      AtFrames(m, t, virt, n - 1, k);
    }
  }

  /** What may be released can be given to the allocator. */
  lemma {:induction false} ReleasableMeans(m: Words, t: Tables, free: seq<nat>, root: nat, first: nat, last: nat,
        m0: Words, reqs: Requests, r: Request)
    requires Tree(m, t, free) && Root in t && t[Root] == root && Serves(m, root, reqs) && r.UnmapRange?
    requires Inside(first, last, reqs, m0, m, t, free) && Releasable(first, last, reqs, r)
    ensures Freeable(m, t, free, r.virt, r.size / PAGE_SIZE)
  {
    hide Translate, Offset, Page, Tree, Leaf, Wanted, Given;
    forall va: nat
      ensures Leaf(m, t, va) == Wanted(reqs, va)
    {
      TranslateIsLeaf(m, t, free, va);
    }
  }

  /** A page taken from the free list is no longer the allocator's. */
  lemma {:induction false} TakeServed(m: Words, t: Tables, free: seq<nat>, root: nat, first: nat, last: nat, m0: Words,
        reqs: Requests, page: nat)
    requires Tree(m, t, free) && Serves(m, root, reqs) && Inside(first, last, reqs, m0, m, t, free)
    requires free != [] && page == free[0] && page !in free[1..]
    ensures Tree(m, t, free[1..]) && Serves(m, root, reqs + [TakePage(page)])
    ensures Inside(first, last, reqs + [TakePage(page)], m0, m, t, free[1..])
  {
    hide Translate, Points, Maps;
    var r := TakePage(page);
    assert Last(reqs + [r]) == r && Before(reqs + [r]) == reqs;
    assert page in free && forall f :: f in free <==> f == page || f in free[1..];
  }

  /** A write of the caller in a page of its own changes no translation. */
  lemma {:induction false} StoreServed(m: Words, node: Option<nat>, t: Tables, free: seq<nat>, root: nat, first: nat,
        last: nat, m0: Words, reqs: Requests, r: Request)
    requires Tree(m, t, free) && Root in t && t[Root] == root && Serves(m, root, reqs) && FreeList(m, node, free)
    requires Inside(first, last, reqs, m0, m, t, free) && r.Store? && !Given(first, last, reqs, r.page)
    ensures var m' := m[Cell(r.page, r.index) := r.value];
            && FreeList(m', node, free) && Tree(m', t, free) && Serves(m', root, reqs + [r])
            && Inside(first, last, reqs + [r], m0, m', t, free)
  {
    hide Translate, Leaf, Tree, FreeList, IsTable;
    var m' := m[Cell(r.page, r.index) := r.value];
    assert Last(reqs + [r]) == r && Before(reqs + [r]) == reqs;
    AllTables(t);
    FreeListKept(m, m', node, free);
    FreeFrame(m, m', t, free, free, r.page);
    FewerFree(m', t, [r.page] + free, free);
    forall q
      ensures Given(first, last, reqs + [r], q) == Given(first, last, reqs, q)
    {
    }
    forall q, k
      ensures Stored(m0, reqs + [r], q, k) ==
              if q == r.page && k == r.index then Some(r.value) else Stored(m0, reqs, q, k)
    {
    }
    forall va
      ensures Translate(m', root, va) == Translate(m, root, va)
    {
      TranslateIsLeaf(m, t, free, va);
      TranslateIsLeaf(m', t, free, va);
    }
  }

  lemma {:induction false} FewerFree(m: Words, t: Tables, free: seq<nat>, free': seq<nat>)
    requires Tree(m, t, free) && forall f :: f in free' ==> f in free
    ensures Tree(m, t, free')
  {
    hide Points, Maps;
  }

  /** One request of a run. */
  method Serve(p: PageAlloc, root: nat, r: Request, ghost first: nat, ghost last: nat, ghost m0: Words,
        ghost reqs: Requests, ghost t: Tables) returns (o: End, ghost t': Tables)
    requires p.Valid() && Tree(p.words, t, p.free) && Root in t && t[Root] == root && Serves(p.words, root, reqs)
    requires Inside(first, last, reqs, m0, p.words, t, p.free) && Owns(first, last, reqs, r)
    requires Counted(first, last, reqs, t, p.free)
    modifies p
    ensures p.Valid() && Tree(p.words, t', p.free) && Root in t' && t'[Root] == root
    ensures o == Served <==> Legal(reqs, r) && Enough(first, last, reqs, r)
    ensures o == Served ==> Serves(p.words, root, reqs + [r])
    ensures o == Served ==> Inside(first, last, reqs + [r], m0, p.words, t', p.free)
    ensures o == Served ==> Counted(first, last, reqs + [r], t', p.free)
    ensures o.Panicked? && Legal(reqs, r) ==> o.why == NoMemory && p.free == [] && (r.MapRange? || r.TakePage?)
    ensures o == OtherPage <==> r.TakePage? && old(p.free) != [] && r.page != old(p.free)[0]
  {
    hide Tree, Translates, Forgets, Serves, Inside, Releasable, Freeable, FreeList, Untouched, Grows, Missing,
         Frames, Translate, Offset, Wanted, Counted, Enough, Needed;
    RestCounted(t, p.free, first, last, reqs, r);
    ghost var m, free := p.words, p.free;
    t' := t;
    match r
    case MapRange(virt, phys, size, perms) =>
      var why;
      why, t' := Map(p, root, virt, phys, size, perms, t);
      GrowsRoot(t, free, t', p.free);
      if why == Done {
        MapServed(m, t, free, p.words, t', p.free, root, first, last, m0, reqs, r);
        MapCounted(t, free, t', p.free, first, last, reqs, r);
      } else if why == NoMemory {
        MapNotEnough(t, free, first, last, reqs, r);
      } else if why == Remap && Legal(reqs, r) {
        ghost var k :| 0 <= k < size / PAGE_SIZE && (k >= PAGES || Translate(m, root, virt + PAGE_SIZE * k).Some?);
        LegalMap(m, root, reqs, r, k);
        assert false;
      }
      o := if why == Done then Served else Panicked(why);
    case UnmapRange(virt, size, release) =>
      if release {
        ReleasableMeans(m, t, free, root, first, last, m0, reqs, r);
      }
      var why := Unmap(p, root, virt, size, release, t);
      if why == Done {
        UnmapServed(m, t, free, p.words, p.free, root, first, last, m0, reqs, r);
        UnmapCounted(m, t, free, p.free, root, first, last, reqs, r);
      } else if why == NotMapped && Legal(reqs, r) {
        ghost var k :| 0 <= k < size / PAGE_SIZE && Missing(m, root, virt, k);
        LegalUnmap(m, root, reqs, r, k);
        assert false;
      }
      o := if why == Done then Served else Panicked(why);
    case TakePage(page) =>
      var taken := p.Alloc();
      if taken.Some? {
        TakeServed(m, t, free, root, first, last, m0, reqs, taken.value);
      }
      o := if taken.None? then Panicked(NoMemory) else if taken.value != page then OtherPage else Served;
    case Store(page, index, value) =>
      StoreServed(m, p.node, t, free, root, first, last, m0, reqs, r);
      p.words := p.words[Cell(page, index) := value];
      o := Served;
  }

  // ----- runs

  /** Any sequence of requests, from the start of the machine, until one panics. */
  method Run(m: Words, first: nat, last: nat, reqs: Requests) returns (p: PageAlloc, root: Option<nat>, n: nat, o: End,
        ghost t: Tables)
    requires 0 < first <= last && Clean(first, last, reqs)
    ensures p.Valid() && (root.None? <==> first == last) && n <= |reqs|
    ensures root.None? ==> o == Panicked(NoMemory) && n == 0
    ensures root.Some? ==> Tree(p.words, t, p.free) && Root in t && t[Root] == root.value
    ensures forall k :: 0 <= k < n ==> Legal(reqs[..k], reqs[k]) && Enough(first, last, reqs[..k], reqs[k])
    ensures root.Some? && o == Served ==>
          n == |reqs| && Serves(p.words, root.value, reqs) && Inside(first, last, reqs, m, p.words, t, p.free)
          && Counted(first, last, reqs, t, p.free)
    ensures root.Some? && o != Served ==>
          n < |reqs| && !(Legal(reqs[..n], reqs[n]) && Enough(first, last, reqs[..n], reqs[n]))
    ensures root.Some? && o != Served ==>
          var free := FreeAfter(first, last, reqs[..n]);
          o == OtherPage <==> reqs[n].TakePage? && free != [] && reqs[n].page != free[0]
    ensures root.Some? && o.Panicked? && Legal(reqs[..n], reqs[n]) ==>
          o.why == NoMemory && p.free == [] && (reqs[n].MapRange? || reqs[n].TakePage?)
  {
    hide Tree, Legal, Serves, Inside, Owns, FreeList, Enough, TablesOf, FreeAfter;
    p := new PageAlloc(m);
    root := Boot(p, first, last);
    n, o, t := 0, Panicked(NoMemory), map[];
    if root.None? {
      return;
    }
    o, t := Served, map[Root := root.value];
    assert reqs[..0] == [];
    while n < |reqs|
      invariant n <= |reqs| && o == Served && p.Valid()
      invariant Tree(p.words, t, p.free) && Root in t && t[Root] == root.value
      invariant Serves(p.words, root.value, reqs[..n]) && Inside(first, last, reqs[..n], m, p.words, t, p.free)
      invariant Counted(first, last, reqs[..n], t, p.free)
      invariant forall k :: 0 <= k < n ==> Legal(reqs[..k], reqs[k]) && Enough(first, last, reqs[..k], reqs[k])
      decreases |reqs| - n
    {
      assert reqs[..n + 1] == reqs[..n] + [reqs[n]];
      o, t := Serve(p, root.value, reqs[n], first, last, m, reqs[..n], t);
      if o != Served {
        return;
      }
      n := n + 1;
    }
    assert reqs[..n] == reqs;
  }
}
