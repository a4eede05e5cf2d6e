/** rust/src/vm.rs: building, extending and clearing page tables in memory. The ghost
    parameter `t` names the tables of the tree under `root`. */
module Vm {
  import opened Wrappers
  import opened Palloc
  import opened PageTables

  datatype Outcome = Done | Misaligned | BadSize | Remap | NotMapped | NoMemory

  /** A page that is neither a table nor free. */
  predicate Foreign(t: Tables, free: seq<nat>, page: nat) {
    page !in free && forall p :: p in t ==> t[p] != page
  }

  ghost predicate Untouched(m: Words, m': Words, t: Tables, free: seq<nat>) {
    forall q, k :: Foreign(t, free, q) ==> Word(m', q, k) == Word(m, q, k)
  }

  /** No translation changes. */
  ghost predicate SameMeaning(m: Words, t: Tables, m': Words, t': Tables) {
    forall va :: Leaf(m', t', va) == Leaf(m, t, va)
  }

  /** A page is one of the tables. */
  ghost predicate IsTable(t: Tables, page: nat) {
    exists p :: p in t && t[p] == page
  }

  /** Tables may be added, from the first free pages; every page that leaves the free list
      is one of them. */
  ghost predicate Grows(t: Tables, free: seq<nat>, t': Tables, free': seq<nat>) {
    && Root in t && Root in t' && t'[Root] == t[Root]
    && (forall p :: p in t' ==> p in t || t'[p] in free) && (forall p :: p in t ==> p in t' && t'[p] == t[p])
    && (forall f :: f in free' ==> f in free)
    && |free'| <= |free| && free' == free[|free| - |free'|..] && |t'| + |free'| == |t| + |free|
    && (forall f :: f in free ==> f in free' || IsTable(t', f))
  }

  /** The tables that must be on the way from a level to an address. */
  function Way(va: nat, level: nat): set<Place>
    requires level < 3
  {
    match level
    case 0 => {}
    case 1 => {On(va, 0)}
    case _ => {On(va, 0), On(va, 1)}
  }

  /** The tables that must be there for the first `n` pages of a range, besides the root. */
  function Needed(virt: nat, n: nat): set<Place> {
    if n == 0 then {} else Needed(virt, n - 1) + Way(virt + PAGE_SIZE * (n - 1), 2)
  }

  lemma {:induction false} NeededNext(virt: nat, n: nat)
    ensures Needed(virt, 0) == {} && Needed(virt, n + 1) == Needed(virt, n) + Way(virt + PAGE_SIZE * n, 2)
  {
  }

  lemma {:induction false} NeededGrows(virt: nat, k: nat, n: nat)
    requires k < n
    ensures Needed(virt, k) + Way(virt + PAGE_SIZE * k, 2) <= Needed(virt, n)
    decreases n
  {
    if k < n - 1 {
      NeededGrows(virt, k, n - 1);
    }
  }

  lemma {:induction false} FewerIn<T>(a: set<T>, b: set<T>)
    requires a <= b
    ensures |a| <= |b| && |b - a| == |b| - |a|
  {
    assert b == a + (b - a);
  }

  lemma {:induction false} NoneNeeded(t: Tables, virt: nat)
    ensures t.Keys == t.Keys + Needed(virt, 0)
  {
  }

  lemma {:induction false} MoreNeeded(t: Tables, t1: Tables, t2: Tables, virt: nat, n: nat)
    requires t1.Keys == t.Keys + Needed(virt, n) && t2.Keys == t1.Keys + Way(virt + PAGE_SIZE * n, 2)
    ensures t2.Keys == t.Keys + Needed(virt, n + 1)
  {
    hide Needed, Way;
    NeededNext(virt, n);
    assert t2.Keys == t.Keys + (Needed(virt, n) + Way(virt + PAGE_SIZE * n, 2));
  }

  /** All tables needed were added. */
  lemma {:induction false} AllAdded(t: Tables, free: seq<nat>, t': Tables, free': seq<nat>, needed: set<Place>)
    requires Grows(t, free, t', free') && t'.Keys == t.Keys + needed
    ensures |free'| == |free| - |needed - t.Keys|
  {
    assert t'.Keys - t.Keys == needed - t.Keys;
    FewerIn(t.Keys, t'.Keys);
  }

  /** All free pages became tables that were needed, and one more is. */
  lemma {:induction false} TooFew(t: Tables, free: seq<nat>, t': Tables, needed: set<Place>, all: set<Place>)
    requires Grows(t, free, t', []) && t'.Keys <= t.Keys + needed && !(needed <= t'.Keys) && needed <= all
    ensures |all - t.Keys| > |free|
  {
    FewerIn(t.Keys, t'.Keys);
    assert t'.Keys - t.Keys <= all - t.Keys;
    FewerIn(t'.Keys - t.Keys, all - t.Keys);
    var x :| x in needed && x !in t'.Keys;
    assert x in (all - t.Keys) - (t'.Keys - t.Keys);
  }

  lemma {:induction false} NotEnough(t: Tables, free: seq<nat>, t1: Tables, t2: Tables, free2: seq<nat>, virt: nat,
        k: nat, n: nat)
    requires Grows(t, free, t2, free2) && free2 == [] && t1.Keys == t.Keys + Needed(virt, k) && k < n
    requires t2.Keys <= t1.Keys + Way(virt + PAGE_SIZE * k, 2) && !(Way(virt + PAGE_SIZE * k, 2) <= t2.Keys)
    ensures |Needed(virt, n) - t.Keys| > |free|
  {
    hide Needed, Way, Grows;
    NeededGrows(virt, k, n);
    var needed := Needed(virt, k) + Way(virt + PAGE_SIZE * k, 2);
    assert t2.Keys <= t.Keys + needed;
    TooFew(t, free, t2, needed, Needed(virt, n));
  }

  /** One table more on the way. */
  lemma {:induction false} WayAdds(t: Tables, t1: Tables, t2: Tables, va: nat, level: nat, all: bool)
    requires 0 < level < 3 && t1.Keys == t.Keys + {On(va, level - 1)} && t1.Keys <= t2.Keys
    requires t2.Keys <= t1.Keys + Way(va, level - 1) && (all <==> Way(va, level - 1) <= t2.Keys)
    ensures t2.Keys <= t.Keys + Way(va, level) && (all <==> Way(va, level) <= t2.Keys)
    ensures all ==> t2.Keys == t.Keys + Way(va, level)
  {
    hide On;
    assert Way(va, level) == Way(va, level - 1) + {On(va, level - 1)};
  }

  lemma {:induction false} WayStops(t: Tables, va: nat, level: nat)
    requires 0 < level < 3 && On(va, level - 1) !in t
    ensures !(Way(va, level) <= t.Keys) && t.Keys <= t.Keys + Way(va, level)
  {
    hide On;
  }

  lemma {:induction false} NoWay(t: Tables, va: nat)
    ensures Way(va, 0) == {} && t.Keys == t.Keys + Way(va, 0)
  {
  }

  lemma {:induction false} GrowsKeys(t: Tables, free: seq<nat>, t': Tables, free': seq<nat>)
    requires Grows(t, free, t', free')
    ensures t.Keys <= t'.Keys
  {
  }

  lemma {:induction false} GrowsNot(t: Tables, free: seq<nat>)
    requires Root in t
    ensures Grows(t, free, t, free)
  {
  }

  lemma {:induction false} GrowsTwice(t: Tables, free: seq<nat>, t1: Tables, free1: seq<nat>, t2: Tables,
        free2: seq<nat>)
    requires Grows(t, free, t1, free1) && Grows(t1, free1, t2, free2)
    ensures Grows(t, free, t2, free2)
    ensures forall q :: Foreign(t, free, q) ==> Foreign(t1, free1, q)
  {
    hide IsTable;
    forall f | f in free
      ensures f in free2 || IsTable(t2, f)
    {
      if f !in free1 {
        StaysTable(t1, t2, f);
      }
    }
    assert free2 == free[|free| - |free1|..][|free1| - |free2|..];
  }

  lemma {:induction false} StaysTable(t: Tables, t': Tables, f: nat)
    requires IsTable(t, f) && forall p :: p in t ==> p in t' && t'[p] == t[p]
    ensures IsTable(t', f)
  {
    var p :| p in t && t[p] == f;
    assert p in t';
  }

  /** The first free page becomes a table. */
  lemma {:induction false} GrowsByOne(t: Tables, free: seq<nat>, p: Place)
    requires free != [] && Root in t && p !in t
    ensures Grows(t, free, t[p := free[0]], free[1..])
  {
    var t' := t[p := free[0]];
    forall f | f in free
      ensures f in free[1..] || IsTable(t', f)
    {
      if f == free[0] {
        assert p in t' && t'[p] == f;
      }
    }
    assert t'.Keys == t.Keys + {p};
  }


  lemma {:induction false} UntouchedTwice(m: Words, m1: Words, m2: Words, t: Tables, free: seq<nat>, t1: Tables,
        free1: seq<nat>)
    requires Grows(t, free, t1, free1) && Untouched(m, m1, t, free) && Untouched(m1, m2, t1, free1)
    ensures Untouched(m, m2, t, free)
  {
    forall q, k | Foreign(t, free, q)
      ensures Word(m2, q, k) == Word(m, q, k)
    {
      assert Foreign(t1, free1, q);
    }
  }

  /** A cleared page for a table; the program stops when there is none. */
  method InitPtable(p: PageAlloc) returns (r: Option<nat>)
    requires p.Valid()
    modifies p
    ensures p.Valid() && (r.None? <==> old(p.free) == [])
    ensures r.None? ==> p.words == old(p.words) && p.free == old(p.free)
    ensures r.Some? ==> r.value == old(p.free)[0] && p.free == old(p.free)[1..]
    ensures r.Some? ==> forall k :: 0 <= k < 512 ==> Word(p.words, r.value, k) == 0
    ensures r.Some? ==> forall q, k :: q != r.value ==> Word(p.words, q, k) == Word(old(p.words), q, k)
  {
    r := p.Alloc();
    if r.Some? {
      var ppn := r.value;
      for i := 0 to 512
        invariant p.Valid() && p.free == old(p.free)[1..] && ppn == old(p.free)[0] && ppn !in p.free
        invariant forall k :: 0 <= k < i ==> Word(p.words, ppn, k) == 0
        invariant forall q, k :: q != ppn ==> Word(p.words, q, k) == Word(old(p.words), q, k)
      {
        ghost var before := p.words;
        assert Entry(0, NO_FLAGS) == 0;
        p.words := p.words[Cell(ppn, i) := Entry(0, NO_FLAGS)];
        FreeListKept(before, p.words, p.node, p.free);
        forall k: nat | k <= i
          ensures Word(p.words, ppn, k) == 0
        {
          assert k < i ==> Word(before, ppn, k) == 0;
        }
      }
    }
  }

  /** The cell of the last-level entry, adding the tables missing on the way. */
  method WalkAndAlloc(p: PageAlloc, level: nat, table: nat, va: nat, ghost t: Tables) returns (r: Option<Cell>,
        ghost t': Tables)
    requires p.Valid() && Tree(p.words, t, p.free) && level < 3 && On(va, level) in t && table == t[On(va, level)]
    modifies p
    ensures p.Valid() && Tree(p.words, t', p.free)
    ensures SameMeaning(old(p.words), t, p.words, t') && Grows(t, old(p.free), t', p.free)
    ensures Untouched(old(p.words), p.words, t, old(p.free))
    ensures r.Some? ==> On(va, 0) in t' && r.value == Cell(t'[On(va, 0)], Vpn(va, 0))
    ensures r.None? ==> p.free == []
    ensures t'.Keys <= t.Keys + Way(va, level) && (r.Some? <==> Way(va, level) <= t'.Keys)
    ensures r.Some? ==> t'.Keys == t.Keys + Way(va, level)
    decreases level
  {
    hide Decodes, Valid, Ppn, Entry, Vpn, Leaf, Grows, Way;
    VpnBound(va);
    var i := Vpn(va, level);
    GrowsNot(t, p.free);
    if level == 0 {
      NoWay(t, va);
      return Some(Cell(table, i)), t;
    }
    ghost var place, child := On(va, level), On(va, level - 1);
    assert Points(p.words, t, place, i) && Child(place, i) == child;
    var e := Word(p.words, table, i);
    if child in t {
      PointerEntry(t[child]);
    } else {
      PointerEntry(0);
    }
    if Valid(e) {
      r, t' := WalkAndAlloc(p, level - 1, Ppn(e), va, t);
      GrowsKeys(t, old(p.free), t', p.free);
      WayAdds(t, t, t', va, level, r.Some?);
      return;
    }
    var ppn := InitPtable(p);
    if ppn.None? {
      WayStops(t, va, level);
      return None, t;
    }
    ghost var free, cleared := old(p.free), p.words;
    ghost var t1 := t[child := ppn.value];
    assert ppn.value in free && table != ppn.value;
    p.words := p.words[Cell(table, i) := Entry(ppn.value, TO_TABLE)];
    FreeListKept(cleared, p.words, p.node, p.free);
    forall k | 0 <= k < 512
      ensures Word(p.words, ppn.value, k) == 0
    {
      assert Word(cleared, ppn.value, k) == 0;
    }
    NewTable(old(p.words), p.words, t, free, place, i);
    GrowsByOne(t, free, child);
    PointerEntry(ppn.value);
    ghost var words1, free1 := p.words, p.free;
    assert Untouched(old(p.words), words1, t, free);
    r, t' := WalkAndAlloc(p, level - 1, Ppn(Word(p.words, table, i)), va, t1);
    GrowsTwice(t, free, t1, free1, t', p.free);
    GrowsKeys(t1, free1, t', p.free);
    WayAdds(t, t1, t', va, level, r.Some?);
    UntouchedTwice(old(p.words), words1, p.words, t, free, t1, free1);
  }

  /** The translations after the first `n` pages are mapped. */
  ghost predicate Mapped(m: Words, t: Tables, m': Words, t': Tables, virt: nat, phys: nat, n: nat, perms: Perms) {
    forall va :: Leaf(m', t', va) == if Offset(virt, va) < n then Some((phys / PAGE_SIZE + Offset(virt, va), perms))
          else Leaf(m, t, va)
  }

  /** One more page is mapped. */
  lemma {:induction false} MappedStep(m: Words, t: Tables, m1: Words, t1: Tables, m2: Words, t2: Tables,
        free: seq<nat>, virt: nat, phys: nat, n: nat, perms: Perms, e: nat)
    requires Mapped(m, t, m1, t1, virt, phys, n, perms) && SameMeaning(m1, t1, m2, t2) && n < PAGES
    requires Decodes(e) && Valid(e) && Ppn(e) == phys / PAGE_SIZE + n && PermsOf(e) == perms
    requires var va := virt + PAGE_SIZE * n; Tree(m2, t2, free) && On(va, 0) in t2
    ensures var va := virt + PAGE_SIZE * n;
            var m' := m2[Cell(t2[On(va, 0)], Vpn(va, 0)) := e];
            Tree(m', t2, free) && Mapped(m, t, m', t2, virt, phys, n + 1, perms)
  {
    hide Decodes, Valid, Ppn, PermsOf, Leaf, Tree, Offset, Page, Vpn;
    var va := virt + PAGE_SIZE * n;
    SetLeaf(m2, t2, free, va, e);
    forall va' : nat
      ensures Offset(virt, va') == n <==> Page(va') == Page(va)
    {
      OffsetOfPage(virt, va', n);
    }
  }

  /** A last-level entry that is not valid is empty. */
  lemma {:induction false} EntryOf(m: Words, t: Tables, free: seq<nat>, va: nat)
    requires Tree(m, t, free) && On(va, 0) in t
    ensures var e := Word(m, t[On(va, 0)], Vpn(va, 0));
          Decodes(e) && (Valid(e) || e == 0) && (Valid(e) <==> Leaf(m, t, va).Some?)
  {
    VpnBound(va);
    assert Maps(m, t, On(va, 0), Vpn(va, 0));
  }

  /** Page `i` of the range is frame `phys / 4096 + i` with these permissions, and no
      other page's translation changes. */
  ghost predicate Translates(m: Words, m': Words, root: nat, virt: nat, phys: nat, n: nat, perms: Perms) {
    forall va :: Translate(m', root, va) == if Offset(virt, va) < n
          then Some((phys / PAGE_SIZE + Offset(virt, va), perms)) else Translate(m, root, va)
  }

  /** The pages of the range have no translation any more, the others keep theirs. */
  ghost predicate Forgets(m: Words, m': Words, root: nat, virt: nat, n: nat) {
    forall va :: Translate(m', root, va) == if Offset(virt, va) < n then None else Translate(m, root, va)
  }

  method Map(p: PageAlloc, table: nat, virt: nat, phys: nat, size: nat, perms: Perms,
        ghost t: Tables) returns (o: Outcome, ghost t': Tables)
    requires p.Valid() && Tree(p.words, t, p.free) && table == t[Root]
    modifies p
    ensures p.Valid() && Tree(p.words, t', p.free) && Grows(t, old(p.free), t', p.free)
    ensures Untouched(old(p.words), p.words, t, old(p.free))
    ensures o != NotMapped && (o == Misaligned <==> virt % PAGE_SIZE != 0 || phys % PAGE_SIZE != 0)
    ensures o == BadSize <==> o != Misaligned && size % PAGE_SIZE != 0
    ensures o == NoMemory ==> p.free == []
    ensures o == Remap ==>
          exists k :: 0 <= k < size / PAGE_SIZE &&
                      (k >= PAGES || Translate(old(p.words), table, virt + PAGE_SIZE * k).Some?)
    ensures o == Done ==>
          size / PAGE_SIZE <= PAGES && Translates(old(p.words), p.words, table, virt, phys, size / PAGE_SIZE, perms)
    ensures o == Done ==> forall va :: Offset(virt, va) < size / PAGE_SIZE ==> Translate(old(p.words), table, va).None?
    ensures o == Done ==> t'.Keys == t.Keys + Needed(virt, size / PAGE_SIZE)
    ensures o == Done ==> |p.free| == |old(p.free)| - |Needed(virt, size / PAGE_SIZE) - t.Keys|
    ensures o == NoMemory ==> |Needed(virt, size / PAGE_SIZE) - t.Keys| > |old(p.free)|
  {
    hide Needed, Way;
    hide Decodes, Valid, Ppn, PermsOf, Leaf, Tree, Offset, Vpn, Entry, SameMeaning, Mapped, Grows, Untouched,
         Unmapped, Translate;
    t' := t;
    ghost var m, free := p.words, p.free;
    Roots(m, t, free);
    NothingYet(m, t, free, virt, phys, perms);
    NoneNeeded(t, virt);
    if virt % PAGE_SIZE != 0 || phys % PAGE_SIZE != 0 {
      return Misaligned, t;
    }
    if size % PAGE_SIZE != 0 {
      return BadSize, t;
    }
    for idx := 0 to size / PAGE_SIZE
      invariant p.Valid() && Tree(p.words, t', p.free) && Grows(t, free, t', p.free) && Untouched(m, p.words, t, free)
      invariant idx <= PAGES && Mapped(m, t, p.words, t', virt, phys, idx, perms)
      invariant Unmapped(m, t, virt, idx) && t'.Keys == t.Keys + Needed(virt, idx)
    {
      ghost var m1, t1, free1 := p.words, t', p.free;
      var va := virt + PAGE_SIZE * idx;
      var entry;
      GrowsRoot(t, free, t', p.free);
      entry, t' := WalkAndAlloc(p, 2, table, va, t');
      GrowsTwice(t, free, t1, free1, t', p.free);
      UntouchedTwice(m, m1, p.words, t, free, t1, free1);
      if entry.None? {
        NotEnough(t, free, t1, t', p.free, virt, idx, size / PAGE_SIZE);
        return NoMemory, t';
      }
      MoreNeeded(t, t1, t', virt, idx);
      ghost var m2 := p.words;
      EntryOf(m2, t', p.free, va);
      var e := Word(p.words, entry.value.page, entry.value.index);
      PageTaken(m, t, m1, t1, m2, t', free, virt, phys, idx, perms);
      if Valid(e) {
        return Remap, t';
      }
      MappedEntry(phys / PAGE_SIZE + idx, perms);
      e := SetPpn(e, (phys + PAGE_SIZE * idx) / PAGE_SIZE);
      e := SetPerms(e, perms);
      e := SetValid(e);
      p.words := p.words[entry.value := e];
      MappedStep(m, t, m1, t1, m2, t', p.free, virt, phys, idx, perms, e);
      LeafWritten(m2, p.words, p.node, t, t', free, p.free, entry.value, va);
      UntouchedTwice(m, m2, p.words, t, free, t', p.free);
    }
    o := Done;
    AllAdded(t, free, t', p.free, Needed(virt, size / PAGE_SIZE));
    GrowsRoot(t, free, t', p.free);
    MappedMeans(m, t, free, p.words, t', p.free, virt, phys, size / PAGE_SIZE, perms);
  }

  /** The same in terms of the walk. */
  lemma {:induction false} MappedMeans(m: Words, t: Tables, free: seq<nat>, m': Words, t': Tables, free': seq<nat>,
        virt: nat, phys: nat, n: nat, perms: Perms)
    requires Mapped(m, t, m', t', virt, phys, n, perms) && Tree(m, t, free) && Tree(m', t', free')
    requires t'[Root] == t[Root]
    ensures Translates(m, m', t[Root], virt, phys, n, perms)
    ensures Unmapped(m, t, virt, n) ==> forall va :: Offset(virt, va) < n ==> Translate(m, t[Root], va).None?
  {
    hide Leaf, Tree, Offset, Translate;
    Roots(m, t, free);
    Roots(m', t', free');
    forall va: nat
      ensures Translate(m', t'[Root], va) == Leaf(m', t', va) && Translate(m, t[Root], va) == Leaf(m, t, va)
    {
      TranslateIsLeaf(m, t, free, va);
      TranslateIsLeaf(m', t', free', va);
    }
  }

  /** None of the first `n` pages is mapped. */
  ghost predicate Unmapped(m: Words, t: Tables, virt: nat, n: nat) {
    forall va :: Offset(virt, va) < n ==> Leaf(m, t, va).None?
  }

  lemma {:induction false} Roots(m: Words, t: Tables, free: seq<nat>)
    requires Tree(m, t, free)
    ensures Root in t
  {
  }

  lemma {:induction false} GrowsRoot(t: Tables, free: seq<nat>, t': Tables, free': seq<nat>)
    requires Grows(t, free, t', free')
    ensures Root in t && Root in t' && t'[Root] == t[Root]
  {
  }

  lemma {:induction false} NothingYet(m: Words, t: Tables, free: seq<nat>, virt: nat, phys: nat, perms: Perms)
    requires Root in t
    ensures Grows(t, free, t, free) && Untouched(m, m, t, free) && Mapped(m, t, m, t, virt, phys, 0, perms)
    ensures Unmapped(m, t, virt, 0)
  {
  }

  /** The next page is mapped exactly when it was before, unless the whole address
      space has been mapped. */
  lemma {:induction false} PageTaken(m: Words, t: Tables, m1: Words, t1: Tables, m2: Words, t2: Tables,
        free: seq<nat>, virt: nat, phys: nat, n: nat, perms: Perms)
    requires Mapped(m, t, m1, t1, virt, phys, n, perms) && SameMeaning(m1, t1, m2, t2) && Tree(m, t, free) && n <= PAGES
    ensures var va := virt + PAGE_SIZE * n;
            && (n == PAGES ==> Leaf(m2, t2, va).Some?)
            && (n < PAGES ==> Leaf(m2, t2, va) == Translate(m, t[Root], va))
            && (Leaf(m2, t2, va).None? && Unmapped(m, t, virt, n) ==> Unmapped(m, t, virt, n + 1))
  {
    hide Leaf, Tree, Offset, Page, Translate;
    var va := virt + PAGE_SIZE * n;
    TranslateIsLeaf(m, t, free, va);
    if n < PAGES {
      OffsetOfPage(virt, va, n);
      forall va' : nat | Offset(virt, va') == n
        ensures Leaf(m, t, va') == Leaf(m, t, va)
      {
        OffsetOfPage(virt, va', n);
        TranslationByPage(m, t, free, va', va);
        TranslateIsLeaf(m, t, free, va');
      }
    }
  }

  /** A write in a last-level table touches neither the free pages nor foreign ones. */
  lemma {:induction false} LeafWritten(m: Words, m': Words, node: Option<nat>, t: Tables, t': Tables, free: seq<nat>,
        free': seq<nat>, c: Cell, va: nat)
    requires Tree(m, t', free') && FreeList(m, node, free') && On(va, 0) in t' && c == Cell(t'[On(va, 0)], Vpn(va, 0))
    requires c in m' && m' == m[c := m'[c]]
    ensures FreeList(m', node, free') && Untouched(m, m', t', free')
  {
    FreeListKept(m, m', node, free');
  }

  // ----- unmapping

  /** The translations after the first `n` pages are cleared. */
  ghost predicate Cleared(m: Words, m': Words, t: Tables, virt: nat, n: nat) {
    forall va :: Leaf(m', t, va) == if Offset(virt, va) < n then None else Leaf(m, t, va)
  }

  /** All of the first `n` pages are mapped. */
  ghost predicate AllMapped(m: Words, t: Tables, virt: nat, n: nat) {
    forall va :: Offset(virt, va) < n ==> Leaf(m, t, va).Some?
  }

  function FrameAt(m: Words, t: Tables, va: nat): nat {
    var l := Leaf(m, t, va);
    if l.Some? then l.value.0 else 0
  }

  /** The frames of the first `n` pages, the last one first. */
  function Frames(m: Words, t: Tables, virt: nat, n: nat): seq<nat> {
    if n == 0 then [] else [FrameAt(m, t, virt + PAGE_SIZE * (n - 1))] + Frames(m, t, virt, n - 1)
  }

  lemma {:induction false} InFrames(m: Words, t: Tables, virt: nat, n: nat, f: nat)
    requires f in Frames(m, t, virt, n)
    ensures exists k :: 0 <= k < n && f == FrameAt(m, t, virt + PAGE_SIZE * k)
    decreases n
  {
    if f != FrameAt(m, t, virt + PAGE_SIZE * (n - 1)) {
      InFrames(m, t, virt, n - 1, f);
    }
  }

  /** The frames of the range can be given to the page allocator: they are pages of
      their own, none of them a table or free already. */
  ghost predicate Freeable(m: Words, t: Tables, free: seq<nat>, virt: nat, n: nat) {
    && (forall va :: Offset(virt, va) < n && Leaf(m, t, va).Some? ==>
          0 < FrameAt(m, t, va) && Foreign(t, free, FrameAt(m, t, va)))
    && (forall va, vb :: Offset(virt, va) < n && Offset(virt, vb) < n && Page(va) != Page(vb) &&
                         Leaf(m, t, va).Some? && Leaf(m, t, vb).Some? ==>
          FrameAt(m, t, va) != FrameAt(m, t, vb))
  }

  /** The next frame of the range is not free yet. */
  lemma {:induction false} NextFrame(m: Words, t: Tables, free: seq<nat>, virt: nat, n: nat, k: nat)
    requires Freeable(m, t, free, virt, n) && k < n && k < PAGES && Leaf(m, t, virt + PAGE_SIZE * k).Some?
    requires AllMapped(m, t, virt, k)
    ensures var f := FrameAt(m, t, virt + PAGE_SIZE * k);
            0 < f && Foreign(t, free, f) && f !in Frames(m, t, virt, k) + free
  {
    hide Leaf, FrameAt, Offset, Page;
    var va := virt + PAGE_SIZE * k;
    var f := FrameAt(m, t, va);
    OffsetOfPage(virt, va, k);
    if f in Frames(m, t, virt, k) {
      InFrames(m, t, virt, k, f);
      var j :| 0 <= j < k && f == FrameAt(m, t, virt + PAGE_SIZE * j);
      OffsetOfPage(virt, virt + PAGE_SIZE * j, j);
      OffsetOfPage(virt, va, j);
      assert false;
    }
  }

  /** A page that is no table becomes free. */
  lemma {:induction false} FreeFrame(m: Words, m': Words, t: Tables, free0: seq<nat>, free: seq<nat>, f: nat)
    requires Tree(m, t, free) && Foreign(t, free0, f)
    requires forall q, k :: q != f ==> Word(m', q, k) == Word(m, q, k)
    ensures Tree(m', t, [f] + free) && SameMeaning(m, t, m', t)
  {
    hide Decodes, Valid, Ppn, PermsOf, Entry, Vpn;
    forall q, k | q in t && !q.Last? && 0 <= k < 512
      ensures Points(m', t, q, k)
    {
      assert Points(m, t, q, k);
    }
    forall q, k | q in t && q.Last? && 0 <= k < 512
      ensures Maps(m', t, q, k)
    {
      assert Maps(m, t, q, k);
    }
  }

  lemma {:induction false} ClearedSame(m: Words, m1: Words, m2: Words, t: Tables, virt: nat, n: nat)
    requires Cleared(m, m1, t, virt, n) && SameMeaning(m1, t, m2, t)
    ensures Cleared(m, m2, t, virt, n)
  {
    hide Leaf, Offset;
  }

  ghost predicate PageMapped(m: Words, t: Tables, va: nat) {
    forall va' :: Page(va') == Page(va) ==> Leaf(m, t, va').Some?
  }

  ghost predicate LosesPage(m: Words, m': Words, t: Tables, va: nat) {
    forall va' :: Leaf(m', t, va') == if Page(va') != Page(va) then Leaf(m, t, va') else None
  }

  lemma {:induction false} LosesPageHere(m: Words, m': Words, t: Tables, va: nat)
    requires forall va' :: Leaf(m', t, va') == if Page(va') != Page(va) then Leaf(m, t, va') else None
    ensures LosesPage(m, m', t, va)
  {
  }

  lemma {:induction false} ZeroEntry()
    ensures Decodes(0) && !Valid(0)
  {
  }

  /** Clearing a last-level entry. */
  lemma {:induction false} ClearLeaf(m: Words, m': Words, t: Tables, free: seq<nat>, va: nat, e: nat)
    requires Tree(m, t, free) && On(va, 0) in t && e == 0 && m' == m[Cell(t[On(va, 0)], Vpn(va, 0)) := e]
    ensures Tree(m', t, free)
    ensures LosesPage(m, m', t, va)
  {
    hide *;
    ZeroEntry();
    SetLeaf(m, t, free, va, e);
    assert forall va' :: Leaf(m', t, va') == if Page(va') != Page(va) then Leaf(m, t, va') else None;
    LosesPageHere(m, m', t, va);
  }

  lemma {:induction false} ClearedPages(m: Words, m2: Words, m': Words, t: Tables, virt: nat, n: nat, va: nat)
    requires Cleared(m, m2, t, virt, n) && AllMapped(m, t, virt, n) && n < PAGES && va == virt + PAGE_SIZE * n
    requires PageMapped(m, t, va) && LosesPage(m2, m', t, va)
    ensures Cleared(m, m', t, virt, n + 1) && AllMapped(m, t, virt, n + 1)
  {
    hide Leaf, Offset, Page;
    forall va': nat
      ensures Offset(virt, va') == n <==> Page(va') == Page(va)
    {
      OffsetOfPage(virt, va', n);
    }
  }

  lemma {:induction false} ClearedMeans(m: Words, t: Tables, free: seq<nat>, m': Words, free': seq<nat>, virt: nat,
        n: nat)
    requires Cleared(m, m', t, virt, n) && AllMapped(m, t, virt, n) && Tree(m, t, free) && Tree(m', t, free')
    requires Root in t
    ensures Forgets(m, m', t[Root], virt, n)
    ensures forall va :: Offset(virt, va) < n ==> Translate(m, t[Root], va).Some?
  {
    hide Leaf, Tree, Offset, Translate;
    forall va: nat
      ensures Translate(m', t[Root], va) == Leaf(m', t, va) && Translate(m, t[Root], va) == Leaf(m, t, va)
    {
      TranslateIsLeaf(m, t, free, va);
      TranslateIsLeaf(m', t, free', va);
    }
  }

  /** What the walk finds at page `n` of a range whose first `n` pages are cleared. */
  lemma {:induction false} NextPage(m: Words, t: Tables, free: seq<nat>, m1: Words, free1: seq<nat>, virt: nat, n: nat)
    requires Tree(m, t, free) && Tree(m1, t, free1) && Cleared(m, m1, t, virt, n) && Root in t && n <= PAGES
    ensures var va := virt + PAGE_SIZE * n;
            && Walk(m1, 2, t[Root], va) == (if On(va, 0) in t then Some(Cell(t[On(va, 0)], Vpn(va, 0))) else None)
            && (On(va, 0) !in t ==> Leaf(m1, t, va).None?)
            && (if n < PAGES then Leaf(m1, t, va) == Leaf(m, t, va) == Translate(m, t[Root], va)
                  else Leaf(m1, t, va).None?)
            && (n < PAGES && Leaf(m, t, va).Some? ==> PageMapped(m, t, va))
  {
    var va := virt + PAGE_SIZE * n;
    WalkFindsTable(m1, t, free1, 2, va);
    hide Tree, Offset, Page, Translate, Walk;
    TranslateIsLeaf(m, t, free, va);
    if n < PAGES {
      OffsetOfPage(virt, va, n);
      forall va' : nat | Page(va') == Page(va)
        ensures Leaf(m, t, va') == Leaf(m, t, va)
      {
        TranslationByPage(m, t, free, va', va);
        TranslateIsLeaf(m, t, free, va');
      }
    }
  }

  method Unmap(p: PageAlloc, table: nat, virt: nat, size: nat, free: bool, ghost t: Tables) returns (o: Outcome)
    requires p.Valid() && Tree(p.words, t, p.free) && Root in t && table == t[Root]
    requires free ==> Freeable(p.words, t, p.free, virt, size / PAGE_SIZE)
    modifies p
    ensures p.Valid() && Tree(p.words, t, p.free) && Untouched(old(p.words), p.words, t, p.free)
    ensures o in {Done, Misaligned, BadSize, NotMapped} && (o == Misaligned <==> virt % PAGE_SIZE != 0)
    ensures o == BadSize <==> o != Misaligned && size % PAGE_SIZE != 0
    ensures o == NotMapped ==> exists k :: 0 <= k < size / PAGE_SIZE && Missing(old(p.words), table, virt, k)
    ensures o == Done ==> size / PAGE_SIZE <= PAGES && Forgets(old(p.words), p.words, table, virt, size / PAGE_SIZE)
    ensures o == Done ==> forall va :: Offset(virt, va) < size / PAGE_SIZE ==> Translate(old(p.words), table, va).Some?
    ensures o == Done ==> p.free == (if free then Frames(old(p.words), t, virt, size / PAGE_SIZE) else []) + old(p.free)
  {
    hide Decodes, Valid, Ppn, PermsOf, Leaf, Tree, Offset, Vpn, Entry, SameMeaning, Cleared, AllMapped, Untouched,
         Translate, Freeable, Walk, FrameAt, PageMapped, LosesPage, Forgets, Foreign, FlagsOf;
    ghost var m, free0 := p.words, p.free;
    NothingCleared(m, t, free0, virt);
    if virt % PAGE_SIZE != 0 {
      return Misaligned;
    }
    if size % PAGE_SIZE != 0 {
      return BadSize;
    }
    for idx := 0 to size / PAGE_SIZE
      invariant p.Valid() && Tree(p.words, t, p.free) && Untouched(m, p.words, t, p.free)
      invariant idx <= PAGES && Cleared(m, p.words, t, virt, idx) && AllMapped(m, t, virt, idx)
      invariant p.free == (if free then Frames(m, t, virt, idx) else []) + free0
    {
      var ok := UnmapPage(p, table, virt, idx, free, t, m, free0, size / PAGE_SIZE);
      if !ok {
        return NotMapped;
      }
    }
    ClearedMeans(m, t, free0, p.words, p.free, virt, size / PAGE_SIZE);
    o := Done;
  }

  /** Page `k` of the range has no translation, or has been unmapped already because the
      range goes around the address space. */
  predicate Missing(m: Words, root: nat, virt: nat, k: nat) {
    k >= PAGES || Translate(m, root, virt + PAGE_SIZE * k).None?
  }

  /** One round of the loop of `unmap`; false where it panics. */
  method UnmapPage(p: PageAlloc, table: nat, virt: nat, idx: nat, free: bool, ghost t: Tables, ghost m: Words,
        ghost free0: seq<nat>, ghost n: nat) returns (ok: bool)
    requires Tree(m, t, free0) && Root in t && table == t[Root] && (free ==> Freeable(m, t, free0, virt, n)) && idx < n
    requires idx <= PAGES
    requires p.Valid() && Tree(p.words, t, p.free) && Untouched(m, p.words, t, p.free)
    requires Cleared(m, p.words, t, virt, idx) && AllMapped(m, t, virt, idx)
    requires p.free == (if free then Frames(m, t, virt, idx) else []) + free0
    modifies p
    ensures p.Valid() && Tree(p.words, t, p.free) && Untouched(m, p.words, t, p.free)
    ensures !ok ==> Missing(m, table, virt, idx)
    ensures ok ==> idx < PAGES && Cleared(m, p.words, t, virt, idx + 1) && AllMapped(m, t, virt, idx + 1)
    ensures ok ==> p.free == (if free then Frames(m, t, virt, idx + 1) else []) + free0
  {
    hide Decodes, Valid, Ppn, PermsOf, Leaf, Tree, Offset, Vpn, Entry, SameMeaning, Cleared, AllMapped, Untouched,
         Translate, Freeable, Walk, FrameAt, PageMapped, LosesPage, Foreign, FlagsOf, FreeList, Frames;
    FramesStep(m, t, virt, idx);
    ghost var m1, free1 := p.words, p.free;
    var va := virt + PAGE_SIZE * idx;
    NextPage(m, t, free0, m1, free1, virt, idx);
    var entry := Walk(p.words, 2, table, va);
    if entry.None? {
      return false;
    }
    EntryOf(m1, t, free1, va);
    var e := Word(p.words, entry.value.page, entry.value.index);
    if !Valid(e) {
      return false;
    }
    LeafFrame(m1, t, va);
    if free {
      NextFrame(m, t, free0, virt, n, idx);
      SameFrame(m, m1, t, va);
      p.Free(Ppn(e));
      FreeFrame(m1, p.words, t, free0, free1, Ppn(e));
      FreedUntouched(m, m1, p.words, t, free1, Ppn(e));
    } else {
      SameMeaningHere(m1, t);
    }
    ghost var m2 := p.words;
    ClearedSame(m, m1, m2, t, virt, idx);
    p.words := p.words[entry.value := 0];
    ClearLeaf(m2, p.words, t, p.free, va, 0);
    ClearedPages(m, m2, p.words, t, virt, idx, va);
    LeafWritten(m2, p.words, p.node, t, t, free0, p.free, entry.value, va);
    UntouchedTrans(m, m2, p.words, t, p.free);
    ok := true;
  }

  lemma {:induction false} FramesStep(m: Words, t: Tables, virt: nat, n: nat)
    ensures Frames(m, t, virt, n + 1) == [FrameAt(m, t, virt + PAGE_SIZE * n)] + Frames(m, t, virt, n)
  {
  }

  lemma {:induction false} NothingCleared(m: Words, t: Tables, free: seq<nat>, virt: nat)
    ensures Cleared(m, m, t, virt, 0) && AllMapped(m, t, virt, 0) && Untouched(m, m, t, free)
    ensures Frames(m, t, virt, 0) == []
  {
  }

  lemma {:induction false} FreedUntouched(m: Words, m1: Words, m2: Words, t: Tables, free: seq<nat>, f: nat)
    requires Untouched(m, m1, t, free) && forall q, k :: q != f ==> Word(m2, q, k) == Word(m1, q, k)
    ensures Untouched(m, m2, t, [f] + free)
  {
    forall q, k | Foreign(t, [f] + free, q)
      ensures Word(m2, q, k) == Word(m, q, k)
    {
      assert f in [f] + free;
      assert Foreign(t, free, q);
    }
  }

  lemma {:induction false} UntouchedTrans(m: Words, m1: Words, m2: Words, t: Tables, free: seq<nat>)
    requires Untouched(m, m1, t, free) && Untouched(m1, m2, t, free)
    ensures Untouched(m, m2, t, free)
  {
  }

  lemma {:induction false} SameMeaningHere(m: Words, t: Tables)
    ensures SameMeaning(m, t, m, t)
  {
  }

  lemma {:induction false} LeafFrame(m: Words, t: Tables, va: nat)
    requires Leaf(m, t, va).Some?
    ensures On(va, 0) in t && FrameAt(m, t, va) == Ppn(Word(m, t[On(va, 0)], Vpn(va, 0)))
  {
  }

  lemma {:induction false} SameFrame(m: Words, m': Words, t: Tables, va: nat)
    requires Leaf(m', t, va) == Leaf(m, t, va)
    ensures FrameAt(m', t, va) == FrameAt(m, t, va)
  {
  }

  /** A range just mapped can be unmapped, and every address translates again as it did
      before. */
  method MapAndUnmap(p: PageAlloc, table: nat, virt: nat, phys: nat, size: nat, perms: Perms,
        ghost t: Tables) returns (o: Outcome, u: Outcome, ghost t': Tables)
    requires p.Valid() && Tree(p.words, t, p.free) && table == t[Root]
    modifies p
    ensures p.Valid() && Tree(p.words, t', p.free)
    ensures o == Done ==> u == Done && forall va :: Translate(p.words, table, va) == Translate(old(p.words), table, va)
  {
    hide Tree, Offset, Translate, Untouched, Grows;
    o, t' := Map(p, table, virt, phys, size, perms, t);
    GrowsRoot(t, old(p.free), t', p.free);
    u := o;
    if o == Done {
      ghost var m1 := p.words;
      u := Unmap(p, table, virt, size, false, t');
      RangeMapped(old(p.words), m1, table, virt, phys, size / PAGE_SIZE, perms);
    }
  }

  lemma {:induction false} RangeMapped(m: Words, m': Words, root: nat, virt: nat, phys: nat, n: nat, perms: Perms)
    requires Translates(m, m', root, virt, phys, n, perms) && n <= PAGES
    ensures forall k :: 0 <= k < n ==> !Missing(m', root, virt, k)
  {
    hide Offset, Translate, Page;
    forall k | 0 <= k < n
      ensures !Missing(m', root, virt, k)
    {
      OffsetOfPage(virt, virt + PAGE_SIZE * k, k);
    }
  }
}
