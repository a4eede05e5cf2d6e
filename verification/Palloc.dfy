/** rust/src/palloc.rs: the page allocator, a list of free pages threaded through the
    pages themselves. */
module Palloc {
  import opened Wrappers

  /** A word of memory, by page number and position in the page. */
  datatype Cell = Cell(page: nat, index: nat)

  type Words = map<Cell, nat>

  function Word(m: Words, page: nat, index: nat): nat {
    if Cell(page, index) in m then m[Cell(page, index)] else 0
  }

  /** The optional page number kept in the first two words of a free page. */
  function Link(m: Words, page: nat): Option<nat> {
    if Word(m, page, 0) == 0 then None else Some(Word(m, page, 1))
  }

  ghost predicate Distinct(s: seq<nat>) {
    forall i, j :: 0 <= i < j < |s| ==> s[i] != s[j]
  }

  function Head(free: seq<nat>, k: nat): Option<nat> {
    if k < |free| then Some(free[k]) else None
  }

  predicate Chained(m: Words, free: seq<nat>, k: nat)
    requires k < |free|
  {
    0 < free[k] && Link(m, free[k]) == Head(free, k + 1)
  }

  /** The pages reached from `node` are those of `free`, in that order and once each. */
  ghost predicate FreeList(m: Words, node: Option<nat>, free: seq<nat>) {
    && node == Head(free, 0) && Distinct(free)
    && forall k :: 0 <= k < |free| ==> Chained(m, free, k)
  }

  /** Page numbers from `last - 1` down to `first`. */
  function Down(first: nat, last: nat): (r: seq<nat>)
    requires first <= last
    ensures |r| == last - first && forall k :: 0 <= k < |r| ==> r[k] == last - 1 - k
  {
    seq(last - first, k requires 0 <= k < last - first => last - 1 - k)
  }

  /** Writing in pages that are not free keeps the list. */
  lemma {:induction false} FreeListKept(m: Words, m': Words, node: Option<nat>, free: seq<nat>)
    requires FreeList(m, node, free)
    requires forall p, i :: p in free ==> Word(m', p, i) == Word(m, p, i)
    ensures FreeList(m', node, free)
  {
    forall k | 0 <= k < |free|
      ensures Chained(m', free, k)
    {
      assert Chained(m, free, k);
      assert free[k] in free;
    }
  }

  /** A page with the link to the first free page becomes the first one. */
  lemma {:induction false} FreedPage(m: Words, node: Option<nat>, free: seq<nat>, ppn: nat)
    requires FreeList(m, node, free) && 0 < ppn && ppn !in free
    ensures var m' := if node.Some? then m[Cell(ppn, 0) := 1][Cell(ppn, 1) := node.value] else m[Cell(ppn, 0) := 0];
            && FreeList(m', Some(ppn), [ppn] + free)
            && forall p, i :: p != ppn ==> Word(m', p, i) == Word(m, p, i)
  {
    var m' := if node.Some? then m[Cell(ppn, 0) := 1][Cell(ppn, 1) := node.value] else m[Cell(ppn, 0) := 0];
    var all := [ppn] + free;
    forall k | 0 <= k < |all|
      ensures Chained(m', all, k)
    {
      if k > 0 {
        assert Chained(m, free, k - 1) && all[k] == free[k - 1] && free[k - 1] in free;
      }
    }
  }

  class PageAlloc {
    var node: Option<nat>
    var numberAlloc: nat
    var words: Words
    ghost var free: seq<nat>

    ghost predicate Valid()
      reads this
    {
      FreeList(words, node, free)
    }

    constructor (m: Words)
      ensures Valid() && free == [] && numberAlloc == 0 && words == m
    {
      node, numberAlloc, words, free := None, 0, m, [];
    }

    /** The page becomes the first free one; its first two words hold the link. */
    method Free(ppn: nat)
      requires Valid() && 0 < ppn && ppn !in free
      modifies this`node, this`words, this`free
      ensures Valid() && free == [ppn] + old(free)
      ensures forall p, i :: p != ppn ==> Word(words, p, i) == Word(old(words), p, i)
    {
      hide FreeList, Word;
      FreedPage(words, node, free, ppn);
      if node.Some? {
        words := words[Cell(ppn, 0) := 1][Cell(ppn, 1) := node.value];
      } else {
        words := words[Cell(ppn, 0) := 0];
      }
      node := Some(ppn);
      free := [ppn] + free;
    }

    /** The first free page, if any; the count goes up in either case. */
    method Alloc() returns (r: Option<nat>)
      requires Valid()
      modifies this`node, this`numberAlloc, this`free
      ensures Valid() && numberAlloc == old(numberAlloc) + 1
      ensures r.None? <==> old(free) == []
      ensures r.None? ==> free == old(free)
      ensures r.Some? ==> r.value == old(free)[0] && free == old(free)[1..] && 0 < r.value && r.value !in free
    {
      numberAlloc := numberAlloc + 1;
      r := node;
      if r.Some? {
        assert Chained(words, free, 0);
        node := Link(words, r.value);
        free := free[1..];
        forall k | 0 <= k < |free|
          ensures Chained(words, free, k)
        {
          assert Chained(words, old(free), k + 1);
        }
      }
    }

    method Init(first: nat, last: nat)
      requires Valid() && 0 < first <= last && (forall p :: first <= p < last ==> p !in free)
      modifies this`node, this`words, this`free
      ensures Valid() && free == Down(first, last) + old(free)
      ensures forall p: nat, i: nat :: !(first <= p < last) ==> Word(words, p, i) == Word(old(words), p, i)
    {
      for ppn := first to last
        invariant Valid() && free == Down(first, ppn) + old(free)
        invariant forall p: nat, i: nat :: !(first <= p < ppn) ==> Word(words, p, i) == Word(old(words), p, i)
      {
        assert ppn !in Down(first, ppn);
        Free(ppn);
        assert Down(first, ppn + 1) == [ppn] + Down(first, ppn);
      }
    }
  }
}
