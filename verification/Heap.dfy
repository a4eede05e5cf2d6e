/** rust/src/linked_list_allocator.rs: the heap, its byte count, and what callers may
    rely on over any sequence of operations. */
module Heap {
  import opened Holes
  import opened HoleList
  import opened Wrappers

  class Heap {
    var used: nat
    const holes: List

    ghost predicate Valid()
      reads this, holes
    {
      holes.Valid() && used + Total(holes.holes) == holes.top - holes.bottom
    }

    ghost function Live(): Live
      reads this, holes
    {
      holes.live
    }

    /** `Heap::init` on memory `[addr, addr + size)`. */
    constructor (word: nat, limit: nat, m: Memory, addr: nat, size: nat)
      requires PowerOfTwo(word) && 2 <= word <= 128 && 0 < addr && 2 * word <= size
      requires 2 * word <= AlignDown(size - (AlignUp(addr, word) - addr), word)
      ensures Valid() && fresh(holes) && Live() == map[] && used == 0
      ensures holes.w == word && addr <= holes.bottom < addr + word && holes.top + holes.pending == addr + size
    {
      holes := new List(word, limit, m, addr, size);
      used := 0;
    }

    function Size(): nat
      requires Valid()
      reads this, holes
    {
      holes.top - holes.bottom
    }

    /** The free bytes are those of the holes. */
    function Free(): (r: nat)
      requires Valid()
      reads this, holes
      ensures r == Total(holes.holes) && used + r == Size()
    {
      Size() - used
    }

    method AllocateFirstFit(l: Layout) returns (r: Option<nat>)
      requires Valid() && PowerOfTwo(l.align)
      modifies this, holes`mem, holes`first, holes`holes, holes`live
      ensures Valid()
      ensures r.None? <==>
                || holes.TooLarge(l)
                || forall x :: !FitsSomewhere(holes.w, old(holes.holes), x, BlockSize(holes.w, l), l.align)
      ensures r.None? ==> holes.holes == old(holes.holes) && Live() == old(Live()) && used == old(used)
      ensures r.None? ==> holes.mem == old(holes.mem)
      ensures r.Some? ==> forall x :: FitsSomewhere(holes.w, old(holes.holes), x, BlockSize(holes.w, l), l.align) ==>
            r.value <= x
      ensures r.Some? ==> FitsSomewhere(holes.w, old(holes.holes), r.value, BlockSize(holes.w, l), l.align)
      ensures r.Some? ==> r.value !in old(Live()) && Live() == old(Live())[r.value := l]
      ensures r.Some? ==> used == old(used) + BlockSize(holes.w, l)
      ensures forall x :: Used(holes.w, old(Live()), x) ==> Get(holes.mem, x) == old(Get(holes.mem, x))
    {
      hide Fair, Links, BlockSize, Get, Used, FitsSomewhere, PowerOfTwo, Multiple;
      r := holes.AllocateFirstFit(l);
      if r.Some? {
        used := used + BlockSize(holes.w, l);
      }
    }

    method Deallocate(ptr: nat, l: Layout)
      requires Valid() && ptr in Live() && Live()[ptr] == l
      modifies this, holes`mem, holes`first, holes`holes, holes`live
      ensures Valid() && Live() == old(Live()) - {ptr} && used + BlockSize(holes.w, l) == old(used)
      ensures forall x :: Used(holes.w, Live(), x) ==> Get(holes.mem, x) == old(Get(holes.mem, x))
    {
      hide Fair, Links, Get, Used, PowerOfTwo, Multiple;
      holes.Deallocate(ptr, l);
      FairSeparated(holes.w, holes.holes, holes.live, holes.bottom, holes.top);
      TotalBound(holes.w, holes.holes, holes.bottom, holes.top);
      used := used - BlockSize(holes.w, l);
    }

    method Extend(more: nat)
      requires Valid()
      modifies holes`mem, holes`first, holes`holes, holes`top, holes`pending
      ensures Valid() && Size() + holes.pending == old(Size()) + old(holes.pending) + more && Size() >= old(Size())
      ensures forall x :: Used(holes.w, Live(), x) ==> Get(holes.mem, x) == old(Get(holes.mem, x))
    {
      hide Fair, Links, BlockSize, Get, Used, PowerOfTwo, Multiple;
      holes.Extend(more);
    }

    /** Giving back at once what was just allocated restores the very same hole list. */
    method AllocateAndFree(l: Layout) returns (r: Option<nat>)
      requires Valid() && PowerOfTwo(l.align)
      modifies this, holes`mem, holes`first, holes`holes, holes`live
      ensures Valid() && holes.holes == old(holes.holes) && Live() == old(Live()) && used == old(used)
    {
      hide Fair, Links, BlockSize, Get, Used, FitsSomewhere, PowerOfTwo, Multiple, Total;
      ghost var w, lo, hi, before, live := holes.w, holes.bottom, holes.top, holes.holes, Live();
      r := AllocateFirstFit(l);
      if r.Some? {
        Deallocate(r.value, l);
        assert live[r.value := l] - {r.value} == live;
        DependsOnlyOnLive(w, holes.holes, before, live, lo, hi);
      }
    }

    /** Freeing every live block, in whatever order, leaves one hole over the whole heap. */
    method FreeAll(order: seq<nat>, layouts: map<nat, Layout>)
      requires Valid() && layouts == Live() && (forall b :: b in Live() <==> b in order)
      requires forall i, j :: 0 <= i < j < |order| ==> order[i] != order[j]
      modifies this, holes`mem, holes`first, holes`holes, holes`live
      ensures Valid() && Live() == map[] && used == 0 && holes.holes == [Region(holes.bottom, Size())]
    {
      hide Fair, Links, BlockSize, Get, Used, FitsSomewhere, PowerOfTwo, Multiple, Total;
      for k := 0 to |order|
        invariant Valid() && (forall b :: b in Live() <==> b in order[k..])
        invariant forall b :: b in Live() ==> b in layouts && Live()[b] == layouts[b]
      {
        RestOf(order, k);
        Deallocate(order[k], layouts[order[k]]);
      }
      assert Live() == map[];
      EmptyHeapIsOneHole(holes.w, holes.holes, holes.bottom, holes.top);
      OneTotal(holes.bottom, holes.top - holes.bottom);
    }
  }

  lemma {:induction false} RestOf(s: seq<nat>, k: nat)
    requires k < |s| && forall i, j :: 0 <= i < j < |s| ==> s[i] != s[j]
    ensures s[k] in s[k..] && s[k] !in s[k + 1..]
    ensures forall b :: b in s[k..] <==> b == s[k] || b in s[k + 1..]
  {
    assert s[k..] == [s[k]] + s[k + 1..];
  }

  lemma {:induction false} OneTotal(lo: nat, size: nat)
    ensures Total([Region(lo, size)]) == size
  {
  }

  /** The holes fit in the heap. */
  lemma {:induction false} TotalBound(w: nat, hs: seq<Region>, lo: nat, hi: nat)
    requires lo <= hi && Separated(hs, w, lo, hi)
    ensures Total(hs) <= hi - lo
    decreases |hs|
  {
    hide Multiple;
    if hs != [] {
      TotalBound(w, hs[1..], hs[0].End(), hi);
    }
  }
}
