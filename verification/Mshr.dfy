/** src/cache/MSHR.bsv: per-miss lists of waiting requests and a shared free list,
    linked through index arrays. */
module Mshr {
  import opened Wrappers

  function At(list: seq<nat>, k: nat): Option<nat> {
    if k < |list| then Some(list[k]) else None
  }

  /** The entries reached from `first` are those of `list`, in that order. */
  ghost predicate Chain(next: seq<Option<nat>>, first: Option<nat>, list: seq<nat>) {
    && first == At(list, 0)
    && forall k :: 0 <= k < |list| ==> list[k] < |next| && next[list[k]] == At(list, k + 1)
  }

  function LastOf(list: seq<nat>): Option<nat> {
    if list == [] then None else Some(list[|list| - 1])
  }

  /** The list holds exactly the entries of this owner, once each. */
  ghost predicate Owned(owner: seq<Option<nat>>, o: Option<nat>, list: seq<nat>) {
    && (forall k :: 0 <= k < |list| ==> list[k] < |owner| && owner[list[k]] == o)
    && (forall j, k :: 0 <= j < k < |list| ==> list[j] != list[k])
    && (forall e :: 0 <= e < |owner| && owner[e] == o ==> e in list)
  }

  lemma {:induction false} ChainTail(next: seq<Option<nat>>, first: Option<nat>, list: seq<nat>)
    requires Chain(next, first, list) && list != []
    ensures first == Some(list[0]) && list[0] < |next| && Chain(next, next[list[0]], list[1..])
  {
  }

  lemma {:induction false} ChainKept(next: seq<Option<nat>>, first: Option<nat>, list: seq<nat>, e: nat, v: Option<nat>)
    requires Chain(next, first, list) && e < |next| && e !in list
    ensures Chain(next[e := v], first, list)
  {
  }

  lemma {:induction false} ChainPush(next: seq<Option<nat>>, first: Option<nat>, list: seq<nat>, e: nat)
    requires Chain(next, first, list) && e < |next| && e !in list
    ensures Chain(next[e := first], Some(e), [e] + list)
  {
  }

  /** A new last entry, which so far has no successor. */
  lemma {:induction false} ChainAppend(next: seq<Option<nat>>, first: Option<nat>, list: seq<nat>, e: nat)
    requires Chain(next, first, list) && e < |next| && e !in list && next[e] == None
    requires forall j, k :: 0 <= j < k < |list| ==> list[j] != list[k]
    ensures list == [] ==> Chain(next, Some(e), [e])
    ensures list != [] ==> LastOf(list).value < |next| && Chain(next[LastOf(list).value := Some(e)], first, list + [e])
  {
  }

  lemma {:induction false} OwnedLess(owner: seq<Option<nat>>, o: Option<nat>, list: seq<nat>, o': Option<nat>)
    requires Owned(owner, o, list) && list != [] && o' != o
    ensures list[0] < |owner| && Owned(owner[list[0] := o'], o, list[1..])
  {
  }

  lemma {:induction false} OwnedMore(owner: seq<Option<nat>>, o: Option<nat>, list: seq<nat>, e: nat)
    requires Owned(owner, o, list) && e < |owner| && owner[e] != o
    ensures Owned(owner[e := o], o, list + [e]) && Owned(owner[e := o], o, [e] + list) && e !in list
  {
    assert (list + [e])[|list|] == e && ([e] + list)[0] == e;
    forall x | 0 <= x < |owner| && owner[e := o][x] == o
      ensures x in list + [e] && x in [e] + list
    {
    }
  }

  lemma {:induction false} OwnedOther(owner: seq<Option<nat>>, o: Option<nat>, list: seq<nat>, e: nat, o': Option<nat>)
    requires Owned(owner, o, list) && e < |owner| && owner[e] != o && o' != o
    ensures Owned(owner[e := o'], o, list) && e !in list
  {
  }

  /** Register `i` and its list of entries, empty when the register is not busy. */
  ghost predicate Register(owner: seq<Option<nat>>, next: seq<Option<nat>>, i: nat, busy: bool, first: Option<nat>,
        last: Option<nat>, list: seq<nat>) {
    Owned(owner, Some(i), list) && Chain(next, first, list) && last == LastOf(list) && (!busy ==> list == [])
  }

  /** The free list; a free entry has no successor in any register. */
  ghost predicate FreeEntries(owner: seq<Option<nat>>, next: seq<Option<nat>>, freeList: seq<Option<nat>>,
        head: Option<nat>, free: seq<nat>) {
    && Chain(freeList, head, free) && Owned(owner, None, free) && |owner| == |next| == |freeList|
    && forall e :: 0 <= e < |owner| && owner[e] == None ==> next[e] == None
  }

  /** The entries of the list hold these requests, in this order. */
  ghost predicate Held<T(!new)>(entryV: seq<T>, list: seq<nat>, data: seq<T>) {
    |data| == |list| && forall k :: 0 <= k < |list| ==> list[k] < |entryV| && entryV[list[k]] == data[k]
  }

  /** An entry leaves the free list for a register. */
  lemma {:induction false} TakeEntry(owner: seq<Option<nat>>, next: seq<Option<nat>>, freeList: seq<Option<nat>>,
        free: seq<nat>, e: nat, i: nat)
    requires FreeEntries(owner, next, freeList, Some(e), free)
    ensures free != [] && e == free[0] && e < |owner| == |next| == |freeList| && owner[e] == None && next[e] == None
    ensures FreeEntries(owner[e := Some(i)], next, freeList[e := None], freeList[e], free[1..])
  {
    ChainTail(freeList, Some(e), free);
    OwnedLess(owner, None, free, Some(i));
    ChainKept(freeList, freeList[e], free[1..], e, None);
  }

  /** The links of entries that are not free do not matter to the free list. */
  lemma {:induction false} LinkElsewhere(owner: seq<Option<nat>>, next: seq<Option<nat>>, freeList: seq<Option<nat>>,
        head: Option<nat>, free: seq<nat>, l: nat, v: Option<nat>)
    requires FreeEntries(owner, next, freeList, head, free) && l < |owner| && owner[l].Some?
    ensures FreeEntries(owner, next[l := v], freeList, head, free)
  {
  }

  lemma {:induction false} HeldSame<T(!new)>(entryV: seq<T>, list: seq<nat>, data: seq<T>, e: nat, v: T)
    requires Held(entryV, list, data) && e < |entryV| && e !in list
    ensures Held(entryV[e := v], list, data)
  {
  }

  lemma {:induction false} HeldMore<T(!new)>(entryV: seq<T>, list: seq<nat>, data: seq<T>, e: nat, v: T)
    requires Held(entryV, list, data) && e < |entryV| && e !in list
    ensures Held(entryV[e := v], list + [e], data + [v]) && Held(entryV[e := v], [e], [v])
    ensures list == [] <==> data == []
  {
  }

  lemma {:induction false} HeldTail<T(!new)>(entryV: seq<T>, list: seq<nat>, data: seq<T>)
    requires Held(entryV, list, data)
    ensures list == [] <==> data == []
    ensures list != [] ==> list[0] < |entryV| && entryV[list[0]] == data[0] && Held(entryV, list[1..], data[1..])
  {
  }

  lemma {:induction false} AtReset(n: nat, owner: seq<Option<nat>>, next: seq<Option<nat>>, free: seq<nat>,
        valid: seq<bool>, first: seq<Option<nat>>, last: seq<Option<nat>>, queue: seq<seq<nat>>)
    requires 0 < n && |owner| == |next| == |free| == n && |valid| == |first| == |last| == |queue|
    requires forall e :: 0 <= e < n ==> owner[e] == None && next[e] == None && free[e] == e
    requires forall i :: 0 <= i < |valid| ==> first[i] == None && last[i] == None && queue[i] == []
    ensures FreeEntries(owner, next, InitialFree(n), Some(0), free)
    ensures Registers(owner, next, valid, first, last, queue)
  {
    hide Owned;
    assert Owned(owner, None, free) by {
      OwnedAtReset(owner, free);
    }
    assert forall i :: 0 <= i < |valid| ==> Owned(owner, Some(i), []) by {
      OwnedAtReset(owner, free);
    }
  }

  lemma {:induction false} OwnedAtReset(owner: seq<Option<nat>>, free: seq<nat>)
    requires |owner| == |free| && forall e :: 0 <= e < |owner| ==> owner[e] == None && free[e] == e
    ensures Owned(owner, None, free) && forall i :: Owned(owner, Some(i), [])
  {
    assert forall e :: 0 <= e < |owner| ==> free[e] in free;
  }

  /** The first entry of an idle register. */
  lemma {:induction false} FirstEntry(owner: seq<Option<nat>>, next: seq<Option<nat>>, i: nat, first: Option<nat>,
        last: Option<nat>, e: nat)
    requires Register(owner, next, i, false, first, last, []) && e < |owner| == |next| && owner[e] == None
    requires next[e] == None
    ensures Register(owner[e := Some(i)], next, i, true, Some(e), Some(e), [e])
  {
    OwnedMore(owner, Some(i), [], e);
    hide Owned;
    assert [] + [e] == [e];
  }

  /** One more entry of a busy register. */
  lemma {:induction false} MoreEntry(owner: seq<Option<nat>>, next: seq<Option<nat>>, i: nat, first: Option<nat>,
        last: Option<nat>, list: seq<nat>, e: nat)
    requires Register(owner, next, i, true, first, last, list) && e < |owner| == |next| && owner[e] == None
    requires next[e] == None
    ensures first.None? <==> list == []
    ensures last.None? <==> list == []
    ensures list == [] ==> Register(owner[e := Some(i)], next, i, true, Some(e), Some(e), [e])
    ensures list != [] ==> last.value < |next| && last.value != e && last.value in list && owner[last.value] == Some(i)
                           && Register(owner[e := Some(i)], next[last.value := Some(e)], i, true, first, Some(e),
                                 list + [e])
  {
    OwnedMore(owner, Some(i), list, e);
    ChainAppend(next, first, list, e);
    assert list == [] ==> list + [e] == [e];
  }

  /** Another register's entry and its link do not matter. */
  lemma {:induction false} OtherRegister(owner: seq<Option<nat>>, next: seq<Option<nat>>, i: nat, busy: bool,
        first: Option<nat>, last: Option<nat>, list: seq<nat>, e: nat, o: Option<nat>, l: nat, v: Option<nat>)
    requires Register(owner, next, i, busy, first, last, list) && e < |owner| == |next| && owner[e] != Some(i)
    requires o != Some(i)
    requires l < |next| && owner[l] != Some(i)
    ensures Register(owner[e := o], next, i, busy, first, last, list) && e !in list
    ensures Register(owner[e := o], next[l := v], i, busy, first, last, list)
  {
    OwnedOther(owner, Some(i), list, e, o);
    assert l !in list;
    ChainKept(next, first, list, l, v);
  }

  /** The oldest entry of a register goes back to the free list. */
  lemma {:induction false} ReturnEntry(owner: seq<Option<nat>>, next: seq<Option<nat>>, freeList: seq<Option<nat>>,
        head: Option<nat>, free: seq<nat>, i: nat, busy: bool, first: Option<nat>, last: Option<nat>, list: seq<nat>)
    requires FreeEntries(owner, next, freeList, head, free) && Register(owner, next, i, busy, first, last, list)
    ensures first.Some? <==> list != []
    ensures list != [] ==>
              var e := list[0];
              && first == Some(e) && e < |owner| && owner[e] == Some(i)
              && FreeEntries(owner[e := None], next[e := None], freeList[e := head], Some(e), [e] + free)
              && Register(owner[e := None], next[e := None], i, busy, next[e],
                          if last == Some(e) then None else last, list[1..])
  {
    if list != [] {
      var e := list[0];
      ChainTail(next, first, list);
      OwnedLess(owner, Some(i), list, None);
      OwnedMore(owner, None, free, e);
      ChainPush(freeList, head, free, e);
      ChainKept(next, next[e], list[1..], e, None);
    }
  }

  ghost predicate Registers(owner: seq<Option<nat>>, next: seq<Option<nat>>, valid: seq<bool>,
        first: seq<Option<nat>>, last: seq<Option<nat>>, queue: seq<seq<nat>>) {
    && |valid| == |first| == |last| == |queue| && |owner| == |next|
    && (forall e :: 0 <= e < |owner| && owner[e].Some? ==> owner[e].value < |valid|)
    && forall i :: 0 <= i < |valid| ==> Register(owner, next, i, valid[i], first[i], last[i], queue[i])
  }

  ghost predicate AllHeld<T(!new)>(entryV: seq<T>, queue: seq<seq<nat>>, requests: seq<seq<T>>) {
    |queue| == |requests| && forall i :: 0 <= i < |queue| ==> Held(entryV, queue[i], requests[i])
  }

  /** One register changes, and the links of entries that no other register has. */
  lemma {:induction false} UpdateRegister(owner: seq<Option<nat>>, next: seq<Option<nat>>, valid: seq<bool>,
        first: seq<Option<nat>>, last: seq<Option<nat>>, queue: seq<seq<nat>>, i: nat, e: nat, o: Option<nat>, l: nat,
        v: Option<nat>, busy: bool, f: Option<nat>, la: Option<nat>, list: seq<nat>)
    requires Registers(owner, next, valid, first, last, queue) && i < |valid| && e < |owner| && l < |owner|
    requires owner[e] in {None, Some(i)} && o in {None, Some(i)} && owner[l] in {None, Some(i)}
    requires Register(owner[e := o], next[l := v], i, busy, f, la, list)
    ensures Registers(owner[e := o], next[l := v], valid[i := busy], first[i := f], last[i := la], queue[i := list])
  {
    forall j | 0 <= j < |valid| && j != i
      ensures Register(owner[e := o], next[l := v], j, valid[j], first[j], last[j], queue[j])
    {
      OtherRegister(owner, next, j, valid[j], first[j], last[j], queue[j], e, o, l, v);
    }
    hide Register;
  }

  /** Entry `e`, in no other register's list, takes a new request. */
  lemma {:induction false} UpdateHeld<T(!new)>(owner: seq<Option<nat>>, next: seq<Option<nat>>, valid: seq<bool>,
        first: seq<Option<nat>>, last: seq<Option<nat>>, queue: seq<seq<nat>>, entryV: seq<T>, requests: seq<seq<T>>,
        i: nat, e: nat, req: T, list: seq<nat>, data: seq<T>)
    requires Registers(owner, next, valid, first, last, queue) && AllHeld(entryV, queue, requests) && i < |valid|
    requires e < |owner| == |entryV| && owner[e] in {None, Some(i)}
    requires Held(entryV[e := req], list, data)
    ensures AllHeld(entryV[e := req], queue[i := list], requests[i := data])
  {
    forall j | 0 <= j < |queue| && j != i
      ensures Held(entryV[e := req], queue[j], requests[j])
    {
      assert Register(owner, next, j, valid[j], first[j], last[j], queue[j]);
      HeldSame(entryV, queue[j], requests[j], e, req);
    }
    hide Held;
  }

  lemma {:induction false} Same<A>(s: seq<A>, i: nat)
    requires i < |s|
    ensures s[i := s[i]] == s
  {
  }

  /** A request appended to a busy register keeps everything. */
  lemma {:induction false} AppendKeeps<T(!new)>(owner: seq<Option<nat>>, next: seq<Option<nat>>,
        freeList: seq<Option<nat>>, free: seq<nat>, valid: seq<bool>, first: seq<Option<nat>>, last: seq<Option<nat>>,
        queue: seq<seq<nat>>, entryV: seq<T>, requests: seq<seq<T>>, entry: nat, index: nat, req: T)
    requires FreeEntries(owner, next, freeList, Some(entry), free) && |entryV| == |owner|
    requires Registers(owner, next, valid, first, last, queue) && AllHeld(entryV, queue, requests) && index < |valid|
    requires valid[index]
    ensures free != [] && entry < |owner| && entry == free[0]
    ensures last[index].Some? ==> last[index].value < |next| && last[index].value != entry
    ensures var next' := if last[index].Some? then next[last[index].value := Some(entry)] else next;
            var first' := if first[index].None? then first[index := Some(entry)] else first;
            var owner' := owner[entry := Some(index)];
            && FreeEntries(owner', next', freeList[entry := None], freeList[entry], free[1..])
            && Registers(owner', next', valid, first', last[index := Some(entry)],
                  queue[index := queue[index] + [entry]])
            && AllHeld(entryV[entry := req], queue[index := queue[index] + [entry]],
                  requests[index := requests[index] + [req]])
  {
    hide FreeEntries, Register, Held, Chain, Owned;
    var list := queue[index];
    TakeEntry(owner, next, freeList, free, entry, index);
    AtRegister(owner, next, valid, first, last, queue, entryV, requests, index);
    MoreEntry(owner, next, index, first[index], last[index], list, entry);
    var l := if last[index].Some? then last[index].value else entry;
    var link := if last[index].Some? then Some(entry) else next[entry];
    Same(next, entry);
    assert list == [] ==> list + [entry] == [entry];
    LinkElsewhere(owner[entry := Some(index)], next, freeList[entry := None], freeList[entry], free[1..], l, link);
    UpdateRegister(owner, next, valid, first, last, queue, index, entry, Some(index), l, link, true,
                   if list == [] then Some(entry) else first[index], Some(entry), list + [entry]);
    EntryIsNew(owner, next, index, first[index], last[index], list, entry);
    HeldMore(entryV, list, requests[index], entry, req);
    UpdateHeld(owner, next, valid, first, last, queue, entryV, requests, index, entry, req, list + [entry],
        requests[index] + [req]);
    Same(valid, index);
    Same(first, index);
  }

  /** Returning the oldest request of a register keeps everything. */
  lemma {:induction false} ReturnKeeps<T(!new)>(owner: seq<Option<nat>>, next: seq<Option<nat>>,
        freeList: seq<Option<nat>>, head: Option<nat>, free: seq<nat>, valid: seq<bool>, first: seq<Option<nat>>,
        last: seq<Option<nat>>, queue: seq<seq<nat>>, entryV: seq<T>, requests: seq<seq<T>>, i: nat)
    requires FreeEntries(owner, next, freeList, head, free) && |entryV| == |owner|
    requires Registers(owner, next, valid, first, last, queue) && AllHeld(entryV, queue, requests) && i < |valid|
    ensures first[i].None? <==> requests[i] == []
    ensures first[i].None? <==> queue[i] == []
    ensures first[i].Some? ==>
              var e := first[i].value;
              && e < |owner| && entryV[e] == requests[i][0]
              && FreeEntries(owner[e := None], next[e := None], freeList[e := head], Some(e), [e] + free)
              && Registers(owner[e := None], next[e := None], valid, first[i := next[e]],
                           if last[i] == Some(e) then last[i := None] else last, queue[i := queue[i][1..]])
              && AllHeld(entryV, queue[i := queue[i][1..]], requests[i := requests[i][1..]])
  {
    hide FreeEntries, Register, Held, Chain, Owned;
    AtRegister(owner, next, valid, first, last, queue, entryV, requests, i);
    ReturnEntry(owner, next, freeList, head, free, i, valid[i], first[i], last[i], queue[i]);
    HeldTail(entryV, queue[i], requests[i]);
    if first[i].Some? {
      var e := first[i].value;
      Same(valid, i);
      Same(entryV, e);
      Same(last, i);
      UpdateRegister(owner, next, valid, first, last, queue, i, e, None, e, None, valid[i], next[e],
          if last[i] == Some(e) then None else last[i], queue[i][1..]);
      UpdateHeld(owner, next, valid, first, last, queue, entryV, requests, i, e, entryV[e], queue[i][1..],
          requests[i][1..]);
    }
  }

  /** A tag's register: its low bits. */
  function Truncate(tag: nat, n: nat): (r: nat)
    requires 0 < n
    ensures r < n
  {
    tag % n
  }

  /** The free list; for each register its entries, oldest first, and their requests; for
      each entry the register that has it, if any; and which registers were allocated
      since reset. */
  datatype Lists<T> = Lists(free: seq<nat>, queue: seq<seq<nat>>, requests: seq<seq<T>>, owner: seq<Option<nat>>,
    known: seq<bool>)

  /** A register file without reset value: what it holds counts only where something was
      written since reset. */
  function Seen(v: seq<Option<nat>>, known: seq<bool>): (r: seq<Option<nat>>)
    requires |v| == |known|
    ensures |r| == |v| && forall i :: 0 <= i < |v| ==> r[i] == if known[i] then v[i] else None
  {
    seq(|v|, i requires 0 <= i < |v| => if known[i] then v[i] else None)
  }

  /** Pointers of `Bit#(entryW)`. */
  ghost predicate InRange(v: seq<Option<nat>>, n: nat) {
    forall i :: 0 <= i < |v| && v[i].Some? ==> v[i].value < n
  }

  /** All the registers. */
  datatype State<T> = State(mshrs: nat, entries: nat, validV: seq<bool>, tagV: seq<nat>, entryV: seq<T>,
    nextV: seq<Option<nat>>, freeList: seq<Option<nat>>, firstV: seq<Option<nat>>, lastV: seq<Option<nat>>,
    freeHead: Option<nat>, toFree: Option<nat>)

  /** What the widths of the registers give. */
  ghost predicate Sized<T>(s: State<T>) {
    && 0 < s.mshrs && 0 < s.entries
    && |s.validV| == |s.tagV| == |s.firstV| == |s.lastV| == s.mshrs
    && |s.entryV| == |s.nextV| == |s.freeList| == s.entries
    && InRange(s.firstV, s.entries) && InRange(s.lastV, s.entries) && InRange(s.nextV, s.entries)
    && InRange(s.freeList, s.entries)
    && (s.freeHead.Some? ==> s.freeHead.value < s.entries) && (s.toFree.Some? ==> s.toFree.value < s.mshrs)
  }

  /** Every entry is in the free list or in the list of one busy register, once, and holds
      that register's requests in the order they came. The first and last entry of a
      register say something only once it was allocated. */
  ghost predicate Fits<T(!new)>(s: State<T>, l: Lists<T>) {
    && Sized(s)
    && |l.queue| == |l.requests| == |l.known| == s.mshrs && |l.owner| == s.entries
    && (forall i :: 0 <= i < s.mshrs && s.validV[i] ==> l.known[i])
    && FreeEntries(l.owner, s.nextV, s.freeList, s.freeHead, l.free)
    && Registers(l.owner, s.nextV, s.validV, Seen(s.firstV, l.known), Seen(s.lastV, l.known), l.queue)
    && AllHeld(s.entryV, l.queue, l.requests)
  }

  /** No lists fit the registers: some entry is lost, or in two places. */
  ghost predicate Broken<T(!new)>(s: State<T>) {
    forall l: Lists<T> :: !Fits(s, l)
  }

  // ----- what the methods do to the registers

  function Index<T>(s: State<T>, tag: nat): (r: nat)
    requires 0 < s.mshrs
    ensures r < s.mshrs
  {
    Truncate(tag, s.mshrs)
  }

  function StartState<T>(s: State<T>, tag: nat, req: T): State<T>
    requires Sized(s) && s.freeHead.Some?
  {
    var i, e := Index(s, tag), s.freeHead.value;
    s.(freeHead := s.freeList[e], freeList := s.freeList[e := None], entryV := s.entryV[e := req],
       validV := s.validV[i := true], firstV := s.firstV[i := Some(e)], lastV := s.lastV[i := Some(e)],
       tagV := s.tagV[i := tag])
  }

  /** The link that appending `e` after `last` writes. */
  function Linked(next: seq<Option<nat>>, last: Option<nat>, e: nat): (r: seq<Option<nat>>)
    requires last.Some? ==> last.value < |next|
    ensures |r| == |next|
  {
    if last.Some? && last.value != e then next[last.value := Some(e)] else next
  }

  function AppendState<T>(s: State<T>, tag: nat, req: T): State<T>
    requires Sized(s) && s.freeHead.Some?
  {
    var i, e := Index(s, tag), s.freeHead.value;
    s.(freeHead := s.freeList[e], freeList := s.freeList[e := None], entryV := s.entryV[e := req],
       firstV := if s.firstV[i].None? then s.firstV[i := Some(e)] else s.firstV,
       nextV := Linked(s.nextV, s.lastV[i], e), lastV := s.lastV[i := Some(e)])
  }

  /** `freeEntry` is enabled. */
  predicate CanReturn<T>(s: State<T>)
    requires |s.firstV| == s.mshrs && (s.toFree.Some? ==> s.toFree.value < s.mshrs)
  {
    s.toFree.Some? && s.firstV[s.toFree.value].Some?
  }

  function ReturnState<T>(s: State<T>): State<T>
    requires Sized(s) && CanReturn(s)
  {
    var i := s.toFree.value;
    var e := s.firstV[i].value;
    s.(firstV := s.firstV[i := s.nextV[e]], lastV := if s.lastV[i] == Some(e) then s.lastV[i := None] else s.lastV,
       nextV := s.nextV[e := None], freeList := s.freeList[e := s.freeHead], freeHead := Some(e))
  }

  function DoneState<T>(s: State<T>): State<T>
    requires Sized(s) && s.toFree.Some?
  {
    s.(validV := s.validV[s.toFree.value := false], toFree := None)
  }

  /** Register `i` has the requests `data` in the entries `list`; `free` is the rest. */
  function Relist<T>(l: Lists<T>, free: seq<nat>, i: nat, list: seq<nat>, data: seq<T>, e: nat,
        o: Option<nat>): Lists<T>
    requires i < |l.queue| == |l.requests| && e < |l.owner|
  {
    l.(free := free, queue := l.queue[i := list], requests := l.requests[i := data], owner := l.owner[e := o])
  }

  lemma {:induction false} Parts<T(!new)>(s: State<T>, l: Lists<T>)
    requires Fits(s, l)
    ensures Sized(s) && |l.queue| == |l.requests| == |l.known| == s.mshrs && |l.owner| == s.entries
    ensures forall i :: 0 <= i < s.mshrs && s.validV[i] ==> l.known[i]
    ensures FreeEntries(l.owner, s.nextV, s.freeList, s.freeHead, l.free)
    ensures Registers(l.owner, s.nextV, s.validV, Seen(s.firstV, l.known), Seen(s.lastV, l.known), l.queue)
    ensures AllHeld(s.entryV, l.queue, l.requests)
  {
  }

  lemma {:induction false} SizeOf<T(!new)>(s: State<T>, l: Lists<T>)
    requires Fits(s, l)
    ensures Sized(s)
  {
  }

  /** A request for an idle register becomes the only one of its list. */
  lemma {:induction false} StartFits<T(!new)>(s: State<T>, l: Lists<T>, tag: nat, req: T)
    requires Fits(s, l) && s.freeHead.Some? && !s.validV[Index(s, tag)]
    ensures l.free != [] && s.freeHead.value < |l.owner|
    ensures var i, e := Index(s, tag), s.freeHead.value;
            Fits(StartState(s, tag, req),
                  Relist(l, l.free[1..], i, [e], [req], e, Some(i)).(known := l.known[i := true]))
  {
    hide FreeEntries, Register, Registers, Held, AllHeld, Truncate, Chain, Owned, Seen;
    var i, e := Index(s, tag), s.freeHead.value;
    var first, last := Seen(s.firstV, l.known), Seen(s.lastV, l.known);
    TakeEntry(l.owner, s.nextV, s.freeList, l.free, e, i);
    AtRegister(l.owner, s.nextV, s.validV, first, last, l.queue, s.entryV, l.requests, i);
    FirstEntry(l.owner, s.nextV, i, first[i], last[i], e);
    HeldMore(s.entryV, [], [], e, req);
    Same(s.nextV, e);
    UpdateRegister(l.owner, s.nextV, s.validV, first, last, l.queue, i, e, Some(i), e, None, true, Some(e), Some(e),
          [e]);
    UpdateHeld(l.owner, s.nextV, s.validV, first, last, l.queue, s.entryV, l.requests, i, e, req, [e], [req]);
    SeenWritten(s.firstV, l.known, i, Some(e));
    SeenWritten(s.lastV, l.known, i, Some(e));
  }

  /** A request for a busy register goes to the end of its list. */
  lemma {:induction false} AppendFits<T(!new)>(s: State<T>, l: Lists<T>, tag: nat, req: T)
    requires Fits(s, l) && s.freeHead.Some? && s.validV[Index(s, tag)]
    ensures l.free != [] && s.freeHead.value < |l.owner|
    ensures var i, e := Index(s, tag), s.freeHead.value;
            Fits(AppendState(s, tag, req),
                  Relist(l, l.free[1..], i, l.queue[i] + [e], l.requests[i] + [req], e, Some(i)))
  {
    hide FreeEntries, Register, Registers, Held, AllHeld, Truncate, Chain, Owned, Seen;
    var i, e := Index(s, tag), s.freeHead.value;
    SeenAt(s.firstV, l.known, i);
    SeenAt(s.lastV, l.known, i);
    AppendKeeps(l.owner, s.nextV, s.freeList, l.free, s.validV, Seen(s.firstV, l.known), Seen(s.lastV, l.known),
        l.queue, s.entryV, l.requests, e, i, req);
    SeenWritten(s.firstV, l.known, i, Some(e));
    SeenWritten(s.lastV, l.known, i, Some(e));
    Same(l.known, i);
  }

  /** A request for an idle register gets an entry that no list has any more. */
  lemma {:induction false} AppendBreaks<T(!new)>(s: State<T>, l: Lists<T>, tag: nat, req: T)
    requires Fits(s, l) && s.freeHead.Some? && !s.validV[Index(s, tag)]
    ensures l.free != [] && Broken(AppendState(s, tag, req))
  {
    hide FreeEntries, Register, Registers, Held, AllHeld, Truncate, Chain, Owned, Seen, Fits;
    Parts(s, l);
    var i, e, t := Index(s, tag), s.freeHead.value, AppendState(s, tag, req);
    var first, last := Seen(s.firstV, l.known), Seen(s.lastV, l.known);
    TakeEntry(l.owner, s.nextV, s.freeList, l.free, e, i);
    forall k: Lists<T>
      ensures !Fits(t, k)
    {
      if Fits(t, k) {
        Parts(t, k);
        SeenWhereBusy(s.firstV, l.known, s.validV);
        SeenWhereBusy(s.lastV, l.known, s.validV);
        SeenWhereBusy(t.firstV, k.known, t.validV);
        SeenWhereBusy(t.lastV, k.known, t.validV);
        LostEntry(l.owner, s.nextV, s.freeList, l.free, s.validV, first, last, l.queue, e, i, s.lastV[i],
            k.owner, k.free, Seen(t.firstV, k.known), Seen(t.lastV, k.known), k.queue);
        Partition(k.owner, t.nextV, t.freeList, t.freeHead, k.free, t.validV, Seen(t.firstV, k.known),
            Seen(t.lastV, k.known), k.queue, e);
        assert false;
      }
    }
  }

  lemma {:induction false} AppendFitsOrBreaks<T(!new)>(s: State<T>, l: Lists<T>, tag: nat, req: T)
    requires Fits(s, l)
    ensures s.freeHead.None? <==> l.free == []
    ensures |l.queue| == |l.requests| == s.mshrs && |l.owner| == s.entries
    ensures s.freeHead.Some? ==>
              var i, e, t := Index(s, tag), s.freeHead.value, AppendState(s, tag, req);
              && (Broken(t) <==> !s.validV[i])
              && (s.validV[i] ==>
                    Fits(t, Relist(l, l.free[1..], i, l.queue[i] + [e], l.requests[i] + [req], e, Some(i))))
  {
    hide Fits, FreeEntries, Registers, AllHeld, Truncate, Seen, InRange, Broken;
    Parts(s, l);
    FreeHead(l.owner, s.nextV, s.freeList, s.freeHead, l.free);
    if s.freeHead.Some? {
      var i, e := Index(s, tag), s.freeHead.value;
      if s.validV[i] {
        AppendFits(s, l, tag, req);
        NotBroken(AppendState(s, tag, req),
          Relist(l, l.free[1..], i, l.queue[i] + [e], l.requests[i] + [req], e, Some(i)));
      } else {
        AppendBreaks(s, l, tag, req);
      }
    }
  }

  /** The first entry of a register that was allocated since reset holds its oldest
      request; there is one exactly while requests are left. */
  lemma {:induction false} ReturnFits<T(!new)>(s: State<T>, l: Lists<T>)
    requires Fits(s, l) && s.toFree.Some? && l.known[s.toFree.value]
    ensures var i := s.toFree.value;
            && (CanReturn(s) <==> l.requests[i] != []) && (CanReturn(s) <==> l.queue[i] != [])
            && (CanReturn(s) ==>
                  var e := s.firstV[i].value;
                  && e < |l.owner| && s.entryV[e] == l.requests[i][0]
                  && Fits(ReturnState(s), Relist(l, [e] + l.free, i, l.queue[i][1..], l.requests[i][1..], e, None)))
  {
    hide FreeEntries, Register, Registers, Held, AllHeld, Chain, Owned, Seen;
    var i := s.toFree.value;
    SeenAt(s.firstV, l.known, i);
    SeenAt(s.lastV, l.known, i);
    ReturnKeeps(l.owner, s.nextV, s.freeList, s.freeHead, l.free, s.validV, Seen(s.firstV, l.known),
        Seen(s.lastV, l.known), l.queue, s.entryV, l.requests, i);
    if CanReturn(s) {
      SeenWritten(s.firstV, l.known, i, s.nextV[s.firstV[i].value]);
      SeenWritten(s.lastV, l.known, i, None);
      Same(l.known, i);
    }
  }

  /** For a register that was never allocated, the entry is put in a second place. */
  lemma {:induction false} ReturnBreaks<T(!new)>(s: State<T>, l: Lists<T>)
    requires Fits(s, l) && CanReturn(s) && !l.known[s.toFree.value]
    ensures Broken(ReturnState(s))
  {
    hide FreeEntries, Register, Registers, Held, AllHeld, Chain, Owned, Seen, Fits;
    Parts(s, l);
    var i, t := s.toFree.value, ReturnState(s);
    forall k: Lists<T>
      ensures !Fits(t, k)
    {
      if Fits(t, k) {
        Parts(t, k);
        SeenWhereBusy(s.firstV, l.known, s.validV);
        SeenWhereBusy(t.firstV, k.known, t.validV);
        StrayEntry(l.owner, s.nextV, s.freeList, s.freeHead, l.free, s.validV, Seen(s.firstV, l.known),
            Seen(s.lastV, l.known), l.queue, s.firstV[i].value, k.owner, k.free, Seen(t.firstV, k.known),
            Seen(t.lastV, k.known), k.queue);
        assert false;
      }
    }
  }

  lemma {:induction false} DoneFits<T(!new)>(s: State<T>, l: Lists<T>)
    requires Fits(s, l) && s.toFree.Some? && !CanReturn(s)
    ensures l.requests[s.toFree.value] == [] && Fits(DoneState(s), l)
  {
    hide FreeEntries, Register, Registers, Held, AllHeld, Chain, Owned, Seen;
    var i := s.toFree.value;
    SeenAt(s.firstV, l.known, i);
    ReturnKeeps(l.owner, s.nextV, s.freeList, s.freeHead, l.free, s.validV, Seen(s.firstV, l.known),
        Seen(s.lastV, l.known), l.queue, s.entryV, l.requests, i);
    NowIdle(l.owner, s.nextV, s.validV, Seen(s.firstV, l.known), Seen(s.lastV, l.known), l.queue, i);
  }

  /** Every entry is either free or in the list of exactly one register, a busy one. */
  lemma {:induction false} EntriesArePartitioned<T(!new)>(s: State<T>, l: Lists<T>, e: nat)
    requires Fits(s, l) && e < s.entries
    ensures e in l.free <==> l.owner[e] == None
    ensures forall i :: 0 <= i < s.mshrs ==> (e in l.queue[i] <==> l.owner[e] == Some(i))
    ensures e in l.free || exists i :: 0 <= i < s.mshrs && s.validV[i] && e in l.queue[i]
  {
    Partition(l.owner, s.nextV, s.freeList, s.freeHead, l.free, s.validV, Seen(s.firstV, l.known),
        Seen(s.lastV, l.known), l.queue, e);
  }

  /** At reset every entry is free and nothing is known of any register. */
  lemma {:induction false} ResetFits<T(!new)>(s: State<T>, l: Lists<T>)
    requires Sized(s) && s.freeList == InitialFree(s.entries) && s.freeHead == Some(0)
    requires forall e :: 0 <= e < s.entries ==> s.nextV[e] == None
    requires |l.queue| == |l.requests| == |l.known| == s.mshrs && |l.owner| == |l.free| == s.entries
    requires forall e :: 0 <= e < s.entries ==> l.owner[e] == None && l.free[e] == e
    requires forall i :: 0 <= i < s.mshrs ==> !s.validV[i] && !l.known[i] && l.queue[i] == [] && l.requests[i] == []
    ensures Fits(s, l)
  {
    hide FreeEntries, Registers, InRange;
    AtReset(s.entries, l.owner, s.nextV, l.free, s.validV, Seen(s.firstV, l.known), Seen(s.lastV, l.known), l.queue);
  }

  // ----- the registers

  class Mshr<T(0, !new)> {
    const mshrs: nat
    const entries: nat
    var validV: seq<bool>
    var tagV: seq<nat>
    var entryV: seq<T>
    var nextV: seq<Option<nat>>
    var freeList: seq<Option<nat>>
    var firstV: seq<Option<nat>>
    var lastV: seq<Option<nat>>
    var freeHead: Option<nat>
    var toFree: Option<nat>
    ghost var g: Lists<T>

    ghost function St(): State<T>
      reads this
    {
      State(mshrs, entries, validV, tagV, entryV, nextV, freeList, firstV, lastV, freeHead, toFree)
    }

    ghost predicate Valid()
      reads this
    {
      Fits(St(), g)
    }

    /** Draining register `i` is safe: it was allocated since reset, or happens to have no
        first entry. */
    ghost predicate Drainable(i: nat)
      reads this
      requires Valid() && i < mshrs
    {
      g.known[i] || firstV[i].None?
    }

    /** `firstV` and `lastV` have no reset value. */
    constructor (m: nat, n: nat, e: T, first: seq<Option<nat>>, last: seq<Option<nat>>)
      requires 0 < m && 0 < n && |first| == |last| == m && InRange(first, n) && InRange(last, n)
      ensures Valid() && mshrs == m && entries == n && toFree == None && |g.free| == n
      ensures firstV == first && lastV == last
      ensures forall i :: 0 <= i < m ==> !validV[i] && !g.known[i] && g.requests[i] == []
    {
      hide Fits, FreeEntries, Registers, AllHeld, Seen;
      mshrs, entries := m, n;
      validV, tagV, entryV := seq(m, _ => false), seq(m, _ => 0), seq(n, _ => e);
      nextV, firstV, lastV := seq(n, _ => None), first, last;
      freeList := InitialFree(n);
      freeHead, toFree := Some(0), None;
      g := Lists(seq(n, k => k), seq(m, _ => []), seq(m, _ => []), seq(n, _ => None), seq(m, _ => false));
      new;
      ResetFits(St(), g);
    }

    /** A new request takes a free entry and becomes the first of an idle register. */
    method AllocMSHR(tag: nat, req: T) returns (r: Option<nat>)
      requires Valid()
      modifies this
      ensures Valid()
      ensures r.None? <==> old(g.free) == [] || old(validV)[Truncate(tag, mshrs)]
      ensures r.None? ==> St() == old(St()) && g == old(g)
      ensures r.Some? ==> r.value == Truncate(tag, mshrs) && St() == StartState(old(St()), tag, req)
      ensures r.Some? ==> g.requests == old(g.requests)[r.value := [req]] && g.free == old(g.free)[1..]
      ensures r.Some? ==> g.known == old(g.known)[r.value := true]
    {
      hide Fits, Truncate, FreeEntries, Registers, Register, Chain, Owned, AllHeld, Held, Seen, InRange;
      Parts(St(), g);
      FreeHead(g.owner, nextV, freeList, freeHead, g.free);
      var index := Truncate(tag, mshrs);
      if freeHead.None? || validV[index] {
        return None;
      }
      StartFits(St(), g, tag, req);
      var entry := freeHead.value;
      g := Relist(g, g.free[1..], index, [entry], [req], entry, Some(index)).(known := g.known[index := true]);
      freeHead := freeList[entry];
      freeList := freeList[entry := None];
      entryV := entryV[entry := req];
      validV := validV[index := true];
      firstV := firstV[index := Some(entry)];
      lastV := lastV[index := Some(entry)];
      tagV := tagV[index := tag];
      r := Some(index);
    }

    /** One more request goes to the end of the register's list. Whether the register has
        this tag, or is busy at all, is not looked at; if it is idle, no lists fit the
        registers any more. */
    method AllocEntry(tag: nat, req: T) returns (ok: bool)
      requires Valid()
      modifies this
      ensures ok <==> old(g.free) != []
      ensures !ok ==> Valid() && St() == old(St()) && g == old(g)
      ensures ok ==> old(freeHead).Some? && St() == AppendState(old(St()), tag, req)
      ensures ok ==> (Broken(St()) <==> !old(validV)[Truncate(tag, mshrs)])
      ensures ok && old(validV)[Truncate(tag, mshrs)] ==>
            var i := Truncate(tag, mshrs);
            && Valid() && g.requests == old(g.requests)[i := old(g.requests)[i] + [req]]
            && g.free == old(g.free)[1..] && g.known == old(g.known)
    {
      hide Fits, Truncate, Broken, InRange, Linked;
      SizeOf(St(), g);
      AppendFitsOrBreaks(St(), g, tag, req);
      if freeHead.None? {
        return false;
      }
      var entry := freeHead.value;
      var index := Truncate(tag, mshrs);
      if validV[index] {
        g := Relist(g, g.free[1..], index, g.queue[index] + [entry], g.requests[index] + [req], entry, Some(index));
      }
      freeHead := freeList[entry];
      freeList := freeList[entry := None];
      entryV := entryV[entry := req];
      firstV := if firstV[index].None? then firstV[index := Some(entry)] else firstV;
      PointsAt(lastV, entries, index);
      nextV := Linked(nextV, lastV[index], entry);
      lastV := lastV[index := Some(entry)];
      ok := true;
    }

    /** Start to drain a register. */
    method FreeMSHR(tag: nat) returns (ok: bool)
      requires Valid()
      modifies this`toFree
      ensures Valid() && (ok <==> old(toFree).None?)
      ensures toFree == if ok then Some(Truncate(tag, mshrs)) else old(toFree)
    {
      ok := toFree.None?;
      if ok {
        toFree := Some(Truncate(tag, mshrs));
      }
    }

    /** The first entry of the register that is drained, which is its oldest request if the
        register was allocated since reset; the entry is free again. For any other
        register the entry is in two places now. */
    method FreeEntry() returns (r: Option<T>)
      requires Sized(St())
      modifies this
      ensures Sized(St()) && (r.Some? <==> CanReturn(old(St())))
      ensures r.None? ==> St() == old(St()) && g == old(g)
      ensures r.Some? ==> St() == ReturnState(old(St()))
      ensures old(Valid()) && r.None? ==> toFree.Some? ==> g.requests[toFree.value] == []
      ensures old(Valid()) && r.Some? ==> (Broken(St()) <==> !old(g).known[toFree.value])
      ensures old(Valid()) && r.Some? && old(g).known[toFree.value] ==>
            var i, before := toFree.value, old(g).requests;
            && Valid() && before[i] != [] && r.value == before[i][0] && g.requests == before[i := before[i][1..]]
            && |g.free| == |old(g).free| + 1 && g.known == old(g).known
    {
      hide Fits, Broken, FreeEntries, Registers, Register, Chain, Owned, AllHeld, Held, Seen, InRange;
      if toFree.None? {
        return None;
      }
      var idx := toFree.value;
      if firstV[idx].None? {
        if Valid() {
          DoneFits(St(), g);
        }
        return None;
      }
      ReturnSized(St());
      var entry := firstV[idx].value;
      if Valid() {
        Parts(St(), g);
        if g.known[idx] {
          ReturnFits(St(), g);
          g := Relist(g, [entry] + g.free, idx, g.queue[idx][1..], g.requests[idx][1..], entry, None);
          NotBroken(ReturnState(St()), g);
        } else {
          ReturnBreaks(St(), g);
        }
      }
      r := Some(entryV[entry]);
      firstV := firstV[idx := nextV[entry]];
      lastV := if lastV[idx] == Some(entry) then lastV[idx := None] else lastV;
      nextV := nextV[entry := None];
      freeList := freeList[entry := freeHead];
      freeHead := Some(entry);
    }

    /** Draining ends when the register has no first entry, and once every request of a
        register that was allocated was returned. */
    method FreeDone() returns (ok: bool)
      requires Sized(St())
      modifies this`validV, this`toFree
      ensures Sized(St()) && (ok <==> old(toFree).Some? && !CanReturn(old(St())))
      ensures St() == if ok then DoneState(old(St())) else old(St())
      ensures old(Valid()) ==> Valid() && (ok ==> g.requests[old(toFree).value] == [])
      ensures old(Valid()) && old(toFree).Some? && g.known[old(toFree).value] ==>
                (ok <==> g.requests[old(toFree).value] == [])
    {
      hide Fits, FreeEntries, Registers, Register, Chain, Owned, AllHeld, Held, Seen, InRange;
      ok := false;
      if toFree.Some? {
        if Valid() {
          Parts(St(), g);
          if g.known[toFree.value] {
            ReturnFits(St(), g);
          }
        }
        if firstV[toFree.value].None? {
          if Valid() {
            DoneFits(St(), g);
          }
          validV := validV[toFree.value := false];
          toFree := None;
          ok := true;
        }
      }
    }

    /** Draining a register that was allocated since reset returns its requests in the order
        they came, and leaves the other registers alone; so does draining one whose first
        entry happens to be none. Of any other it returns what was never requested. */
    method Drain(tag: nat) returns (out: seq<T>)
      requires Valid() && toFree == None
      modifies this
      ensures out == old(g.requests)[Truncate(tag, mshrs)] <==> old(Drainable(Truncate(tag, mshrs)))
      ensures old(Drainable(Truncate(tag, mshrs))) ==>
                && Valid() && g.requests == old(g.requests)[Truncate(tag, mshrs) := []]
                && |g.free| == |old(g.free)| + |out| && g.known == old(g.known)
      ensures validV == old(validV)[Truncate(tag, mshrs) := false] && toFree == None
    {
      hide Fits, Broken, FreeEntries, Registers, Register, Chain, Owned, AllHeld, Held, Seen, InRange;
      Parts(St(), g);
      var i := Truncate(tag, mshrs);
      ghost var was, safe, taken := g, Drainable(i), [];
      NothingHeld(St(), g, i);
      var ok := FreeMSHR(tag);
      out := [];
      var r := FreeEntry();
      if r.Some? {
        taken := [r.value];
      }
      while r.Some?
        invariant Sized(St()) && toFree == Some(i) && validV == old(validV) && (r.None? ==> firstV[i].None?)
        invariant taken == if r.Some? then out + [r.value] else out
        invariant safe ==> Valid() && Draining(was, g, i, taken) && (r.None? ==> g.requests[i] == [])
        invariant safe && r.Some? ==> was.known[i]
        invariant !safe ==> taken != []
        decreases Links(nextV) + (if firstV[i].Some? then 1 else 0), r.Some?
      {
        out := out + [r.value];
        if firstV[i].Some? {
          PointsAt(firstV, entries, i);
          LinkCleared(nextV, firstV[i].value);
        }
        ghost var before := g;
        r := FreeEntry();
        if r.Some? {
          taken := taken + [r.value];
          if safe {
            Drained(was, before, g, i, out);
          }
        }
      }
      ok := FreeDone();
    }
  }

  /** The requests `taken` of register `i` were returned, and nothing else happened. */
  ghost predicate Draining<T(!new)>(was: Lists<T>, l: Lists<T>, i: nat, taken: seq<T>) {
    && i < |was.requests| == |l.requests| && l.known == was.known && l.requests == was.requests[i := l.requests[i]]
    && taken + l.requests[i] == was.requests[i] && |l.free| == |was.free| + |taken|
  }

  lemma {:induction false} Drained<T(!new)>(was: Lists<T>, l: Lists<T>, k: Lists<T>, i: nat, taken: seq<T>)
    requires Draining(was, l, i, taken) && l.requests[i] != [] && k.known == l.known
    requires k.requests == l.requests[i := l.requests[i][1..]] && |k.free| == |l.free| + 1
    ensures Draining(was, k, i, taken + [l.requests[i][0]])
  {
    assert taken + [l.requests[i][0]] + l.requests[i][1..] == taken + l.requests[i];
  }

  lemma {:induction false} PointsAt(v: seq<Option<nat>>, n: nat, i: nat)
    requires InRange(v, n) && i < |v|
    ensures v[i].Some? ==> v[i].value < n
  {
  }

  lemma {:induction false} NotBroken<T(!new)>(s: State<T>, l: Lists<T>)
    requires Fits(s, l)
    ensures !Broken(s)
  {
  }

  lemma {:induction false} ReturnSized<T>(s: State<T>)
    requires Sized(s) && CanReturn(s)
    ensures Sized(ReturnState(s))
  {
  }

  /** A register that was never allocated holds no request. */
  lemma {:induction false} NothingHeld<T(!new)>(s: State<T>, l: Lists<T>, i: nat)
    requires Fits(s, l) && i < s.mshrs
    ensures !l.known[i] ==> l.requests[i] == []
  {
    hide FreeEntries, Owned, Chain, Seen;
    assert Register(l.owner, s.nextV, i, s.validV[i], Seen(s.firstV, l.known)[i], Seen(s.lastV, l.known)[i],
          l.queue[i]);
    assert Held(s.entryV, l.queue[i], l.requests[i]);
  }

  /** How many entries have a successor. */
  function Links(v: seq<Option<nat>>): nat {
    if v == [] then 0 else (if v[0].Some? then 1 else 0) + Links(v[1..])
  }

  lemma {:induction false} LinkCleared(v: seq<Option<nat>>, e: nat)
    requires e < |v|
    ensures Links(v[e := None]) == Links(v) - if v[e].Some? then 1 else 0
  {
    if e == 0 {
      assert v[0 := None][1..] == v[1..];
    } else {
      LinkCleared(v[1..], e - 1);
      assert v[e := None][1..] == v[1..][e - 1 := None];
    }
  }

  lemma {:induction false} SeenAt(v: seq<Option<nat>>, known: seq<bool>, i: nat)
    requires |v| == |known| && i < |v|
    ensures Seen(v, known)[i] == if known[i] then v[i] else None
  {
  }

  lemma {:induction false} SeenWritten(v: seq<Option<nat>>, known: seq<bool>, i: nat, x: Option<nat>)
    requires |v| == |known| && i < |v|
    ensures Seen(v[i := x], known[i := true]) == Seen(v, known)[i := x]
  {
  }

  lemma {:induction false} SeenWhereBusy(v: seq<Option<nat>>, known: seq<bool>, valid: seq<bool>)
    requires |v| == |known| == |valid| && forall i :: 0 <= i < |v| && valid[i] ==> known[i]
    ensures forall i :: 0 <= i < |v| && valid[i] ==> Seen(v, known)[i] == v[i]
  {
  }

  // ----- no lists fit

  /** Two chains from the same place agree as long as their links do. */
  lemma {:induction false} Follow(a: seq<Option<nat>>, b: seq<Option<nat>>, h: Option<nat>, l: seq<nat>, m: seq<nat>,
        k: nat)
    requires Chain(a, h, l) && Chain(b, h, m) && k < |l| && |a| == |b|
    requires forall i :: 0 <= i < k ==> b[l[i]] == a[l[i]]
    ensures k < |m| && m[k] == l[k]
  {
    if k > 0 {
      Follow(a, b, h, l, m, k - 1);
    }
  }

  lemma {:induction false} SameChain(a: seq<Option<nat>>, b: seq<Option<nat>>, h: Option<nat>, l: seq<nat>, m: seq<nat>)
    requires Chain(a, h, l) && Chain(b, h, m) && |a| == |b|
    requires forall i :: 0 <= i < |l| ==> b[l[i]] == a[l[i]]
    ensures m == l
  {
    forall k | 0 <= k < |l|
      ensures k < |m| && m[k] == l[k]
    {
      Follow(a, b, h, l, m, k);
    }
    if l != [] {
      assert b[l[|l| - 1]] == None;
    }
  }

  /** What an idle register's append can do to the list of another one: nothing, or make
      the entry its last. */
  lemma {:induction false} Appended(next: seq<Option<nat>>, first: Option<nat>, list: seq<nat>, entry: nat,
        stray: Option<nat>, list': seq<nat>)
    requires Chain(next, first, list) && entry !in list && entry < |next| && next[entry] == None
    requires forall j, k :: 0 <= j < k < |list| ==> list[j] != list[k]
    requires (stray.Some? ==> stray.value < |next|) && Chain(Linked(next, stray, entry), first, list')
    ensures entry in list' ==> LastOf(list') == Some(entry)
  {
    var next' := Linked(next, stray, entry);
    if stray.Some? && stray.value in list {
      var k :| 0 <= k < |list| && list[k] == stray.value;
      Follow(next, next', first, list, list', k);
      assert next'[list'[k]] == Some(entry);
      assert list'[k + 1] == entry && next'[entry] == None;
      assert |list'| == k + 2;
    } else {
      SameChain(next, next', first, list, list');
    }
  }

  lemma {:induction false} NotQueued(owner: seq<Option<nat>>, next: seq<Option<nat>>, busy: bool, first: Option<nat>,
        last: Option<nat>, list: seq<nat>, entry: nat, stray: Option<nat>, owner': seq<Option<nat>>, j: nat,
        first': Option<nat>, last': Option<nat>, list': seq<nat>)
    requires Register(owner, next, j, busy, first, last, list) && entry < |owner| == |next| && owner[entry] == None
    requires next[entry] == None && (stray.Some? ==> stray.value < |next|)
    requires Register(owner', Linked(next, stray, entry), j, busy, first', last', list')
    requires busy ==> first' == first && last' == last
    ensures entry !in list'
  {
    if busy {
      Appended(next, first, list, entry, stray, list');
    }
  }

  /** The entry an idle register got is neither free nor in any list. */
  lemma {:induction false} LostEntry(owner: seq<Option<nat>>, next: seq<Option<nat>>, freeList: seq<Option<nat>>,
        free: seq<nat>, valid: seq<bool>, first: seq<Option<nat>>, last: seq<Option<nat>>, queue: seq<seq<nat>>,
        entry: nat, index: nat, stray: Option<nat>, owner': seq<Option<nat>>, free': seq<nat>,
        first': seq<Option<nat>>, last': seq<Option<nat>>, queue': seq<seq<nat>>)
    requires FreeEntries(owner, next, freeList, Some(entry), free)
    requires Registers(owner, next, valid, first, last, queue)
    requires index < |valid| && entry < |owner| && (stray.Some? ==> stray.value < |next|)
    requires forall j :: 0 <= j < |valid| && valid[j] ==>
          j < |first'| && j < |last'| && first'[j] == first[j] && last'[j] == last[j]
    requires FreeEntries(owner', Linked(next, stray, entry), freeList[entry := None], freeList[entry], free')
    requires Registers(owner', Linked(next, stray, entry), valid, first', last', queue')
    ensures entry !in free' && forall j :: 0 <= j < |queue'| ==> entry !in queue'[j]
  {
    TakeEntry(owner, next, freeList, free, entry, index);
    SameChain(freeList[entry := None], freeList[entry := None], freeList[entry], free[1..], free');
    assert entry !in free';
    hide FreeEntries, Register, Chain, Owned;
    forall j | 0 <= j < |queue'|
      ensures entry !in queue'[j]
    {
      assert Register(owner', Linked(next, stray, entry), j, valid[j], first'[j], last'[j], queue'[j]);
      assert Register(owner, next, j, valid[j], first[j], last[j], queue[j]);
      NotQueued(owner, next, valid[j], first[j], last[j], queue[j], entry, stray, owner', j, first'[j], last'[j],
            queue'[j]);
    }
  }

  /** A free entry that is freed again: the free list runs into itself. */
  lemma {:induction false} FreedTwice(freeList: seq<Option<nat>>, head: Option<nat>, free: seq<nat>, x: nat,
        free': seq<nat>)
    requires Chain(freeList, head, free) && x in free && x < |freeList|
    requires forall j, k :: 0 <= j < k < |free| ==> free[j] != free[k]
    requires Chain(freeList[x := head], Some(x), free')
    ensures exists k :: 0 < k < |free'| && free'[k] == free'[0]
  {
    var k :| 0 <= k < |free| && free[k] == x;
    ChainTail(freeList[x := head], Some(x), free');
    Follow(freeList, freeList[x := head], head, free, free'[1..], k);
    assert free'[k + 1] == free'[0];
  }

  /** An entry of a list whose link is cleared is still in the list. */
  lemma {:induction false} StillQueued(next: seq<Option<nat>>, first: Option<nat>, list: seq<nat>, x: nat,
        list': seq<nat>)
    requires Chain(next, first, list) && x in list && x < |next|
    requires forall j, k :: 0 <= j < k < |list| ==> list[j] != list[k]
    requires Chain(next[x := None], first, list')
    ensures x in list'
  {
    var k :| 0 <= k < |list| && list[k] == x;
    Follow(next, next[x := None], first, list, list', k);
  }

  /** An entry handed out for a register that does not have it ends in two places. */
  lemma {:induction false} StrayEntry(owner: seq<Option<nat>>, next: seq<Option<nat>>, freeList: seq<Option<nat>>,
        head: Option<nat>, free: seq<nat>, valid: seq<bool>, first: seq<Option<nat>>, last: seq<Option<nat>>,
        queue: seq<seq<nat>>, x: nat, owner': seq<Option<nat>>, free': seq<nat>, first': seq<Option<nat>>,
        last': seq<Option<nat>>, queue': seq<seq<nat>>)
    requires FreeEntries(owner, next, freeList, head, free) && Registers(owner, next, valid, first, last, queue)
    requires x < |owner| && |first'| == |first| && |last'| == |last|
    requires forall j :: 0 <= j < |valid| && valid[j] ==> first'[j] == first[j]
    ensures !(FreeEntries(owner', next[x := None], freeList[x := head], Some(x), free')
              && Registers(owner', next[x := None], valid, first', last', queue'))
  {
    if && FreeEntries(owner', next[x := None], freeList[x := head], Some(x), free')
       && Registers(owner', next[x := None], valid, first', last', queue') {
      ChainTail(freeList[x := head], Some(x), free');
      assert owner'[x] == None;
      if owner[x] == None {
        FreedTwice(freeList, head, free, x, free');
        assert false;
      } else {
        var j := owner[x].value;
        assert Register(owner, next, j, valid[j], first[j], last[j], queue[j]);
        assert Register(owner', next[x := None], j, valid[j], first'[j], last'[j], queue'[j]);
        StillQueued(next, first[j], queue[j], x, queue'[j]);
        assert false;
      }
    }
  }

  lemma {:induction false} FreeHead(owner: seq<Option<nat>>, next: seq<Option<nat>>, freeList: seq<Option<nat>>,
        head: Option<nat>, free: seq<nat>)
    requires FreeEntries(owner, next, freeList, head, free)
    ensures head.None? <==> free == []
  {
  }

  /** Every entry is either free or in the list of one busy register. */
  lemma {:induction false} Partition(owner: seq<Option<nat>>, next: seq<Option<nat>>,
        freeList: seq<Option<nat>>, head: Option<nat>, free: seq<nat>, valid: seq<bool>, first: seq<Option<nat>>,
        last: seq<Option<nat>>, queue: seq<seq<nat>>, e: nat)
    requires FreeEntries(owner, next, freeList, head, free) && Registers(owner, next, valid, first, last, queue)
    requires e < |owner|
    ensures e in free <==> owner[e] == None
    ensures forall i :: 0 <= i < |queue| ==> (e in queue[i] <==> owner[e] == Some(i))
    ensures e in free || exists i :: 0 <= i < |queue| && valid[i] && e in queue[i]
  {
    forall i | 0 <= i < |queue|
      ensures e in queue[i] <==> owner[e] == Some(i)
    {
      assert Register(owner, next, i, valid[i], first[i], last[i], queue[i]);
    }
    if e !in free {
      var i := owner[e].value;
      assert Register(owner, next, i, valid[i], first[i], last[i], queue[i]);
    }
  }

  /** An empty register stops being busy. */
  lemma {:induction false} NowIdle(owner: seq<Option<nat>>, next: seq<Option<nat>>, valid: seq<bool>,
        first: seq<Option<nat>>, last: seq<Option<nat>>, queue: seq<seq<nat>>, i: nat)
    requires Registers(owner, next, valid, first, last, queue) && i < |valid| && queue[i] == []
    ensures Registers(owner, next, valid[i := false], first, last, queue)
  {
    hide Owned, Chain;
    forall j | 0 <= j < |valid|
      ensures Register(owner, next, j, valid[i := false][j], first[j], last[j], queue[j])
    {
      assert Register(owner, next, j, valid[j], first[j], last[j], queue[j]);
    }
  }

  lemma {:induction false} AtRegister<T(!new)>(owner: seq<Option<nat>>, next: seq<Option<nat>>, valid: seq<bool>,
        first: seq<Option<nat>>, last: seq<Option<nat>>, queue: seq<seq<nat>>, entryV: seq<T>, requests: seq<seq<T>>,
        i: nat)
    requires Registers(owner, next, valid, first, last, queue) && AllHeld(entryV, queue, requests) && i < |valid|
    ensures Register(owner, next, i, valid[i], first[i], last[i], queue[i]) && Held(entryV, queue[i], requests[i])
    ensures !valid[i] ==> queue[i] == []
  {
  }

  /** A free entry is in no register's list. */
  lemma {:induction false} EntryIsNew(owner: seq<Option<nat>>, next: seq<Option<nat>>, i: nat, first: Option<nat>,
        last: Option<nat>, list: seq<nat>, e: nat)
    requires Register(owner, next, i, true, first, last, list) && e < |owner| && owner[e] == None
    ensures e !in list
  {
  }

  /** The contents of the free list at reset: each entry is followed by the next one. */
  function InitialFree(n: nat): (r: seq<Option<nat>>)
    ensures |r| == n && forall k :: 0 <= k < n ==> r[k] == if k + 1 == n then None else Some(k + 1)
  {
    seq(n, (k: nat) => if k + 1 == n then None else Some(k + 1))
  }
}
