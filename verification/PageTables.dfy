/** The format of rust/src/vm.rs and what its tables mean: entries, the walk, the tree
    of tables and the translation it gives. */
module PageTables {
  import opened Wrappers
  import opened Palloc

  const PAGE_SIZE := 4096
  const PAGES := 0x800_0000 // 2^27 pages of virtual memory
  const MAX_PPN := 0x40_0000_0000_0000 // 2^54

  datatype Flags = Flags(v: bool, r: bool, w: bool, x: bool, u: bool, g: bool, a: bool, d: bool)

  datatype Perms = Perms(write: bool, read: bool, exec: bool, user: bool)

  const NO_FLAGS := Flags(false, false, false, false, false, false, false, false)
  const TO_TABLE := NO_FLAGS.(v := true)

  function Bit(b: bool): nat {
    if b then 1 else 0
  }

  function Bits(f: Flags): nat {
    Bit(f.v) + 2 * Bit(f.r) + 4 * Bit(f.w) + 8 * Bit(f.x)
    + 16 * Bit(f.u) + 32 * Bit(f.g) + 64 * Bit(f.a) + 128 * Bit(f.d)
  }

  /** `Flags::from_bits`: nothing when an unknown bit is set. */
  function FromBits(n: nat): Option<Flags> {
    if n >= 256 then None
    else Some(Flags(n % 2 == 1, n / 2 % 2 == 1, n / 4 % 2 == 1, n / 8 % 2 == 1, n / 16 % 2 == 1, n / 32 % 2 == 1,
          n / 64 % 2 == 1, n / 128 == 1))
  }

  /** An entry is one word: ten bits of flags, then the page number. */
  function Entry(ppn: nat, f: Flags): nat {
    Bits(f) + 1024 * ppn
  }

  function Ppn(e: nat): nat {
    e / 1024
  }

  /** `flags()` panics on entries for which this fails. */
  predicate Decodes(e: nat) {
    FromBits(e % 1024).Some?
  }

  function FlagsOf(e: nat): Flags
    requires Decodes(e)
  {
    FromBits(e % 1024).value
  }

  predicate Valid(e: nat)
    requires Decodes(e)
  {
    FlagsOf(e).v
  }

  function PermsOf(e: nat): Perms
    requires Decodes(e)
  {
    var f := FlagsOf(e);
    Perms(f.w, f.r, f.x, f.u)
  }

  function SetPpn(e: nat, ppn: nat): nat
    requires Decodes(e)
  {
    Entry(ppn, FlagsOf(e))
  }

  function SetPerms(e: nat, p: Perms): nat
    requires Decodes(e)
  {
    Entry(Ppn(e), FlagsOf(e).(w := p.write, r := p.read, x := p.exec, u := p.user))
  }

  function SetValid(e: nat): nat
    requires Decodes(e)
  {
    Entry(Ppn(e), FlagsOf(e).(v := true))
  }

  /** Encoding and decoding are inverse, and an entry fits in 64 bits. */
  lemma {:induction false} EntryRoundTrip(ppn: nat, f: Flags)
    ensures Ppn(Entry(ppn, f)) == ppn && Decodes(Entry(ppn, f)) && FlagsOf(Entry(ppn, f)) == f
    ensures ppn < MAX_PPN ==> Entry(ppn, f) < 0x1_0000_0000_0000_0000
  {
    var n := Bits(f);
    FlagsRoundTrip(f);
    assert (n + 1024 * ppn) % 1024 == n && (n + 1024 * ppn) / 1024 == ppn;
  }

  lemma {:induction false} FlagsRoundTrip(f: Flags)
    ensures Bits(f) < 256 && FromBits(Bits(f)) == Some(f)
  {
    var n := Bits(f);
    var n1 := Bit(f.r) + 2 * Bit(f.w) + 4 * Bit(f.x) + 8 * Bit(f.u) + 16 * Bit(f.g) + 32 * Bit(f.a) + 64 * Bit(f.d);
    var n2 := Bit(f.w) + 2 * Bit(f.x) + 4 * Bit(f.u) + 8 * Bit(f.g) + 16 * Bit(f.a) + 32 * Bit(f.d);
    var n3 := Bit(f.x) + 2 * Bit(f.u) + 4 * Bit(f.g) + 8 * Bit(f.a) + 16 * Bit(f.d);
    var n4 := Bit(f.u) + 2 * Bit(f.g) + 4 * Bit(f.a) + 8 * Bit(f.d);
    var n5 := Bit(f.g) + 2 * Bit(f.a) + 4 * Bit(f.d);
    var n6 := Bit(f.a) + 2 * Bit(f.d);
    assert n / 2 == n1 && n / 4 == n2 && n / 8 == n3 && n / 16 == n4 && n / 32 == n5 && n / 64 == n6
          && n / 128 == Bit(f.d);
  }

  /** And every decodable entry is the encoding of its parts. */
  lemma {:induction false} EntryIsItsParts(e: nat)
    requires Decodes(e)
    ensures Entry(Ppn(e), FlagsOf(e)) == e
  {
    var n := e % 1024;
    assert e == 1024 * (e / 1024) + n;
    BitsOfBits(n);
  }

  lemma {:induction false} BitsOfBits(n: nat)
    requires n < 256
    ensures Bits(FromBits(n).value) == n
  {
    hide FromBits, Low;
    Halves(n);
    FromBitsOf(n);
    Half(n);
    Half(n / 2);
    Half(n / 4);
    Half(n / 8);
    Half(n / 16);
    Half(n / 32);
    Half(n / 64);
    AddUp(FromBits(n).value, n, n / 2, n / 4, n / 8, n / 16, n / 32, n / 64, n / 128);
  }

  lemma {:induction false} AddUp(f: Flags, n: nat, n1: nat, n2: nat, n3: nat, n4: nat, n5: nat, n6: nat, n7: nat)
    requires n == 2 * n1 + Bit(f.v) && n1 == 2 * n2 + Bit(f.r) && n2 == 2 * n3 + Bit(f.w) && n3 == 2 * n4 + Bit(f.x)
    requires n4 == 2 * n5 + Bit(f.u) && n5 == 2 * n6 + Bit(f.g) && n6 == 2 * n7 + Bit(f.a) && n7 == Bit(f.d)
    ensures Bits(f) == n
  {
  }

  lemma {:induction false} FromBitsOf(n: nat)
    requires n < 256
    ensures FromBits(n) == Some(Flags(Low(n), Low(n / 2), Low(n / 4), Low(n / 8), Low(n / 16), Low(n / 32),
          Low(n / 64), n / 128 == 1))
  {
  }

  predicate Low(n: nat) {
    n % 2 == 1
  }

  lemma {:induction false} Half(n: nat)
    ensures n == 2 * (n / 2) + Bit(Low(n))
  {
  }

  lemma {:induction false} Halves(n: nat)
    ensures n / 4 == n / 2 / 2 && n / 8 == n / 4 / 2 && n / 16 == n / 8 / 2 && n / 32 == n / 16 / 2
    ensures n / 64 == n / 32 / 2 && n / 128 == n / 64 / 2
  {
  }

  /** What `map` writes over an empty entry. */
  lemma {:induction false} MappedEntry(ppn: nat, p: Perms)
    ensures Decodes(0) && !Valid(0) && Decodes(SetPpn(0, ppn)) && Decodes(SetPerms(SetPpn(0, ppn), p))
    ensures var e := SetValid(SetPerms(SetPpn(0, ppn), p));
            Decodes(e) && Valid(e) && Ppn(e) == ppn && PermsOf(e) == p
  {
    EntryRoundTrip(ppn, NO_FLAGS);
    var f1 := NO_FLAGS.(w := p.write, r := p.read, x := p.exec, u := p.user);
    EntryRoundTrip(ppn, f1);
    EntryRoundTrip(ppn, f1.(v := true));
  }

  // ----- virtual addresses

  function Vpn(va: nat, level: nat): nat
    requires level < 3
  {
    match level
    case 0 => va / 0x1000 % 512
    case 1 => va / 0x20_0000 % 512
    case _ => va / 0x4000_0000 % 512
  }

  /** The page of an address; addresses are 39 bits wide and wrap around. */
  function Page(va: nat): nat {
    va / PAGE_SIZE % PAGES
  }

  /** The three indices together are the page. */
  lemma {:induction false} VpnsAreThePage(va: nat)
    ensures Page(va) == Vpn(va, 0) + 512 * Vpn(va, 1) + 262144 * Vpn(va, 2)
  {
    var n := va / 4096;
    assert va / 0x20_0000 == n / 512;
    assert va / 0x4000_0000 == n / 512 / 512;
    var a, b := n / 512, n / 512 / 512;
    var c := b / 512;
    assert n == 512 * a + n % 512 && a == 512 * b + a % 512 && b == 512 * c + b % 512;
    assert n == 134217728 * c + (262144 * (b % 512) + 512 * (a % 512) + n % 512);
  }

  lemma {:induction false} SamePage(a: nat, b: nat)
    ensures Page(a) == Page(b) <==> Vpn(a, 0) == Vpn(b, 0) && Vpn(a, 1) == Vpn(b, 1) && Vpn(a, 2) == Vpn(b, 2)
  {
    VpnsAreThePage(a);
    VpnsAreThePage(b);
  }

  /** How many pages `va` is after `first`, around the address space. */
  function Offset(first: nat, va: nat): (k: nat)
    ensures k < PAGES
  {
    (Page(va) + PAGES - Page(first)) % PAGES
  }

  lemma {:induction false} OffsetOfPage(first: nat, va: nat, k: nat)
    requires k < PAGES
    ensures Offset(first, va) == k <==> Page(va) == Page(first + PAGE_SIZE * k)
  {
    var f := first / 4096;
    assert (first + 4096 * k) / 4096 == f + k;
    assert f == PAGES * (f / PAGES) + f % PAGES;
    var x := f % PAGES + k;
    assert (f + k) % PAGES == if x < PAGES then x else x - PAGES;
  }

  // ----- the tree of tables

  /** A table, named by the indices on the way to it. */
  datatype Place = Root | Mid(i2: nat) | Last(j2: nat, j1: nat)

  type Tables = map<Place, nat>

  function Child(p: Place, i: nat): Place
    requires !p.Last?
  {
    if p.Root? then Mid(i) else Last(p.i2, i)
  }

  /** The table on the way to `va` at a level. */
  function On(va: nat, level: nat): Place
    requires level < 3
  {
    match level
    case 0 => Last(Vpn(va, 2), Vpn(va, 1))
    case 1 => Mid(Vpn(va, 2))
    case _ => Root
  }

  /** Entry `i` of the table at `p` points to the child table if there is one, and is
      otherwise empty. */
  predicate Points(m: Words, t: Tables, p: Place, i: nat)
    requires p in t && !p.Last?
  {
    Word(m, t[p], i) == if Child(p, i) in t then Entry(t[Child(p, i)], TO_TABLE) else 0
  }

  /** A last-level entry is valid or empty. */
  predicate Maps(m: Words, t: Tables, p: Place, i: nat)
    requires p in t
  {
    var e := Word(m, t[p], i);
    Decodes(e) && (Valid(e) || e == 0)
  }

  /** The tables form a tree of distinct pages, none of them free. */
  ghost predicate Tree(m: Words, t: Tables, free: seq<nat>) {
    && Root in t
    && (forall p :: p in t ==>
          p.Root? || (p.Mid? && p.i2 < 512) || (p.Last? && p.j2 < 512 && p.j1 < 512 && Mid(p.j2) in t))
    && (forall p, q :: p in t && q in t && t[p] == t[q] ==> p == q)
    && (forall p :: p in t ==> t[p] !in free)
    && (forall p, i :: p in t && !p.Last? && 0 <= i < 512 ==> Points(m, t, p, i))
    && (forall p, i :: p in t && p.Last? && 0 <= i < 512 ==> Maps(m, t, p, i))
  }

  /** `walk`: the cell of the last-level entry, if all tables on the way exist. */
  function Walk(m: Words, level: nat, table: nat, va: nat): Option<Cell>
    requires level < 3
  {
    var i := Vpn(va, level);
    var e := Word(m, table, i);
    if level == 0 then Some(Cell(table, i))
    else if !Decodes(e) then None // the program stops
    else if Valid(e) then Walk(m, level - 1, Ppn(e), va)
    else None
  }

  /** The frame and permissions of an address, if its page is mapped. */
  function Translate(m: Words, root: nat, va: nat): Option<(nat, Perms)> {
    var c := Walk(m, 2, root, va);
    if c.None? then None
    else
      var e := Word(m, c.value.page, c.value.index);
      if Decodes(e) && Valid(e) then Some((Ppn(e), PermsOf(e))) else None
  }

  lemma {:induction false} PointerEntry(ppn: nat)
    ensures var e := Entry(ppn, TO_TABLE); Decodes(e) && Valid(e) && Ppn(e) == ppn && FlagsOf(e) == TO_TABLE && e != 0
    ensures Decodes(0) && !Valid(0)
  {
    EntryRoundTrip(ppn, TO_TABLE);
  }

  /** From any table on the way, the walk ends in the last table on the way, if it
      exists. */
  lemma {:induction false} WalkFindsTable(m: Words, t: Tables, free: seq<nat>, level: nat, va: nat)
    requires Tree(m, t, free) && level < 3 && On(va, level) in t
    ensures Walk(m, level, t[On(va, level)], va) == if On(va, 0) in t then Some(Cell(t[On(va, 0)], Vpn(va, 0)))
          else None
    decreases level
  {
    hide Decodes, Valid, Ppn, Entry, Vpn;
    VpnBound(va);
    if level > 0 {
      var p, i := On(va, level), Vpn(va, level);
      assert Points(m, t, p, i);
      assert Child(p, i) == On(va, level - 1);
      if Child(p, i) in t {
        PointerEntry(t[Child(p, i)]);
        WalkFindsTable(m, t, free, level - 1, va);
      } else {
        PointerEntry(0);
      }
    }
  }

  lemma {:induction false} VpnBound(va: nat)
    ensures Vpn(va, 0) < 512 && Vpn(va, 1) < 512 && Vpn(va, 2) < 512
  {
  }

  /** The translation read off the last table on the way. */
  function Leaf(m: Words, t: Tables, va: nat): Option<(nat, Perms)> {
    if On(va, 0) !in t then None
    else
      var e := Word(m, t[On(va, 0)], Vpn(va, 0));
      if Decodes(e) && Valid(e) then Some((Ppn(e), PermsOf(e))) else None
  }

  lemma {:induction false} TranslateIsLeaf(m: Words, t: Tables, free: seq<nat>, va: nat)
    requires Tree(m, t, free)
    ensures Translate(m, t[Root], va) == Leaf(m, t, va)
  {
    hide Decodes, Valid, Ppn, PermsOf;
    WalkFindsTable(m, t, free, 2, va);
  }

  /** Addresses in the same page have the same translation. */
  lemma {:induction false} TranslationByPage(m: Words, t: Tables, free: seq<nat>, a: nat, b: nat)
    requires Tree(m, t, free) && Page(a) == Page(b)
    ensures Translate(m, t[Root], a) == Translate(m, t[Root], b)
  {
    TranslateIsLeaf(m, t, free, a);
    TranslateIsLeaf(m, t, free, b);
    SamePage(a, b);
  }

  /** The walk of section 4.3.2 of the RISC-V Privileged Architecture for loads: an
      entry that is not valid, or writable but not readable, is a fault; one that can be
      read or executed is a leaf, which above the last level must be aligned; a pointer
      in the last table is a fault. The accessed and dirty bits are left to software. */
  function HardwareWalk(m: Words, level: nat, table: nat, va: nat): Option<(nat, Perms)>
    requires level < 3
  {
    var e := Word(m, table, Vpn(va, level));
    if !Decodes(e) then None
    else
      var f := FlagsOf(e);
      if !f.v || (!f.r && f.w) then None
      else if f.r || f.x then
        if level == 0 then Some((Ppn(e), PermsOf(e)))
        else if level == 1 then if Ppn(e) % 512 == 0 then Some((Ppn(e) + Vpn(va, 0), PermsOf(e))) else None
        else if Ppn(e) % 262144 == 0 then Some((Ppn(e) + 512 * Vpn(va, 1) + Vpn(va, 0), PermsOf(e))) else None
      else if level == 0 then None
      else HardwareWalk(m, level - 1, Ppn(e), va)
  }

  /** The hardware sees the same translations, of the pages that can be read or executed
      and are not writable without being readable. */
  lemma {:induction false} HardwareAgrees(m: Words, t: Tables, free: seq<nat>, va: nat)
    requires Tree(m, t, free)
    ensures HardwareWalk(m, 2, t[Root], va) ==
            match Translate(m, t[Root], va)
            case None => None
            case Some((f, p)) => if (p.read || p.exec) && (p.write ==> p.read) then Some((f, p)) else None
  {
    TranslateIsLeaf(m, t, free, va);
    HardwareFromTable(m, t, free, 2, va);
  }

  lemma {:induction false} HardwareFromTable(m: Words, t: Tables, free: seq<nat>, level: nat, va: nat)
    requires Tree(m, t, free) && level < 3 && On(va, level) in t
    ensures HardwareWalk(m, level, t[On(va, level)], va) ==
            match Leaf(m, t, va)
            case None => None
            case Some((f, p)) => if (p.read || p.exec) && (p.write ==> p.read) then Some((f, p)) else None
    decreases level
  {
    hide Decodes, Ppn, Entry, Vpn;
    VpnBound(va);
    if level > 0 {
      var p, i := On(va, level), Vpn(va, level);
      assert Points(m, t, p, i);
      assert Child(p, i) == On(va, level - 1);
      if Child(p, i) in t {
        PointerEntry(t[Child(p, i)]);
        HardwareFromTable(m, t, free, level - 1, va);
      } else {
        PointerEntry(0);
      }
    } else {
      assert Maps(m, t, On(va, 0), Vpn(va, 0));
    }
  }

  /** One cleared page that is not free is a tree of its own, and translates nothing. */
  lemma {:induction false} EmptyTree(m: Words, root: nat, free: seq<nat>)
    requires root !in free && forall k :: 0 <= k < 512 ==> Word(m, root, k) == 0
    ensures Tree(m, map[Root := root], free)
    ensures forall va :: Translate(m, root, va) == None
  {
    hide Word, Translate, Decodes, Valid, Ppn, Entry, Vpn;
    var t: Tables := map[Root := root];
    forall p, i | p in t && !p.Last? && 0 <= i < 512
      ensures Points(m, t, p, i)
    {
      assert Word(m, root, i) == 0;
    }
    forall va
      ensures Translate(m, root, va) == None
    {
      TranslateIsLeaf(m, t, free, va);
    }
  }

  // ----- what the steps keep

  /** A free page, cleared, becomes the missing child of a table. */
  lemma {:induction false} NewTable(m: Words, m': Words, t: Tables, free: seq<nat>, p: Place, i: nat)
    requires Tree(m, t, free) && p in t && !p.Last? && i < 512 && Child(p, i) !in t && free != [] && Distinct(free)
    requires forall q, k :: q != free[0] && Cell(q, k) != Cell(t[p], i) ==> Word(m', q, k) == Word(m, q, k)
    requires forall k :: 0 <= k < 512 ==> Word(m', free[0], k) == 0
    requires Word(m', t[p], i) == Entry(free[0], TO_TABLE)
    ensures Tree(m', t[Child(p, i) := free[0]], free[1..])
    ensures forall va :: Leaf(m', t[Child(p, i) := free[0]], va) == Leaf(m, t, va)
  {
    hide Decodes, Ppn, Entry, Vpn, Valid;
    var n, c := free[0], Child(p, i);
    var t' := t[c := n];
    PointerEntry(0);
    assert n in free;
    forall q | q in free[1..]
      ensures q in free && q != n
    {
    }
    forall q, k | q in t' && !q.Last? && 0 <= k < 512
      ensures Points(m', t', q, k)
    {
      if q in t {
        assert Points(m, t, q, k);
        assert Child(q, k) == c <==> (q == p && k == i);
      }
    }
    forall q, k | q in t' && q.Last? && 0 <= k < 512
      ensures Maps(m', t', q, k)
    {
      if q in t {
        assert Maps(m, t, q, k);
      }
    }
    forall va
      ensures Leaf(m', t', va) == Leaf(m, t, va)
    {
      VpnBound(va);
    }
  }

  /** Writing one last-level entry changes the translation of one page. */
  lemma {:induction false} SetLeaf(m: Words, t: Tables, free: seq<nat>, va: nat, e: nat)
    requires Tree(m, t, free) && On(va, 0) in t && Decodes(e) && (Valid(e) || e == 0)
    ensures var m' := m[Cell(t[On(va, 0)], Vpn(va, 0)) := e];
            && Tree(m', t, free)
            && (forall va' :: Leaf(m', t, va') == if Page(va') != Page(va) then Leaf(m, t, va')
                  else if Valid(e) then Some((Ppn(e), PermsOf(e))) else None)
  {
    hide Decodes, Ppn, Entry, Vpn, Valid, Page, PermsOf;
    VpnBound(va);
    var p := On(va, 0);
    var m' := m[Cell(t[p], Vpn(va, 0)) := e];
    forall q, k | q in t && !q.Last? && 0 <= k < 512
      ensures Points(m', t, q, k)
    {
      assert Points(m, t, q, k);
    }
    forall q, k | q in t && q.Last? && 0 <= k < 512
      ensures Maps(m', t, q, k)
    {
      assert Maps(m, t, q, k);
    }
    forall va'
      ensures Leaf(m', t, va') == if Page(va') != Page(va) then Leaf(m, t, va')
            else if Valid(e) then Some((Ppn(e), PermsOf(e))) else None
    {
      SamePage(va, va');
    }
  }
}
