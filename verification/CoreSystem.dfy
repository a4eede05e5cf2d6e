/** Everything together: the registers of the units and of the data cache, the core between
    them, and main memory. */
module CoreSystem {
  import opened Words
  import opened Wrappers
  import opened Isa
  import opened Core
  import opened CoreInvariant
  import opened CoreQueues
  import opened CoreTheorems
  import B = BCache
  import M = CoreMemory
  import U = CoreRegisters

  /** A rule of the core and its units, or one of the load/store unit and its cache. */
  datatype Rule =
    | OfCore(u: U.Rule)
    | OfMemory(q: M.Rule)

  /** Rules of the core that need the cache, and are tried as its rules. */
  predicate NeedsCache(e: Event) {
    e.CacheRead? || e.CacheWrite? || e.LoadResponse? || e.DrainStore?
  }

  ghost function SystemOf(c: State, cache: B.Cache, acks: seq<Word>, stored: nat): M.System
    reads cache
  {
    M.System.System(c, cache.St(), acks, stored)
  }

  ghost predicate Able(m: Machine, n: nat, s: M.System, w: U.Waits, rule: Rule)
    requires Shape(s.core)
  {
    match rule
    case OfCore(r) => U.Able(m, n, s.core, w, r) && !(r.Given? && NeedsCache(r.e))
    case OfMemory(r) => M.Fires(m, s, r) && (r.CoreRule? ==> NeedsCache(r.e))
  }

  /** What becomes of a rule that is tried: it fires exactly when it can, as `sr`. */
  ghost predicate Tried(m: Machine, n: nat, s: M.System, w: U.Waits, rule: Rule, sr: Option<M.Rule>, w': U.Waits)
    requires Shape(s.core)
  {
    && (sr.Some? <==> Able(m, n, s, w, rule)) && (sr.Some? ==> M.Fires(m, s, sr.value))
    && match rule
       case OfCore(r) =>
         && (sr.Some? ==> sr.value.CoreRule? && U.Picks(m, s.core, w, r, sr.value.e))
         && w' == U.WaitsAfter(s.core, w, r, if sr.Some? && sr.value.CoreRule? then Some(sr.value.e) else None)
       case OfMemory(r) => (sr.Some? ==> sr.value == r) && w' == w
  }

  /** The rule can fire, and this is what it does. */
  ghost predicate Does(m: Machine, s: M.System, r: M.Rule, s': M.System) {
    Shape(s.core) && B.Sized(s.cache) && M.Fires(m, s, r) && s' == M.After(m, s, r)
  }

  /** A rule of the core that no unit has a choice in goes through the registers. */
  method FirePlain(u: U.Units, m: Machine, c: State, ghost a: Arch, e: Event)
    requires u.Hold(c) && Inv(m, c, a) && Shape(c) && Enabled(m, c, e) && NeedsCache(e)
    modifies u`aluIds, u`controlIds, u`memoryIds, u.loads, u.stores, u.buffer, u.rob, u.table, u.alu, u.control,
          u.memory
    ensures u.Hold(Apply(m, c, e)) && U.WaitsOf(u) == old(U.WaitsOf(u))
  {
    hide Inv, Shape, Enabled, U.Units.Hold, Apply, U.NoRoom, U.WaitsOf;
    var fired := U.FireGiven(u, m, c, a, e, false);
  }

  /** A rule of the core, or the units, that the cache has no part in. */
  method FireCore(u: U.Units, m: Machine, c: State, ghost a: Arch, ghost s: M.System,
        r: U.Rule) returns (e: Option<Event>)
    requires u.Hold(c) && Inv(m, c, a) && Shape(c) && s.core == c && M.Linked(s)
    modifies u`aluIds, u`controlIds, u`memoryIds, u.loads, u.stores, u.buffer, u.rob, u.table, u.alu, u.control,
          u.memory
    ensures var sr := if e.Some? then Some(M.CoreRule(e.value)) else None;
            Tried(m, u.size, s, old(U.WaitsOf(u)), OfCore(r), sr, U.WaitsOf(u))
    ensures u.Hold(if e.Some? then Apply(m, c, e.value) else c)
    ensures e.Some? ==> Enabled(m, c, e.value) && !NeedsCache(e.value)
  {
    hide Inv, Shape, Enabled, U.Units.Hold, Apply, U.Able, U.WaitsOf, M.Linked;
    if r.Given? && NeedsCache(r.e) {
      return None;
    }
    e := U.Fire(u, m, c, a, r);
    if e.Some? {
      PickedPlain(m, c, old(U.WaitsOf(u)), r, e.value);
    }
  }

  lemma {:induction false} PickedPlain(m: Machine, c: State, w: U.Waits, r: U.Rule, e: Event)
    requires Shape(c) && U.Picks(m, c, w, r, e) && !(r.Given? && NeedsCache(r.e))
    ensures !NeedsCache(e)
  {
    hide Shape, Enabled, U.Oldest;
  }

  /** The request that a rule sends to the cache, or the rule of the cache itself. */
  function CacheRuleOf(l: Lsu, r: M.Rule): Option<B.Rule> {
    match r
    case SendRead => if l.rreq == [] then None else Some(M.ReadRequest(l.rreq[0].1))
    case SendWrite => if l.wreq == [] then None else Some(M.WriteRequest(l.wreq[0]))
    case SendInvalidate(addr) => Some(M.InvalidateRequest(addr))
    case CacheRule(q) => if q.Put? then None else Some(q)
    case CoreRule(_) => None
  }

  lemma {:induction false} FiresCache(m: Machine, s: M.System, r: M.Rule)
    requires Shape(s.core) && !r.CoreRule?
    ensures var q := CacheRuleOf(s.core.lsu, r); M.Fires(m, s, r) <==> q.Some? && B.Enabled(s.cache, q.value)
  {
    hide Shape, B.Enabled, Enabled;
  }

  /** What a rule of the cache leaves. */
  lemma {:induction false} AfterCache(m: Machine, s: M.System, r: M.Rule)
    requires M.Linked(s) && Shape(s.core) && !r.CoreRule? && M.Fires(m, s, r)
    ensures var q, t := CacheRuleOf(s.core.lsu, r), M.After(m, s, r);
            && q.Some? && B.Sized(s.cache) && B.Enabled(s.cache, q.value) && t.cache == B.Apply(s.cache, q.value)
            && t.acks == s.acks + (if q.value.GetAnswer? then [s.cache.answer.value.word] else [])
            && t.stored == s.stored + (if q.value.TagMatch? && s.cache.request.op == B.Store then 1 else 0)
            && M.EventOf(s, r) == if !q.value.TagMatch? || s.cache.request.op == B.Invalidate then None
                 else Some(if s.cache.request.op == B.Load then CacheRead else CacheWrite)
  {
    hide Shape, Enabled, B.Inv, B.MatchState, B.Sized, M.SameMemory, M.PlaceOf, M.WholeWords, M.SameWords;
    M.LinkedSized(s);
  }

  /** `loadResponse` and the release of a store buffer entry. */
  method FireAnswered(u: U.Units, m: Machine, c: State, acks: seq<Word>, stored: nat, ghost a: Arch, ghost s: M.System,
        e: Event) returns (fired: bool, c': State, acks': seq<Word>, stored': nat)
    requires u.Hold(c) && Inv(m, c, a) && Shape(c) && M.Linked(s) && s == M.System.System(c, s.cache, acks, stored)
    modifies u`aluIds, u`controlIds, u`memoryIds, u.loads, u.stores, u.buffer, u.rob, u.table, u.alu, u.control,
          u.memory
    ensures fired <==> M.Fires(m, s, M.CoreRule(e)) && NeedsCache(e)
    ensures !fired ==> c' == c && acks' == acks && stored' == stored
    ensures fired ==> Does(m, s, M.CoreRule(e), M.System.System(c', s.cache, acks', stored'))
    ensures u.Hold(c') && U.WaitsOf(u) == old(U.WaitsOf(u))
  {
    hide Inv, Shape, Enabled, U.Units.Hold, Apply, U.WaitsOf, M.Linked, M.Respond, Reading;
    M.LinkedSized(s);
    fired, c', acks', stored' := false, c, acks, stored;
    var l := c.lsu;
    if e.LoadResponse? {
      var reading := Reading(l.pend, l.rreq);
      if acks != [] && reading != [] && e.k < |l.loads| && l.loads[e.k].entry == reading[0] {
        M.RespondLinks(m, s, a, e.k);
        FirePlain(u, m, c, a, e);
        fired, c', acks' := true, M.Respond(c, e.k, acks[0]), acks[1..];
      }
    } else if e.DrainStore? && stored > 0 {
      M.DrainLinks(m, s);
      Drains(m, c);
      FirePlain(u, m, c, a, e);
      fired, c', stored' := true, DoDrainStore(c), stored - 1;
    }
  }

  lemma {:induction false} Drains(m: Machine, c: State)
    requires Shape(c) && Enabled(m, c, DrainStore)
    ensures c.lsu.stb != [] && Apply(m, c, DrainStore) == DoDrainStore(c)
  {
    hide Shape;
  }

  /** A rule of the load/store unit or its cache. */
  method FireMemory(u: U.Units, cache: B.Cache, m: Machine, c: State, acks: seq<Word>, stored: nat, ghost a: Arch,
        r: M.Rule) returns (fired: bool, c': State, acks': seq<Word>, stored': nat)
    requires u.Hold(c) && cache.Valid() && Inv(m, c, a) && Shape(c) && M.Linked(SystemOf(c, cache, acks, stored))
    modifies u`aluIds, u`controlIds, u`memoryIds, u.loads, u.stores, u.buffer, u.rob, u.table, u.alu, u.control,
          u.memory, cache
    ensures cache.Valid() && u.Hold(c') && U.WaitsOf(u) == old(U.WaitsOf(u))
    ensures fired <==> M.Fires(m, old(SystemOf(c, cache, acks, stored)), r) && (r.CoreRule? ==> NeedsCache(r.e))
    ensures var s, s' := old(SystemOf(c, cache, acks, stored)), SystemOf(c', cache, acks', stored');
            if fired then Does(m, s, r, s') else s' == s
  {
    hide Inv, Shape, Enabled, U.Units.Hold, Apply, U.WaitsOf, M.Linked, B.Cache.Valid, B.Apply, B.Enabled, M.Fires,
         M.After, CacheRuleOf, B.Sized, B.Shows;
    ghost var s := SystemOf(c, cache, acks, stored);
    if r.CoreRule? {
      fired, c', acks', stored' := FireAnswered(u, m, c, acks, stored, a, s, r.e);
      return;
    }
    FiresCache(m, s, r);
    fired, c', acks', stored' := false, c, acks, stored;
    var q := CacheRuleOf(c.lsu, r);
    if q.None? {
      return;
    }
    var op, answer := cache.request.op, cache.answer;
    var step;
    fired, step := B.Fire(cache, q.value);
    if fired {
      M.SystemStep(m, s, a, r);
      AfterCache(m, s, r);
      if q.value.TagMatch? && op != B.Invalidate {
        var e := if op == B.Load then CacheRead else CacheWrite;
        FirePlain(u, m, c, a, e);
        c' := Apply(m, c, e);
        stored' := if op == B.Store then stored + 1 else stored;
      } else if q.value.GetAnswer? {
        Answers(s.cache);
        acks' := acks + [answer.value.word];
      }
    }
  }

  lemma {:induction false} Answers(c: B.State)
    requires B.Enabled(c, B.GetAnswer)
    ensures c.answer.Some?
  {
  }

  // ----- runs

  /** Rule by rule, what was tried in the run `ss`, `srs` of core, cache and main memory:
      rule `j` found the state after those that fired before it, and `srs` is what fired,
      in that order. */
  ghost predicate Tries(m: Machine, n: nat, ss: seq<M.System>, srs: seq<M.Rule>, rules: seq<Rule>,
        fired: seq<Option<M.Rule>>, ws: seq<U.Waits>) {
    && |fired| <= |rules| && |ws| == |fired| + 1 && ws[0] == U.Waits({}, {}, {})
    && |ss| == |srs| + 1 && |srs| == U.Count(fired)
    && forall j :: 0 <= j < |fired| ==> TriedAt(m, n, ss, srs, rules[j], fired, ws, j)
  }

  ghost predicate TriedAt(m: Machine, n: nat, ss: seq<M.System>, srs: seq<M.Rule>, rule: Rule,
        fired: seq<Option<M.Rule>>, ws: seq<U.Waits>, j: nat)
    requires j < |fired| == |ws| - 1
  {
    var i := U.Count(fired[..j]);
    && i < |ss| && Shape(ss[i].core) && Tried(m, n, ss[i], ws[j], rule, fired[j], ws[j + 1])
    && !Stops(ss[i].core, rule) && (fired[j].Some? ==> i < |srs| && srs[i] == fired[j].value)
  }

  /** `execute_direct` would take the operands of another instruction. */
  predicate Stops(c: State, rule: Rule) {
    rule.OfCore? && rule.u.Given? && TakesAnothers(c, rule.u.e)
  }

  lemma {:induction false} TriesNext(m: Machine, n: nat, ss: seq<M.System>, srs: seq<M.Rule>, rules: seq<Rule>,
        fired: seq<Option<M.Rule>>, ws: seq<U.Waits>, sr: Option<M.Rule>, s': M.System, w': U.Waits)
    requires Tries(m, n, ss, srs, rules, fired, ws) && |fired| < |rules| && Shape(ss[|srs|].core)
    requires Tried(m, n, ss[|srs|], ws[|fired|], rules[|fired|], sr, w') && !Stops(ss[|srs|].core, rules[|fired|])
    ensures sr.None? ==> Tries(m, n, ss, srs, rules, fired + [sr], ws + [w'])
    ensures sr.Some? ==> Tries(m, n, ss + [s'], srs + [sr.value], rules, fired + [sr], ws + [w'])
  {
    hide Shape, Tried, Stops;
    var fired', ws' := fired + [sr], ws + [w'];
    var ss', srs' := if sr.Some? then ss + [s'] else ss, if sr.Some? then srs + [sr.value] else srs;
    assert fired'[..|fired|] == fired;
    forall j | 0 <= j < |fired'|
      ensures TriedAt(m, n, ss', srs', rules[j], fired', ws', j)
    {
      assert fired'[..j] == fired[..j];
      if j < |fired| {
        assert TriedAt(m, n, ss, srs, rules[j], fired, ws, j);
        U.CountBefore(fired, j);
      } else {
        assert fired[..j] == fired;
      }
    }
  }

  lemma {:induction false} TriesFirst(m: Machine, n: nat, s: M.System, rules: seq<Rule>)
    ensures Tries(m, n, [s], [], rules, [], [U.Waits({}, {}, {})])
  {
  }

  lemma {:induction false} NoneTaken(m: Machine, n: nat, s: M.System, w: U.Waits, rule: Rule, sr: M.Rule, w': U.Waits)
    requires Shape(s.core) && Tried(m, n, s, w, rule, Some(sr), w') && !Stops(s.core, rule)
    ensures sr.CoreRule? ==> !TakesAnothers(s.core, sr.e)
  {
    hide Shape, M.Fires, Enabled, U.Oldest, U.Able;
  }

  /** A run from reset with the sequential machine beside it: after every rule the committed
      state of the core is its state, and the cache holds the memory the core works on. */
  ghost predicate Goes(m: Machine, ss: seq<M.System>, srs: seq<M.Rule>, archs: seq<Arch>, pc: Addr, mem: Memory,
        csr: Csr, flat: B.Flat) {
    && M.RunTogether(m, ss, srs, M.Reset(pc, mem, csr, flat)) && M.Beside(m, ss, srs, archs)
    && archs[0] == Arch(pc, seq(32, (i: nat) => ZERO), mem, csr)
  }

  lemma {:induction false} GoesNext(m: Machine, ss: seq<M.System>, srs: seq<M.Rule>, archs: seq<Arch>, pc: Addr,
        mem: Memory, csr: Csr, flat: B.Flat, r: M.Rule, s': M.System)
    requires Goes(m, ss, srs, archs, pc, mem, csr, flat) && |ss| == |srs| + 1 && Does(m, ss[|srs|], r, s')
    requires r.CoreRule? ==> !TakesAnothers(ss[|srs|].core, r.e)
    ensures |archs| == |ss| && Isa.Valid(archs[|srs|])
    ensures var a' := M.ArchNext(m, ss[|srs|], archs[|srs|], r);
            && Goes(m, ss + [s'], srs + [r], archs + [a'], pc, mem, csr, flat)
            && M.Linked(s') && Inv(m, s'.core, a') && Shape(s'.core)
  {
    hide Shape, Inv, M.Linked, Agrees, ArchStep, M.Fires, M.After, M.ArchNext, TakesAnothers, B.Sized, M.Reset;
    var s := ss[|srs|];
    M.BesideNext(m, ss, srs, archs, r);
    var ss', archs' := ss + [s'], archs + [M.ArchNext(m, s, archs[|srs|], r)];
    assert M.Linked(ss'[|srs| + 1]) && Inv(m, ss'[|srs| + 1].core, archs'[|srs| + 1]);
    InvShape(m, ss'[|srs| + 1].core, archs'[|srs| + 1]);
  }

  lemma {:induction false} GoesFirst(m: Machine, pc: Addr, mem: Memory, csr: Csr, flat: B.Flat)
    requires M.SameMemory(mem, flat)
    ensures var s, a := M.Reset(pc, mem, csr, flat), Arch(pc, seq(32, (i: nat) => ZERO), mem, csr);
            Goes(m, [s], [], [a], pc, mem, csr, flat) && M.Linked(s) && Inv(m, s.core, a) && Shape(s.core)
  {
    hide Shape, Inv, M.Linked, Agrees, ArchStep, M.SameMemory, M.Reset;
    var s, a := M.Reset(pc, mem, csr, flat), Arch(pc, seq(32, (i: nat) => ZERO), mem, csr);
    M.BesideFirst(m, pc, mem, csr, flat);
    assert M.Linked([s][0]) && Inv(m, [s][0].core, [a][0]);
    InvShape(m, s.core, a);
  }

  /** One rule of the whole. */
  method Fire(u: U.Units, cache: B.Cache, m: Machine, c: State, acks: seq<Word>, stored: nat, ghost a: Arch,
        rule: Rule) returns (sr: Option<M.Rule>, c': State, acks': seq<Word>, stored': nat)
    requires u.Hold(c) && cache.Valid() && Inv(m, c, a) && Shape(c) && M.Linked(SystemOf(c, cache, acks, stored))
    modifies u`aluIds, u`controlIds, u`memoryIds, u.loads, u.stores, u.buffer, u.rob, u.table, u.alu, u.control,
          u.memory, cache
    ensures cache.Valid() && u.Hold(c')
    ensures Tried(m, u.size, old(SystemOf(c, cache, acks, stored)), old(U.WaitsOf(u)), rule, sr, U.WaitsOf(u))
    ensures var s, s' := old(SystemOf(c, cache, acks, stored)), SystemOf(c', cache, acks', stored');
            if sr.Some? then Does(m, s, sr.value, s') else s' == s
  {
    hide Inv, Shape, Enabled, U.Units.Hold, Apply, U.WaitsOf, M.Linked, B.Cache.Valid, M.Fires, U.Able, U.Picks,
         U.WaitsAfter, B.Sized, M.After;
    ghost var s := SystemOf(c, cache, acks, stored);
    M.LinkedSized(s);
    match rule
    case OfCore(r) =>
      var e := FireCore(u, m, c, a, s, r);
      sr, c', acks', stored' := None, c, acks, stored;
      if e.Some? {
        AfterCore(m, s, U.WaitsOf(u), r, e.value);
        sr, c' := Some(M.CoreRule(e.value)), Apply(m, c, e.value);
      }
    case OfMemory(q) =>
      var fired;
      fired, c', acks', stored' := FireMemory(u, cache, m, c, acks, stored, a, q);
      sr := if fired then Some(q) else None;
  }

  lemma {:induction false} AfterCore(m: Machine, s: M.System, w: U.Waits, r: U.Rule, e: Event)
    requires Shape(s.core) && B.Sized(s.cache) && M.Fires(m, s, M.CoreRule(e)) && Enabled(m, s.core, e)
    requires !NeedsCache(e)
    ensures M.After(m, s, M.CoreRule(e)) == s.(core := Apply(m, s.core, e))
  {
    hide Shape, Enabled, Apply, B.Sized;
  }

  /** From reset, through any rules in any order, every interleaving of the units, the cache
      and the burst beats: each rule that can fire does, the registers of all the units
      hold what the core says, those of the cache are the cache's, and the whole follows
      the sequential machine. It stops where `execute_direct` would take the operands of
      another instruction. */
  method RunSystem(n: nat, m: Machine, pc: Addr, mem: Memory, csr: Csr, flat: B.Flat, rules: seq<Rule>) returns (
        u: U.Units, cache: B.Cache, c: State, k: nat, ghost ss: seq<M.System>, ghost srs: seq<M.Rule>,
        ghost archs: seq<Arch>, ghost fired: seq<Option<M.Rule>>, ghost ws: seq<U.Waits>)
    requires 0 < n && M.SameMemory(mem, flat)
    ensures k <= |rules| && (k < |rules| ==> Stops(c, rules[k]))
    ensures |ss| == |srs| + 1 && |fired| == k == |ws| - 1 && ws[k] == U.WaitsOf(u)
    ensures ss[|srs|].core == c && ss[|srs|].cache == cache.St()
    ensures u.Hold(c) && cache.Valid()
    ensures Tries(m, n, ss, srs, rules, fired, ws)
    ensures Goes(m, ss, srs, archs, pc, mem, csr, flat)
  {
    hide Inv, Shape, Enabled, Apply, Init, U.Units.Hold, B.Cache.Valid, Tries, Tried, Stops, Goes, M.Linked, Does,
         M.ArchNext, M.SameMemory, TakesAnothers;
    u := new U.Units(n, pc, mem, csr);
    cache := new B.Cache(M.SETS, M.WAYS, M.WORDS, flat);
    c := Init(pc, mem, csr);
    var acks, stored := [], 0;
    ghost var first := M.Reset(pc, mem, csr, flat);
    ghost var a := Arch(pc, seq(32, (i: nat) => ZERO), mem, csr);
    ss, srs, archs, k, fired, ws := [first], [], [a], 0, [], [U.Waits({}, {}, {})];
    GoesFirst(m, pc, mem, csr, flat);
    TriesFirst(m, n, first, rules);
    while k < |rules|
      invariant k <= |rules| && |ss| == |srs| + 1 == |archs| && ss[|srs|] == SystemOf(c, cache, acks, stored)
      invariant archs[|srs|] == a && Goes(m, ss, srs, archs, pc, mem, csr, flat)
      invariant Inv(m, c, a) && Shape(c) && M.Linked(ss[|srs|])
      invariant u.Hold(c) && cache.Valid() && u.size == n
      invariant Tries(m, n, ss, srs, rules, fired, ws) && |fired| == k && |ws| == k + 1 && ws[k] == U.WaitsOf(u)
      invariant fresh(u) && fresh(u.loads) && fresh(u.stores) && fresh(u.buffer) && fresh(u.rob) && fresh(u.table)
      invariant fresh(u.alu) && fresh(u.control) && fresh(u.memory) && fresh(cache)
    {
      if rules[k].OfCore? && rules[k].u.Given? && TakesAnothers(c, rules[k].u.e) {
        StopsHere(c, rules[k]);
        return;
      }
      StopsHere(c, rules[k]);
      ghost var s := ss[|srs|];
      var sr;
      sr, c, acks, stored := Fire(u, cache, m, c, acks, stored, a, rules[k]);
      TriesNext(m, n, ss, srs, rules, fired, ws, sr, SystemOf(c, cache, acks, stored), U.WaitsOf(u));
      if sr.Some? {
        NoneTaken(m, n, s, ws[k], rules[k], sr.value, U.WaitsOf(u));
        GoesNext(m, ss, srs, archs, pc, mem, csr, flat, sr.value, SystemOf(c, cache, acks, stored));
        a := M.ArchNext(m, s, a, sr.value);
        ss, srs, archs := ss + [SystemOf(c, cache, acks, stored)], srs + [sr.value], archs + [a];
      }
      fired, ws := fired + [sr], ws + [U.WaitsOf(u)];
      k := k + 1;
    }
  }

  lemma {:induction false} StopsHere(c: State, rule: Rule)
    ensures Stops(c, rule) <==> rule.OfCore? && rule.u.Given? && TakesAnothers(c, rule.u.e)
  {
  }
}
