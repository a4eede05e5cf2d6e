/** The core with its data cache (src/lsu/LSU.bsv:60-225): reads and writes are requests
    to the cache, loads take the words that the cache answers, and the burst engines move
    lines between the cache and main memory in between. */
module CoreMemory {
  import opened Words
  import opened Wrappers
  import opened Isa
  import opened LsuSpec
  import opened Core
  import opened CoreInvariant
  import opened CoreQueues
  import opened CoreTheorems
  import B = BCache
  import R = RenamingSpec

  // the sizes of `mkDefaultBCache`
  const SETS := 128
  const WAYS := 4
  const WORDS := 8

  /** `acks` are the words that left the cache and no load took yet, `stored` counts the
      acknowledged writes whose entry is still in the store buffer. The rules never read
      `core.lsu.mem`, nor the words of `core.lsu.pend`. */
  datatype System = System(core: State, cache: B.State, acks: seq<Word>, stored: nat)

  datatype Rule =
    | CoreRule(e: Event)
    | SendRead
    | SendWrite
    | SendInvalidate(addr: Addr)
    | CacheRule(r: B.Rule)

  function PlaceOf(a: Addr): B.Place {
    B.PlaceOfWord(a / 4)
  }

  function ReadRequest(addr: Addr): B.Rule {
    var p := PlaceOf(addr);
    B.Put(p.index, p.offset, B.Request(p.tag, B.Load, ZERO, Strobe(Full)))
  }

  function WriteRequest(b: Beat): B.Rule {
    var p := PlaceOf(b.addr);
    B.Put(p.index, p.offset, B.Request(p.tag, B.Store, b.data, b.mask))
  }

  function InvalidateRequest(addr: Addr): B.Rule {
    var p := PlaceOf(addr);
    B.Put(p.index, p.offset, B.Request(p.tag, B.Invalidate, ZERO, Strobe(Full)))
  }

  /** The guards. A load is finished with the oldest answer and the oldest pending load;
      an entry leaves the store buffer when a write was acknowledged. */
  ghost predicate Fires(m: Machine, s: System, rule: Rule)
    requires Shape(s.core)
  {
    var l := s.core.lsu;
    match rule
    case CoreRule(e) =>
      if e.LoadResponse? then
        && s.acks != [] && Reading(l.pend, l.rreq) != [] && e.k < |l.loads|
        && l.loads[e.k].entry == Reading(l.pend, l.rreq)[0]
      else if e.DrainStore? then s.stored > 0
      else !e.CacheRead? && !e.CacheWrite? && Enabled(m, s.core, e)
    case SendRead => l.rreq != [] && B.Enabled(s.cache, ReadRequest(l.rreq[0].1))
    case SendWrite => l.wreq != [] && B.Enabled(s.cache, WriteRequest(l.wreq[0]))
    case SendInvalidate(addr) => B.Enabled(s.cache, InvalidateRequest(addr))
    case CacheRule(r) => !r.Put? && B.Enabled(s.cache, r)
  }

  /** `loadResponse` with the word that the cache answered. */
  function Respond(c: State, k: nat, word: Word): State
    requires Shape(c) && k < |c.lsu.loads|
  {
    var s := c.lsu.loads[k];
    var kind, addr := KindAt(c.log, s.entry), if s.addr.Some? then s.addr.value else 0;
    c.(lsu := c.lsu.(pend := if c.lsu.pend == [] then [] else c.lsu.pend[1..]),
       fu := c.fu[s.entry := Ok(Extract(kind.size, kind.signed, addr, word), Next(c.log[s.entry].d.pc), false)])
  }

  /** A request is matched: the cache performs it. */
  function Matched(s: System): System
    requires B.Sized(s.cache)
  {
    var t, l := s.(cache := B.MatchState(s.cache)), s.core.lsu;
    match s.cache.request.op
    case Load => if l.rreq == [] then t else t.(core := DoCacheRead(s.core))
    case Store => if l.wreq == [] then t else t.(core := DoCacheWrite(s.core), stored := s.stored + 1)
    case Invalidate => t
  }

  ghost function After(m: Machine, s: System, rule: Rule): System
    requires Shape(s.core) && B.Sized(s.cache) && Fires(m, s, rule)
  {
    var l := s.core.lsu;
    match rule
    case CoreRule(e) =>
      if e.LoadResponse? then s.(core := Respond(s.core, e.k, s.acks[0]), acks := s.acks[1..])
      else if e.DrainStore?
      then s.(core := if l.stb == [] then s.core else DoDrainStore(s.core), stored := s.stored - 1)
      else s.(core := Apply(m, s.core, e))
    case SendRead => s.(cache := B.Apply(s.cache, ReadRequest(l.rreq[0].1)))
    case SendWrite => s.(cache := B.Apply(s.cache, WriteRequest(l.wreq[0])))
    case SendInvalidate(addr) => s.(cache := B.Apply(s.cache, InvalidateRequest(addr)))
    case CacheRule(r) =>
      if r.TagMatch? then Matched(s)
      else if r.GetAnswer? then s.(cache := B.Apply(s.cache, r), acks := s.acks + [s.cache.answer.value.word])
      else s.(cache := B.Apply(s.cache, r))
  }

  /** The rule of the core that a rule of the whole performs, if any. */
  function EventOf(s: System, rule: Rule): Option<Event> {
    match rule
    case CoreRule(e) => Some(e)
    case CacheRule(r) =>
      if !r.TagMatch? || s.cache.request.op == B.Invalidate then None
      else Some(if s.cache.request.op == B.Load then CacheRead else CacheWrite)
    case _ => None
  }

  // ----- what links the two

  ghost predicate SameMemory(mem: Memory, flat: B.Flat) {
    forall a: Addr :: a % 4 == 0 ==> Read(mem, a) == B.Fetch(flat, PlaceOf(a))
  }

  predicate WholeWords(rreq: seq<(nat, Addr)>, wreq: seq<Beat>) {
    && (forall i :: 0 <= i < |rreq| ==> rreq[i].1 % 4 == 0)
    && (forall i :: 0 <= i < |wreq| ==> wreq[i].addr % 4 == 0)
  }

  /** The request in the cache is the oldest read or the oldest write of the core. */
  predicate SameRequest(c: B.State, l: Lsu) {
    c.phase == B.Matching ==>
      match c.request.op
      case Load => l.rreq != [] && B.Here(c) == PlaceOf(l.rreq[0].1)
      case Store =>
        && l.wreq != [] && B.Here(c) == PlaceOf(l.wreq[0].addr) && c.request.data == l.wreq[0].data
        && c.request.mask == l.wreq[0].mask
      case Invalidate => true
  }

  predicate SameWords(pend: seq<(nat, Word)>, words: seq<Word>) {
    |pend| == |words| && forall i :: 0 <= i < |pend| ==> pend[i].1 == words[i]
  }

  ghost predicate Linked(s: System) {
    var l := s.core.lsu;
    && B.Inv(s.cache) && s.cache.sets == SETS && s.cache.ways == WAYS && s.cache.words == WORDS
    && SameMemory(l.mem, s.cache.flat) && WholeWords(l.rreq, l.wreq) && SameRequest(s.cache, l)
    && SameWords(l.pend, s.acks + s.cache.owed) && |l.stb| == |l.wreq| + s.stored
  }

  /** A word of memory is a word of the cache. */
  lemma {:induction false} OneWord(a: Addr, b: Addr)
    requires a % 4 == 0 && b % 4 == 0
    ensures PlaceOf(a) == PlaceOf(b) <==> a == b
    ensures PlaceOf(a).index < SETS && PlaceOf(a).offset < WORDS
  {
    B.PlacesAreWords(a, b);
  }

  lemma {:induction false} StoredWord(mem: Memory, flat: B.Flat, b: Beat)
    requires SameMemory(mem, flat) && b.addr % 4 == 0
    ensures var p := PlaceOf(b.addr);
            SameMemory(Write(mem, b), flat[p := Merge(B.Fetch(flat, p), b.data, b.mask)])
  {
    var p := PlaceOf(b.addr);
    var flat' := flat[p := Merge(B.Fetch(flat, p), b.data, b.mask)];
    forall a: Addr | a % 4 == 0
      ensures Read(Write(mem, b), a) == B.Fetch(flat', PlaceOf(a))
    {
      OneWord(a, b.addr);
      hide PlaceOf, Merge;
    }
  }

  // ----- the rules of the core

  /** Rules other than the four that talk to the cache: requests are only added. */
  ghost predicate Extends(l: Lsu, l': Lsu) {
    && l'.mem == l.mem && l'.pend == l.pend && l.rreq <= l'.rreq && l.wreq <= l'.wreq
    && |l'.stb| - |l'.wreq| == |l.stb| - |l.wreq| && (WholeWords(l.rreq, l.wreq) ==> WholeWords(l'.rreq, l'.wreq))
  }

  lemma {:induction false} WordIsWhole(a: Addr)
    ensures WordOf(a) % 4 == 0
  {
  }

  lemma {:induction false} CommitExtends(c: State)
    requires Shape(c) && HeadDone(c) && QueuesHoldHead(c)
    ensures Extends(c.lsu, DmemCommit(c).lsu)
  {
    hide Shape, OldestReader, WordOf;
    if IsMemory(KindAt(c.log, c.base)) && c.lsu.tags[0].StoreTag? {
      WordIsWhole(c.lsu.stores[0].addr.value);
    }
  }

  lemma {:induction false} DeqLsu(c: State, keep: bool, redirect: Option<Addr>)
    requires R.Shape(c.table) && c.base < |c.log|
    ensures DeqRob(c, keep, redirect).lsu == c.lsu
  {
    hide R.Shape, R.Commit;
  }

  lemma {:induction false} InterruptLsu(m: Machine, c: State, cause: nat)
    requires Shape(c) && HeadDone(c)
    ensures DoInterrupt(m, c, cause).lsu == c.lsu
  {
    CommitSame(c);
    hide Shape, R.Shape, DeqRob;
    var (csr, pc) := m.trap(c.csr, c.log[c.base].d.pc, true, cause, 0);
    DeqLsu(c.(csr := csr), false, Some(pc));
  }

  lemma {:induction false} CommitLsu(m: Machine, c: State)
    requires Shape(c) && HeadDone(c) && QueuesHoldHead(c)
    ensures DoDiscard(c).lsu == DmemCommit(c).lsu && DoCommit(m, c).lsu == DmemCommit(c).lsu
  {
    CommitSame(c);
    hide Shape, DmemCommit, R.Shape, QueuesHoldHead, KindAt, DeqRob;
    var d, e := DmemCommit(c), c.log[c.base];
    DeqLsu(d, false, None);
    if c.base in c.killed {
      DeqLsu(d, false, Some(e.d.pc));
    } else {
      match c.results[c.base]
      case Ok(_, next, flush) =>
        DeqLsu(d.(csr := if e.d.instr.kind.System? then d.csr else m.retire(d.csr)), true,
          if next != e.d.pred || flush then Some(next) else None);
      case Error(cause, tval) =>
        var (csr, pc) := m.trap(d.csr, e.d.pc, false, cause, tval);
        DeqLsu(d.(csr := csr), false, Some(pc));
    }
  }

  lemma {:induction false} CommitSame(c: State)
    requires Shape(c) && HeadDone(c)
    ensures R.Shape(c.table)
    ensures QueuesHoldHead(c) ==> var d := DmemCommit(c); d.log == c.log && d.base == c.base && d.table == c.table
  {
    hide OldestReader, StoreBeat;
  }

  lemma {:induction false} RuleExtends(m: Machine, c: State, e: Event)
    requires Shape(c) && Enabled(m, c, e)
    requires !e.CacheRead? && !e.CacheWrite? && !e.LoadResponse? && !e.DrainStore?
    ensures Extends(c.lsu, Apply(m, c, e).lsu)
  {
    hide Shape, DmemCommit, WordOf, Complete, Executed, Blocked, QueuesHoldHead, WholeWords, R.Allocate, R.Allocated,
         R.Commit, AddressOf, StoreResult, DoWriteBack, DoExecDirect, Woken, KindAt, DoCommit, DoDiscard, DoInterrupt;
    match e
    case Discard => CommitExtends(c); CommitLsu(m, c);
    case Commit => CommitExtends(c); CommitLsu(m, c);
    case Interrupt(cause) => InterruptLsu(m, c, cause);
    case IssueLoad(k) => IssueExtends(c, k);
    case WriteBack(id) => WriteSame(c, id);
    case ExecDirect(r) => ExecSame(m, c, r);
    case _ =>
  }

  lemma {:induction false} IssueExtends(c: State, k: nat)
    requires k < |c.lsu.loads| && c.lsu.loads[k].addr.Some?
    ensures Extends(c.lsu, DoIssueLoad(c, k).lsu)
  {
    WordIsWhole(c.lsu.loads[k].addr.value);
    hide WordOf;
  }

  lemma {:induction false} WriteSame(c: State, id: nat)
    requires Shape(c) && id in c.fu
    ensures DoWriteBack(c, id).lsu == c.lsu
  {
  }

  lemma {:induction false} ExecSame(m: Machine, c: State, r: Result)
    requires Shape(c) && InFlight(c, c.base) && c.direct != []
    ensures DoExecDirect(m, c, r).lsu == c.lsu
  {
  }

  lemma {:induction false} ExtendsLinks(s: System, core': State)
    requires Linked(s) && Extends(s.core.lsu, core'.lsu)
    ensures Linked(s.(core := core'))
  {
    hide SameMemory, WholeWords, SameWords, B.Inv, PlaceOf, B.Here;
  }

  /** The answer that a load takes is the word the core expects for it. */
  lemma {:induction false} RespondSame(m: Machine, s: System, a: Arch, k: nat)
    requires Linked(s) && Inv(m, s.core, a) && Shape(s.core) && Fires(m, s, CoreRule(LoadResponse(k)))
    ensures Enabled(m, s.core, LoadResponse(k)) && s.core.lsu.pend[0].1 == s.acks[0]
    ensures Respond(s.core, k, s.acks[0]) == Apply(m, s.core, LoadResponse(k))
  {
    hide SameMemory, WholeWords, SameRequest, B.Inv, PlaceOf, Inv, Shape, Extract, Blocked;
    FinishesExecuted(m, s.core, a, k);
    assert (s.acks + s.cache.owed)[0] == s.acks[0];
  }

  lemma {:induction false} PopLinks(s: System, core': State)
    requires Linked(s) && s.acks != [] && s.core.lsu.pend != []
    requires core'.lsu == s.core.lsu.(pend := s.core.lsu.pend[1..])
    ensures Linked(s.(core := core', acks := s.acks[1..]))
  {
    hide SameMemory, WholeWords, B.Inv, PlaceOf, B.Here;
    assert (s.acks + s.cache.owed)[1..] == s.acks[1..] + s.cache.owed;
  }

  lemma {:induction false} RespondLinks(m: Machine, s: System, a: Arch, k: nat)
    requires Linked(s) && Inv(m, s.core, a) && Shape(s.core) && Fires(m, s, CoreRule(LoadResponse(k)))
    ensures Enabled(m, s.core, LoadResponse(k))
    ensures Respond(s.core, k, s.acks[0]) == Apply(m, s.core, LoadResponse(k))
    ensures Linked(s.(core := Apply(m, s.core, LoadResponse(k)), acks := s.acks[1..]))
  {
    hide Linked, Inv, Shape, Blocked, Extract;
    RespondSame(m, s, a, k);
    PopLinks(s, Apply(m, s.core, LoadResponse(k)));
  }

  /** The slot of the oldest pending load has an address. */
  lemma {:induction false} FinishesExecuted(m: Machine, c: State, a: Arch, k: nat)
    requires Inv(m, c, a) && Reading(c.lsu.pend, c.lsu.rreq) != [] && k < |c.lsu.loads|
    requires c.lsu.loads[k].entry == Reading(c.lsu.pend, c.lsu.rreq)[0]
    ensures c.lsu.loads[k].addr.Some?
    ensures c.lsu.pend != [] ==> c.lsu.pend[0].0 == c.lsu.loads[k].entry
  {
    hide StreamInv, RenInv, QueueInv, StampInv, DirectInv, TokenInv, StoreTokens, RequestInv, ArchInv, DestInv,
         IssueInv, ComputeInv, LoadValues, StoreValues, BufferInv, KilledInv, FreshInv, CsrInv;
    var l := c.lsu;
    QueueSlots(c.log, c.base, l.loads, l.stores, l.tags);
    assert ExecutedLoad(l.loads, Reading(l.pend, l.rreq)[0]);
    var j :| 0 <= j < |l.loads| && l.loads[j].entry == l.loads[k].entry && l.loads[j].executed;
    assert LoadToken(l.loads[j], c.iq.Keys, Out(c));
  }

  lemma {:induction false} DrainLinks(m: Machine, s: System)
    requires Linked(s) && Shape(s.core) && Fires(m, s, CoreRule(DrainStore))
    ensures Enabled(m, s.core, DrainStore)
    ensures Linked(s.(core := DoDrainStore(s.core), stored := s.stored - 1))
  {
    hide SameMemory, WholeWords, SameWords, B.Inv, PlaceOf, B.Here, Shape;
  }

  // ----- the rules of the cache

  /** What `Inv` of the cache and the guard give for every rule. */
  lemma {:induction false} CacheStep(c: B.State, r: B.Rule)
    requires B.Inv(c) && B.Enabled(c, r)
    ensures B.Sized(c) && B.Inv(B.Apply(c, r))
  {
    hide *;
    B.StepKeeps(c, r);
  }

  lemma {:induction false} SendLinks(s: System, addr: Addr, r: B.Request)
    requires Linked(s)
    requires var p := PlaceOf(addr);
             && r.tag == p.tag && B.Enabled(s.cache, B.Put(p.index, p.offset, r))
             && match r.op
                case Load => s.core.lsu.rreq != [] && addr == s.core.lsu.rreq[0].1
                case Store => s.core.lsu.wreq != [] && s.core.lsu.wreq[0] == Beat(addr, r.data, r.mask)
                case Invalidate => true
    ensures var p := PlaceOf(addr);
            B.Sized(s.cache) && Linked(s.(cache := B.Apply(s.cache, B.Put(p.index, p.offset, r))))
  {
    hide SameMemory, WholeWords, SameWords, B.Inv, PlaceOf;
    var p := PlaceOf(addr);
    CacheStep(s.cache, B.Put(p.index, p.offset, r));
  }

  /** Rules of the cache that the processor does not see. */
  lemma {:induction false} QuietRule(c: B.State, r: B.Rule)
    requires B.Sized(c) && B.Enabled(c, r) && !r.Put? && !r.TagMatch? && !r.GetAnswer?
    ensures var t := B.Apply(c, r);
            && t.flat == c.flat && t.owed == c.owed && t.sets == c.sets && t.ways == c.ways && t.words == c.words
            && t.request == c.request && t.index == c.index && t.offset == c.offset
            && (t.phase == B.Matching ==> c.phase == B.Matching)
  {
    hide B.Sized, B.SetWay, Merge, B.Peek, B.Fetch;
  }

  lemma {:induction false} QuietLinks(s: System, r: B.Rule)
    requires Linked(s) && B.Enabled(s.cache, r) && !r.Put? && !r.TagMatch? && !r.GetAnswer?
    ensures B.Sized(s.cache) && Linked(s.(cache := B.Apply(s.cache, r)))
  {
    hide SameMemory, WholeWords, SameWords, B.Inv, B.Sized, PlaceOf, B.Enabled, B.Apply;
    CacheStep(s.cache, r);
    QuietRule(s.cache, r);
  }

  lemma {:induction false} AnswerLinks(s: System)
    requires Linked(s) && B.Enabled(s.cache, B.GetAnswer)
    ensures B.Sized(s.cache)
    ensures Linked(s.(cache := B.Apply(s.cache, B.GetAnswer), acks := s.acks + [s.cache.answer.value.word]))
  {
    hide SameMemory, WholeWords, B.Inv, B.Sized, PlaceOf;
    CacheStep(s.cache, B.GetAnswer);
    B.ReadAckInv(s.cache);
    assert s.acks + s.cache.owed == s.acks + [s.cache.answer.value.word] + s.cache.owed[1..];
  }

  /** A match performs the oldest read or write of the core. */
  lemma {:induction false} MatchLinks(m: Machine, s: System)
    requires Linked(s) && Shape(s.core) && B.Enabled(s.cache, B.TagMatch)
    ensures B.Sized(s.cache) && Linked(Matched(s))
    ensures s.cache.request.op == B.Invalidate ==> Matched(s).core == s.core
    ensures s.cache.request.op == B.Load ==>
              Enabled(m, s.core, CacheRead) && Matched(s).core == DoCacheRead(s.core)
    ensures s.cache.request.op == B.Store ==>
              Enabled(m, s.core, CacheWrite) && Matched(s).core == DoCacheWrite(s.core)
  {
    hide B.Inv, B.Sized, B.MatchState, PlaceOf, Shape, Merge;
    CacheStep(s.cache, B.TagMatch);
    B.MatchInv(s.cache);
    SameSizes(s.cache);
    var l := s.core.lsu;
    match s.cache.request.op
    case Load =>
      hide SameMemory;
      ReadMatches(s.core.lsu.mem, s.cache.flat, l.rreq[0].1);
    case Store =>
      StoredWord(l.mem, s.cache.flat, l.wreq[0]);
      hide SameMemory;
    case Invalidate =>
      hide SameMemory;
  }

  lemma {:induction false} ReadMatches(mem: Memory, flat: B.Flat, a: Addr)
    requires SameMemory(mem, flat) && a % 4 == 0
    ensures Read(mem, a) == B.Fetch(flat, PlaceOf(a))
  {
  }

  lemma {:induction false} SameSizes(c: B.State)
    requires B.Sized(c)
    ensures var t := B.MatchState(c); t.sets == c.sets && t.ways == c.ways && t.words == c.words
  {
    hide B.Sized, B.SetWay, Merge, B.Peek, B.Fetch, B.Holds, B.WayOf;
  }

  // ----- one rule, and runs

  /** Every rule of core and cache together is one rule of the core on a flat memory, or
      none: loads get the words of that memory. */
  lemma {:induction false} SystemStep(m: Machine, s: System, a: Arch, rule: Rule)
    requires Linked(s) && Inv(m, s.core, a) && Shape(s.core) && Fires(m, s, rule)
    ensures B.Sized(s.cache) && Linked(After(m, s, rule))
    ensures match EventOf(s, rule)
            case None => After(m, s, rule).core == s.core
            case Some(e) => Enabled(m, s.core, e) && After(m, s, rule).core == Apply(m, s.core, e)
  {
    hide Linked, Inv, Shape, PlaceOf, Matched, B.Apply, B.Sized, Extends, Respond;
    LinkedSized(s);
    var l := s.core.lsu;
    match rule
    case CoreRule(e) =>
      if e.LoadResponse? {
        RespondLinks(m, s, a, e.k);
      } else if e.DrainStore? {
        DrainLinks(m, s);
      } else {
        RuleExtends(m, s.core, e);
        ExtendsLinks(s, Apply(m, s.core, e));
      }
    case SendRead => SendLinks(s, l.rreq[0].1, ReadRequest(l.rreq[0].1).r);
    case SendWrite => SendLinks(s, l.wreq[0].addr, WriteRequest(l.wreq[0]).r);
    case SendInvalidate(addr) => SendLinks(s, addr, InvalidateRequest(addr).r);
    case CacheRule(r) =>
      if r.TagMatch? {
        MatchLinks(m, s);
      } else if r.GetAnswer? {
        AnswerLinks(s);
      } else {
        QuietLinks(s, r);
      }
  }

  lemma {:induction false} LinkedSized(s: System)
    requires Linked(s)
    ensures B.Sized(s.cache)
  {
    B.InBounds(s.cache);
  }

  /** Main memory is behind an empty cache at reset. */
  function Reset(pc: Addr, mem: Memory, csr: Csr, flat: B.Flat): System {
    System.System(Init(pc, mem, csr), B.Reset(SETS, WAYS, WORDS, flat), [], 0)
  }

  lemma {:induction false} ResetLinks(pc: Addr, mem: Memory, csr: Csr, flat: B.Flat)
    requires SameMemory(mem, flat)
    ensures Linked(Reset(pc, mem, csr, flat))
  {
    B.ResetHolds(SETS, WAYS, WORDS, flat);
    hide B.Inv, SameMemory;
  }

  ghost predicate RunTogether(m: Machine, ss: seq<System>, rules: seq<Rule>, first: System) {
    && |ss| == |rules| + 1 && ss[0] == first
    && forall i :: 0 <= i < |rules| ==>
         && Shape(ss[i].core) && B.Sized(ss[i].cache) && Fires(m, ss[i], rules[i])
         && ss[i + 1] == After(m, ss[i], rules[i])
  }

  predicate NoOperandsTaken(ss: seq<System>, rules: seq<Rule>)
    requires |ss| == |rules| + 1
  {
    forall i :: 0 <= i < |rules| ==> rules[i].CoreRule? ==> !TakesAnothers(ss[i].core, rules[i].e)
  }

  function ArchNext(m: Machine, s: System, a: Arch, rule: Rule): Arch
    requires Isa.Valid(a)
  {
    var e := EventOf(s, rule);
    if e.None? then a else ArchAfter(m, s.core, a, e.value)
  }

  lemma {:induction false} OneRule(m: Machine, s: System, a: Arch, rule: Rule, core': State)
    requires Inv(m, s.core, a) && Agrees(s.core, a) && Shape(s.core) && Isa.Valid(a)
    requires rule.CoreRule? ==> !TakesAnothers(s.core, rule.e)
    requires match EventOf(s, rule)
             case None => core' == s.core
             case Some(e) => Enabled(m, s.core, e) && core' == Apply(m, s.core, e)
    ensures var a' := ArchNext(m, s, a, rule);
            Inv(m, core', a') && Agrees(core', a') && Isa.Valid(a') && ArchStep(m, a, a')
  {
    hide Inv, Shape, Agrees, Enabled, Apply;
    var e := EventOf(s, rule);
    if e.Some? {
      StepSimulates(m, s.core, a, e.value);
      InvAgrees(m, core', ArchAfter(m, s.core, a, e.value));
      InvValid(m, core', ArchAfter(m, s.core, a, e.value));
      OneStep(m, s.core, a, e.value);
    }
  }

  /** The sequential machine beside a run: after every rule the committed state of the core
      is its state, and the cache holds the memory that the core works on. */
  ghost predicate Beside(m: Machine, ss: seq<System>, rules: seq<Rule>, archs: seq<Arch>)
    requires |ss| == |rules| + 1
  {
    && |archs| == |ss| && Sequential(m, archs)
    && (forall i :: 0 <= i < |ss| ==> Linked(ss[i]) && Inv(m, ss[i].core, archs[i]) && Agrees(ss[i].core, archs[i]))
    && forall i :: 0 <= i < |rules| ==> archs[i + 1] == ArchNext(m, ss[i], archs[i], rules[i])
  }

  lemma {:induction false} BesideNext(m: Machine, ss: seq<System>, rules: seq<Rule>, archs: seq<Arch>, rule: Rule)
    requires |ss| == |rules| + 1 && Beside(m, ss, rules, archs)
    requires var s := ss[|rules|];
             && Shape(s.core) && B.Sized(s.cache) && Fires(m, s, rule)
             && (rule.CoreRule? ==> !TakesAnothers(s.core, rule.e))
    ensures var s := ss[|rules|];
            Beside(m, ss + [After(m, s, rule)], rules + [rule], archs + [ArchNext(m, s, archs[|rules|], rule)])
  {
    hide Inv, Shape, Linked, Agrees, ArchStep, TakesAnothers, Fires, After, B.Sized, ArchNext;
    var s, a := ss[|rules|], archs[|rules|];
    SystemStep(m, s, a, rule);
    OneRule(m, s, a, rule, After(m, s, rule).core);
  }

  lemma {:induction false} BesideFirst(m: Machine, pc: Addr, mem: Memory, csr: Csr, flat: B.Flat)
    requires SameMemory(mem, flat)
    ensures Beside(m, [Reset(pc, mem, csr, flat)], [], [Arch(pc, seq(32, (i: nat) => ZERO), mem, csr)])
  {
    hide Inv, Linked, Agrees, ArchStep, SameMemory;
    var s, a := Reset(pc, mem, csr, flat), Arch(pc, seq(32, (i: nat) => ZERO), mem, csr);
    InitHolds(m, pc, mem, csr);
    ResetLinks(pc, mem, csr, flat);
    InvAgrees(m, s.core, a);
    InvValid(m, s.core, a);
  }

  /** Every run of core, cache and main memory together, every interleaving of rules and
      burst beats, is a run of the sequential machine. */
  lemma {:induction false} SystemRefines(m: Machine, ss: seq<System>, rules: seq<Rule>, pc: Addr, mem: Memory, csr: Csr,
        flat: B.Flat) returns (archs: seq<Arch>)
    requires SameMemory(mem, flat) && RunTogether(m, ss, rules, Reset(pc, mem, csr, flat))
    requires NoOperandsTaken(ss, rules)
    ensures Beside(m, ss, rules, archs) && archs[0] == Arch(pc, seq(32, (i: nat) => ZERO), mem, csr)
    decreases |rules|
  {
    hide Beside, Shape, TakesAnothers, Fires, After, B.Sized, SameMemory, Reset, ArchNext;
    if |rules| == 0 {
      archs := [Arch(pc, seq(32, (i: nat) => ZERO), mem, csr)];
      BesideFirst(m, pc, mem, csr, flat);
      assert ss == [Reset(pc, mem, csr, flat)];
      assert rules == [];
    } else {
      var n := |rules| - 1;
      var before := SystemRefines(m, ss[..n + 1], rules[..n], pc, mem, csr, flat);
      BesideValid(m, ss[..n + 1], rules[..n], before);
      BesideNext(m, ss[..n + 1], rules[..n], before, rules[n]);
      archs := before + [ArchNext(m, ss[n], before[n], rules[n])];
      assert ss == ss[..n + 1] + [After(m, ss[n], rules[n])];
      assert rules == rules[..n] + [rules[n]];
    }
  }

  lemma {:induction false} BesideValid(m: Machine, ss: seq<System>, rules: seq<Rule>, archs: seq<Arch>)
    requires |ss| == |rules| + 1 && Beside(m, ss, rules, archs)
    ensures |archs| == |ss| && forall i :: 0 <= i < |archs| ==> Isa.Valid(archs[i])
  {
  }

  /** Where the sequential machine's memory is, once every write was performed and the
      cache is idle: a word is in the data RAM if some way holds its line, and in main
      memory otherwise. */
  lemma {:induction false} WhereMemoryIs(m: Machine, s: System, a: Arch, addr: Addr)
    requires Linked(s) && Inv(m, s.core, a) && s.core.lsu.wreq == [] && s.cache.phase == B.Idle && addr % 4 == 0
    ensures var p := PlaceOf(addr);
            && B.Sized(s.cache)
            && (forall w :: 0 <= w < WAYS && B.Holds(s.cache.tags, p.index, w, p.tag) ==>
                  Read(a.mem, addr) == B.Peek(s.cache.ram, B.Slot(w, p.index, p.offset)))
            && (!B.Cached(s.cache.tags, B.Line(p.tag, p.index), SETS, WAYS) ==>
                  Read(a.mem, addr) == B.Fetch(s.cache.mem, p))
  {
    var p := PlaceOf(addr);
    OneWord(addr, addr);
    MemoryOf(m, s.core, a);
    ReadMatches(s.core.lsu.mem, s.cache.flat, addr);
    hide SameMemory, PlaceOf;
    var c := s.cache;
    forall w | 0 <= w < WAYS && B.Holds(c.tags, p.index, w, p.tag)
      ensures B.Fetch(c.flat, p) == B.Peek(c.ram, B.Slot(w, p.index, p.offset))
    {
      assert B.WayAgrees(c.tags, c.ram, c.mem, c.flat, c.words, p.index, w);
    }
    if !B.Cached(c.tags, B.Line(p.tag, p.index), SETS, WAYS) {
      assert B.InMemory(c.mem, c.flat, c.words, B.Line(p.tag, p.index));
    }
  }

  lemma {:induction false} MemoryOf(m: Machine, c: State, a: Arch)
    requires Inv(m, c, a) && c.lsu.wreq == []
    ensures a.mem == c.lsu.mem
  {
    hide StreamInv, RenInv, QueueInv, StampInv, DirectInv, TokenInv, LoadTokens, StoreTokens, ReadingInv, RequestInv,
         ArchInv, DestInv, IssueInv, ComputeInv, LoadValues, StoreValues, KilledInv, FreshInv, CsrInv;
  }
}
