/** Commit, discard and interrupt: the head leaves the reorder buffer, with or
    without a flush, and the architectural state makes the same step. */
module CoreRetire {
  import opened Words
  import opened Wrappers
  import opened Isa
  import opened LsuSpec
  import opened Core
  import opened CoreInvariant
  import opened CoreStream
  import opened CoreRenaming
  import opened CoreQueues
  import opened CoreFrames
  import opened CoreExecute
  import R = RenamingSpec

  ghost predicate Tail<T>(s: seq<T>, s': seq<T>) {
    s' == s || (s != [] && s' == s[1..])
  }

  lemma {:induction false} PopTokens(log: seq<Entry>, base: nat, iq: map<nat, (bool, bool)>, fu: map<nat, Result>,
      results: map<nat, Result>, direct: seq<(nat, nat)>)
    requires TokenInv(log, base, iq, fu, results) && DirectInv(log, base, results, direct) && base < |log|
    requires base in results
    ensures DirectInv(log, base + 1, results - {base}, direct)
    ensures TokenInv(log, base + 1, iq, fu, results - {base})
    ensures fu + (results - {base}) == (fu + results) - {base}
    ensures base + 1 < |log| && KindAt(log, base + 1).System? ==> base + 1 !in results
  {
    DirectRetire(log, base, results, direct);
  }

  // ----- queues without the head

  lemma {:induction false} PopLoads(m: Machine, c: State, loads': seq<LoadSlot<nat>>, out: map<nat, Result>)
    requires Tail(c.lsu.loads, loads') && NoLoad(loads', c.base)
    requires LoadTokens(c.lsu.loads, c.iq.Keys, out)
    requires RequestInv(c.lsu.loads, c.lsu.rreq)
    requires LoadValues(m, c.log, c.epoch, c.regs, c.lsu.loads, c.iq.Keys, out)
    ensures LoadTokens(loads', c.iq.Keys, out - {c.base})
    ensures RequestInv(loads', c.lsu.rreq)
    ensures LoadValues(m, c.log, c.epoch, c.regs, loads', c.iq.Keys, out - {c.base})
  {
  }

  lemma {:induction false} PopStores(m: Machine, c: State, stores': seq<StoreSlot<nat>>, out: map<nat, Result>)
    requires Tail(c.lsu.stores, stores') && NoStore(stores', c.base)
    requires StampInv(c.log, c.lsu.stores)
    requires StoreTokens(c.lsu.stores, c.iq.Keys, out)
    requires StoreValues(m, c.log, c.epoch, c.regs, c.lsu.stores, c.iq.Keys, out)
    ensures StampInv(c.log, stores')
    ensures StoreTokens(stores', c.iq.Keys, out - {c.base})
    ensures StoreValues(m, c.log, c.epoch, c.regs, stores', c.iq.Keys, out - {c.base})
  {
  }

  lemma {:induction false} PopReading(c: State, loads': seq<LoadSlot<nat>>, out: map<nat, Result>)
    requires Tail(c.lsu.loads, loads') && c.base in out && (loads' != c.lsu.loads ==> c.lsu.loads[0].entry == c.base)
    requires ReadingInv(c.lsu.loads, Reading(c.lsu.pend, c.lsu.rreq), out)
    ensures ReadingInv(loads', Reading(c.lsu.pend, c.lsu.rreq), out - {c.base})
  {
    var reading := Reading(c.lsu.pend, c.lsu.rreq);
    hide Reading;
    forall i | 0 <= i < |reading|
      ensures ExecutedLoad(loads', reading[i])
    {
      assert ExecutedLoad(c.lsu.loads, reading[i]);
      var k :| 0 <= k < |c.lsu.loads| && c.lsu.loads[k].entry == reading[i] && c.lsu.loads[k].executed;
      if loads' != c.lsu.loads {
        assert loads'[k - 1] == c.lsu.loads[k];
      }
    }
  }

  lemma {:induction false} PopFresh(log: seq<Entry>, base: nat, epoch: nat, killed: set<nat>,
        loads: seq<LoadSlot<nat>>, loads': seq<LoadSlot<nat>>, wreq: seq<Beat>, rreq: seq<(nat, Addr)>,
        pend: seq<(nat, Word)>, out: map<nat, Result>, amem: Memory)
    requires base < |log| && Tail(loads, loads') && NoLoad(loads', base)
    requires base in killed ==> log[base].d.epoch != epoch
    requires FreshInv(log, epoch, killed, loads, wreq, rreq, pend, out, amem)
    ensures FreshInv(log, epoch, killed - {base}, loads', wreq, rreq, pend, out - {base}, amem)
  {
    forall k | 0 <= k < |loads'| && IsLoadAt(log, loads'[k].entry) && loads'[k].executed && loads'[k].addr.Some? &&
               log[loads'[k].entry].d.epoch == epoch && !Shadowed(log, epoch, killed - {base}, loads'[k].entry)
      ensures LoadFresh(log[loads'[k].entry], loads'[k], wreq, rreq, pend, out - {base}, amem)
    {
      var j := if loads' == loads then k else k + 1;
      assert loads'[k] == loads[j];
      NotShadowed(log, base, epoch, killed, loads[j].entry);
      assert LoadFresh(log[loads[j].entry], loads[j], wreq, rreq, pend, out, amem);
    }
  }

  lemma {:induction false} NotShadowed(log: seq<Entry>, base: nat, epoch: nat, killed: set<nat>, id: nat)
    requires base < |log| && (base in killed ==> log[base].d.epoch != epoch)
    requires !Shadowed(log, epoch, killed - {base}, id)
    ensures !Shadowed(log, epoch, killed, id)
  {
    forall k | k in killed && k <= id && k < |log|
      ensures log[k].d.epoch != epoch
    {
      if k != base {
        assert k in killed - {base};
      }
    }
  }

  /** A store commits: a load of its word that was already executed is marked, and it
      or an older marked load shadows every other reader of the word. */
  lemma {:induction false} StoreFresh(log: seq<Entry>, epoch: nat, killed: set<nat>, loads: seq<LoadSlot<nat>>,
        wreq: seq<Beat>, rreq: seq<(nat, Addr)>, pend: seq<(nat, Word)>, out: map<nat, Result>, amem: Memory, b: Beat)
    requires FreshInv(log, epoch, killed, loads, wreq, rreq, pend, out, amem) && WordOf(b.addr) == b.addr
    requires Ordered(loads)
    requires forall k :: 0 <= k < |loads| ==> IsLoadAt(log, loads[k].entry) && log[loads[k].entry].d.epoch == epoch
    ensures var kill := OldestReader(loads, b.addr);
            var killed' := if kill.Some? then killed + {kill.value} else killed;
            FreshInv(log, epoch, killed', loads, wreq + [b], rreq, pend, out, Write(amem, b))
  {
    hide Write, Read, NotPending, LoadValue, OldestReader, WordOf;
    var kill := OldestReader(loads, b.addr);
    var killed' := if kill.Some? then killed + {kill.value} else killed;
    forall k | 0 <= k < |loads| && loads[k].executed && loads[k].addr.Some?
          && !Shadowed(log, epoch, killed', loads[k].entry)
      ensures LoadFresh(log[loads[k].entry], loads[k], wreq + [b], rreq, pend, out, Write(amem, b))
    {
      assert !Shadowed(log, epoch, killed, loads[k].entry);
      assert LoadFresh(log[loads[k].entry], loads[k], wreq, rreq, pend, out, amem);
      assert !ReadWord(loads[k], b.addr);
      OtherWord(wreq, amem, b, WordOf(loads[k].addr.value));
    }
  }

  lemma {:induction false} OtherWord(wreq: seq<Beat>, amem: Memory, b: Beat, word: Addr)
    requires word != b.addr
    ensures Read(Write(amem, b), word) == Read(amem, word)
    ensures NotPending(wreq, word) ==> NotPending(wreq + [b], word)
  {
  }

  /** After a flush no instruction in flight is of the new epoch. */
  lemma {:induction false} FlushGroups(m: Machine, log: seq<Entry>, base: nat, epoch: nat, killed: set<nat>, l: Lsu,
        regs: seq<Word>, waiting: set<nat>, out: map<nat, Result>, amem: Memory)
    requires forall id :: base <= id < |log| ==> log[id].d.epoch <= epoch
    requires forall k :: 0 <= k < |l.loads| ==> base <= l.loads[k].entry
    requires forall k :: 0 <= k < |l.stores| ==> base <= l.stores[k].entry
    ensures ComputeInv(m, log, base, epoch + 1, regs, out)
    ensures LoadValues(m, log, epoch + 1, regs, l.loads, waiting, out)
    ensures StoreValues(m, log, epoch + 1, regs, l.stores, waiting, out)
    ensures FreshInv(log, epoch + 1, killed, l.loads, l.wreq, l.rreq, l.pend, out, amem)
  {
  }

  lemma {:induction false} FlushIssue(c: State)
    requires c.base < |c.log| && IssueInv(c.log, c.base + 1, c.epoch, c.table.busy, c.iq)
    requires forall id :: c.base <= id < |c.log| ==> c.log[id].d.epoch <= c.epoch
    ensures IssueInv(c.log, c.base + 1, c.epoch + 1, c.table.busy, c.iq)
  {
  }

  // ----- the memory part of a commit

  /** A store that must commit, as the store queue holds it. */
  function HeadBeat(c: State): Beat
    requires Shape(c) && HeadDone(c) && QueuesHoldHead(c) && KindAt(c.log, c.base).Store? && c.lsu.tags[0].StoreTag?
  {
    StoreBeat(KindAt(c.log, c.lsu.stores[0].entry).size, c.lsu.stores[0].addr.value, c.lsu.stores[0].data.value)
  }

  function MustCommit(c: State): bool
    requires HeadDone(c)
  {
    KindAt(c.log, c.base).Store? && c.log[c.base].d.epoch == c.epoch && c.results[c.base].Ok?
  }

  /** The queues lose the head; nothing else of the unit moves, unless a store enters
      the store buffer. */
  lemma {:induction false} DmemQueues(c: State)
    requires Shape(c) && HeadDone(c) && QueuesHoldHead(c)
    requires QueueInv(c.log, c.base, c.lsu.loads, c.lsu.stores, c.lsu.tags)
    ensures MustCommit(c) ==> c.lsu.tags[0].StoreTag? && c.lsu.stores[0].entry == c.base
    ensures var d := DmemCommit(c);
            && QueueInv(c.log, c.base + 1, d.lsu.loads, d.lsu.stores, d.lsu.tags)
            && Tail(c.lsu.loads, d.lsu.loads) && NoLoad(d.lsu.loads, c.base)
            && (d.lsu.loads != c.lsu.loads ==> c.lsu.loads[0].entry == c.base)
            && Tail(c.lsu.stores, d.lsu.stores) && NoStore(d.lsu.stores, c.base)
            && d == c.(lsu := d.lsu, killed := d.killed)
            && (!MustCommit(c) ==> d.lsu == c.lsu.(loads := d.lsu.loads, stores := d.lsu.stores, tags := d.lsu.tags))
            && (!MustCommit(c) && IsMemory(KindAt(c.log, c.base)) ==> d.killed == c.killed - {c.base})
            && (!IsMemory(KindAt(c.log, c.base)) ==> d == c)
            && (MustCommit(c) ==> d.lsu == c.lsu.(stores := d.lsu.stores, tags := d.lsu.tags,
                                                  stb := c.lsu.stb + [HeadBeat(c)], wreq := c.lsu.wreq + [HeadBeat(c)]))
            && (MustCommit(c) ==> var kill := OldestReader(c.lsu.loads, HeadBeat(c).addr);
                  d.killed == (if kill.Some? then c.killed + {kill.value} else c.killed) - {c.base})
  {
    hide Shape, QueueInv, OldestReader, StoreBeat;
    QueueSlots(c.log, c.base, c.lsu.loads, c.lsu.stores, c.lsu.tags);
    QueuePop(c.log, c.base, c.lsu);
    var d := DmemCommit(c);
    if KindAt(c.log, c.base).Load? {
      assert d.lsu.loads == c.lsu.loads[1..];
    } else if KindAt(c.log, c.base).Store? {
      assert d.lsu.stores == c.lsu.stores[1..];
    }
  }

  /** The architectural memory after the head's memory operation. */
  function MemoryAfter(c: State, amem: Memory): Memory
    requires Shape(c) && HeadDone(c) && QueuesHoldHead(c) && (MustCommit(c) ==> c.lsu.tags[0].StoreTag?)
  {
    if MustCommit(c) then Write(amem, HeadBeat(c)) else amem
  }

  lemma {:induction false} BufferAppend(mem: Memory, wreq: seq<Beat>, stb: seq<Beat>, amem: Memory, b: Beat)
    requires BufferInv(mem, wreq, stb, amem)
    ensures BufferInv(mem, wreq + [b], stb + [b], Write(amem, b))
  {
    hide Write;
    DrainedAppend(mem, wreq, b);
    assert (stb + [b])[|stb| - |wreq|..] == stb[|stb| - |wreq|..] + [b];
  }

  lemma {:induction false} PopBuffer(c: State, amem: Memory)
    requires Shape(c) && HeadDone(c) && QueuesHoldHead(c)
    requires QueueInv(c.log, c.base, c.lsu.loads, c.lsu.stores, c.lsu.tags)
    requires BufferInv(c.lsu.mem, c.lsu.wreq, c.lsu.stb, amem)
    ensures MustCommit(c) ==> c.lsu.tags[0].StoreTag?
    ensures var d := DmemCommit(c); BufferInv(d.lsu.mem, d.lsu.wreq, d.lsu.stb, MemoryAfter(c, amem))
  {
    hide Shape, QueueInv, QueuesHoldHead, DmemCommit, BufferInv, Tail, NoLoad, NoStore, OldestReader, HeadBeat, Write;
    DmemQueues(c);
    if MustCommit(c) {
      BufferAppend(c.lsu.mem, c.lsu.wreq, c.lsu.stb, amem, HeadBeat(c));
    }
  }

  lemma {:induction false} KilledPop(log: seq<Entry>, base: nat, killed: set<nat>)
    requires KilledInv(log, base, killed)
    ensures KilledInv(log, base + 1, killed - {base})
    ensures base < |log| && !KindAt(log, base).Load? ==> KilledInv(log, base + 1, killed)
  {
  }

  lemma {:induction false} PopKilled(c: State)
    requires Shape(c) && HeadDone(c) && QueuesHoldHead(c)
    requires QueueInv(c.log, c.base, c.lsu.loads, c.lsu.stores, c.lsu.tags)
    requires KilledInv(c.log, c.base, c.killed)
    ensures KilledInv(c.log, c.base + 1, DmemCommit(c).killed)
  {
    hide Shape, QueueInv, QueuesHoldHead, DmemCommit, KilledInv, Tail, NoLoad, NoStore, OldestReader, HeadBeat;
    DmemQueues(c);
    KilledPop(c.log, c.base, c.killed);
    if MustCommit(c) {
      var kill := OldestReader(c.lsu.loads, HeadBeat(c).addr);
      KilledReader(c, HeadBeat(c).addr);
      KilledPop(c.log, c.base, if kill.Some? then c.killed + {kill.value} else c.killed);
    }
  }

  lemma {:induction false} KilledReader(c: State, addr: Addr)
    requires QueueInv(c.log, c.base, c.lsu.loads, c.lsu.stores, c.lsu.tags)
    requires KilledInv(c.log, c.base, c.killed)
    ensures var kill := OldestReader(c.lsu.loads, addr);
            KilledInv(c.log, c.base, if kill.Some? then c.killed + {kill.value} else c.killed)
  {
    QueueSlots(c.log, c.base, c.lsu.loads, c.lsu.stores, c.lsu.tags);
    hide QueueInv, OldestReader;
    if OldestReader(c.lsu.loads, addr).Some? {
      OldestReaderSlot(c.lsu.loads, addr);
    }
  }

  lemma {:induction false} OldestReaderSlot(loads: seq<LoadSlot<nat>>, addr: Addr)
    requires OldestReader(loads, addr).Some?
    ensures exists k :: 0 <= k < |loads| && loads[k].entry == OldestReader(loads, addr).value
  {
  }

  /** Every group for the old epoch, once the head has left. */
  lemma {:induction false} PopGroups(m: Machine, c: State, a: Arch)
    requires Inv(m, c, a) && Shape(c) && HeadDone(c) && QueuesHoldHead(c)
    ensures MustCommit(c) ==> c.lsu.tags[0].StoreTag?
    ensures var d, out := DmemCommit(c), Out(c) - {c.base};
            && d == c.(lsu := d.lsu, killed := d.killed)
            && c.fu + (c.results - {c.base}) == out
            && QueueInv(c.log, c.base + 1, d.lsu.loads, d.lsu.stores, d.lsu.tags)
            && TokenInv(c.log, c.base + 1, c.iq, c.fu, c.results - {c.base})
            && LoadTokens(d.lsu.loads, c.iq.Keys, out)
            && RequestInv(d.lsu.loads, d.lsu.rreq)
            && LoadValues(m, c.log, c.epoch, c.regs, d.lsu.loads, c.iq.Keys, out)
            && StampInv(c.log, d.lsu.stores)
            && StoreTokens(d.lsu.stores, c.iq.Keys, out)
            && StoreValues(m, c.log, c.epoch, c.regs, d.lsu.stores, c.iq.Keys, out)
            && ReadingInv(d.lsu.loads, Reading(d.lsu.pend, d.lsu.rreq), out)
            && BufferInv(d.lsu.mem, d.lsu.wreq, d.lsu.stb, MemoryAfter(c, a.mem))
            && KilledInv(c.log, c.base + 1, d.killed)
  {
    hide Shape, TokenInv, StreamInv, RenInv, QueueInv, StampInv, DirectInv, LoadTokens, StoreTokens, ReadingInv,
         RequestInv, ArchInv, DestInv, IssueInv, ComputeInv, LoadValues, StoreValues, BufferInv, KilledInv, FreshInv,
         CsrInv, DmemCommit, HeadBeat, MemoryAfter, Tail, NoLoad, NoStore;
    DmemQueues(c);
    PopBuffer(c, a.mem);
    PopKilled(c);
    PopTokens(c.log, c.base, c.iq, c.fu, c.results, c.direct);
    var d := DmemCommit(c);
    assert d.lsu.rreq == c.lsu.rreq && d.lsu.pend == c.lsu.pend;
    PopLoads(m, c, d.lsu.loads, Out(c));
    PopStores(m, c, d.lsu.stores, Out(c));
    PopReading(c, d.lsu.loads, Out(c));
  }

  lemma {:induction false} PopPlain(m: Machine, c: State)
    requires c.base < |c.log|
    requires DestInv(c.log, c.base, c.table.busy, c.regs, c.results)
    requires IssueInv(c.log, c.base, c.epoch, c.table.busy, c.iq)
    requires ComputeInv(m, c.log, c.base, c.epoch, c.regs, Out(c))
    ensures DestInv(c.log, c.base + 1, c.table.busy, c.regs, c.results - {c.base})
    ensures IssueInv(c.log, c.base + 1, c.epoch, c.table.busy, c.iq)
    ensures ComputeInv(m, c.log, c.base + 1, c.epoch, c.regs, Out(c) - {c.base})
  {
    hide Out;
  }

  /** What the loads have read agrees with the memory the commit leaves. */
  lemma {:induction false} PopMemory(m: Machine, c: State, a: Arch)
    requires Inv(m, c, a) && Shape(c) && HeadDone(c) && QueuesHoldHead(c)
    requires c.base in c.killed ==> c.log[c.base].d.epoch != c.epoch
    ensures MustCommit(c) ==> c.lsu.tags[0].StoreTag?
    ensures var d := DmemCommit(c);
            FreshInv(c.log, c.epoch, d.killed, d.lsu.loads, d.lsu.wreq, d.lsu.rreq, d.lsu.pend, Out(c) - {c.base},
                  MemoryAfter(c, a.mem))
  {
    hide Shape, TokenInv, StreamInv, RenInv, QueueInv, StampInv, DirectInv, LoadTokens, StoreTokens, ReadingInv,
         RequestInv, ArchInv, DestInv, IssueInv, ComputeInv, LoadValues, StoreValues, BufferInv, FreshInv, CsrInv,
         DmemCommit, Tail, NoLoad, NoStore, Out, Chain, OldestReader;
    DmemQueues(c);
    QueueSlots(c.log, c.base, c.lsu.loads, c.lsu.stores, c.lsu.tags);
    var d := DmemCommit(c);
    var out := Out(c) - {c.base};
    PopFresh(c.log, c.base, c.epoch, c.killed, c.lsu.loads, d.lsu.loads, c.lsu.wreq, c.lsu.rreq, c.lsu.pend, Out(c),
        a.mem);
    if MustCommit(c) {
      assert c.killed - {c.base} == c.killed;
      HeadEpoch(m, c, a.pc);
      StoreCommits(c, d.lsu.loads);
      StoreFresh(c.log, c.epoch, c.killed, c.lsu.loads, c.lsu.wreq, c.lsu.rreq, c.lsu.pend, out, a.mem, HeadBeat(c));
      NoKill(c, d);
    } else if !IsMemory(KindAt(c.log, c.base)) {
      assert c.killed - {c.base} == c.killed;
    }
  }

  lemma {:induction false} StoreCommits(c: State, loads': seq<LoadSlot<nat>>)
    requires Shape(c) && HeadDone(c) && QueuesHoldHead(c) && MustCommit(c) && c.lsu.tags[0].StoreTag?
    ensures WordOf(HeadBeat(c).addr) == HeadBeat(c).addr
    ensures DmemCommit(c).lsu.loads == c.lsu.loads
  {
    hide OldestReader;
  }

  /** A store is never marked, so clearing its own bit changes nothing. */
  lemma {:induction false} NoKill(c: State, d: State)
    requires Shape(c) && HeadDone(c) && QueuesHoldHead(c) && MustCommit(c) && c.lsu.tags[0].StoreTag?
    requires QueueInv(c.log, c.base, c.lsu.loads, c.lsu.stores, c.lsu.tags) && KilledInv(c.log, c.base, c.killed)
    requires var kill := OldestReader(c.lsu.loads, HeadBeat(c).addr);
             d.killed == (if kill.Some? then c.killed + {kill.value} else c.killed) - {c.base}
    ensures var kill := OldestReader(c.lsu.loads, HeadBeat(c).addr);
            d.killed == if kill.Some? then c.killed + {kill.value} else c.killed
  {
    QueueSlots(c.log, c.base, c.lsu.loads, c.lsu.stores, c.lsu.tags);
    hide Shape, QueueInv, OldestReader, HeadBeat;
    var kill := OldestReader(c.lsu.loads, HeadBeat(c).addr);
    if kill.Some? {
      OldestReaderSlot(c.lsu.loads, HeadBeat(c).addr);
    }
  }

  // ----- the committed result is the sequential one

  /** A load that commits unmarked returned the word of the committed memory,
      although it may have executed before older stores knew their addresses. */
  lemma {:induction false} HeadLoad(m: Machine, c: State, a: Arch)
    requires Inv(m, c, a) && HeadDone(c) && c.log[c.base].d.epoch == c.epoch && c.base !in c.killed
    requires KindAt(c.log, c.base).Load?
    ensures var e, k := c.log[c.base], KindAt(c.log, c.base);
            var addr := m.address(e.d.instr, a.regs[e.d.instr.rs1]);
            c.results[c.base] == LoadResult(a.mem, k.size, k.signed, addr, e.d.pc)
  {
    hide StreamInv, RenInv, QueueInv, StampInv, DirectInv, StoreTokens, ReadingInv, RequestInv, ArchInv,
         DestInv, IssueInv, ComputeInv, StoreValues, BufferInv, CsrInv, Extract, Read;
    HeadOperands(c, a);
    QueuePop(c.log, c.base, c.lsu);
    var e, s := c.log[c.base], c.lsu.loads[0];
    assert c.base !in c.iq && c.base in Out(c) && Out(c)[c.base] == c.results[c.base];
    assert LoadConsistent(m, e, s, c.regs, c.iq.Keys, Out(c));
    assert LoadToken(s, c.iq.Keys, Out(c));
    assert !Shadowed(c.log, c.epoch, c.killed, c.base);
    if s.addr.Some? {
      assert LoadFresh(e, s, c.lsu.wreq, c.lsu.rreq, c.lsu.pend, Out(c), a.mem);
    }
  }

  lemma {:induction false} HeadStore(m: Machine, c: State, a: Arch)
    requires Inv(m, c, a) && Shape(c) && HeadDone(c) && c.log[c.base].d.epoch == c.epoch
    requires KindAt(c.log, c.base).Store?
    ensures var e, k := c.log[c.base], KindAt(c.log, c.base);
            var addr := m.address(e.d.instr, a.regs[e.d.instr.rs1]);
            && c.results[c.base] == StoreResult(k.size, addr, e.d.pc)
            && (QueuesHoldHead(c) ==>
                  c.lsu.tags[0].StoreTag? && HeadBeat(c) == StoreBeat(k.size, addr, a.regs[e.d.instr.rs2]))
  {
    hide StreamInv, RenInv, QueueInv, StampInv, DirectInv, LoadTokens, ReadingInv, RequestInv, ArchInv,
         DestInv, IssueInv, ComputeInv, LoadValues, BufferInv, CsrInv, FreshInv, StoreBeat;
    HeadOperands(c, a);
    QueuePop(c.log, c.base, c.lsu);
    var e, s := c.log[c.base], c.lsu.stores[0];
    assert c.base !in c.iq && c.base in Out(c) && Out(c)[c.base] == c.results[c.base];
    assert StoreConsistent(m, e, s, c.regs, c.iq.Keys, Out(c));
  }

  lemma {:induction false} HeadOther(m: Machine, c: State, a: Arch)
    requires Inv(m, c, a) && HeadDone(c) && c.log[c.base].d.epoch == c.epoch
    ensures var e := c.log[c.base];
            var v1, v2 := a.regs[e.d.instr.rs1], a.regs[e.d.instr.rs2];
            match e.d.instr.kind
            case Compute => c.results[c.base] == m.exec(e.d.instr, e.d.pc, v1, v2) && c.csr == a.csr
            case Fault(cause) => c.results[c.base] == Error(cause, e.d.pc) && c.csr == a.csr
            case System => (c.results[c.base], c.csr) == m.system(e.d.instr, e.d.pc, v1, v2, a.csr)
            case _ => c.csr == a.csr
  {
    hide StreamInv, RenInv, QueueInv, StampInv, DirectInv, LoadTokens, StoreTokens, ReadingInv, RequestInv, ArchInv,
         DestInv, IssueInv, LoadValues, StoreValues, BufferInv, FreshInv, KilledInv;
    HeadOperands(c, a);
    assert c.base in Out(c) && Out(c)[c.base] == c.results[c.base];
    assert ComputeConsistent(m, c.log[c.base], c.regs, Out(c)[c.base]);
  }

  /** The sequential machine's next step is to retire the head's result. */
  lemma {:induction false} HeadStep(m: Machine, c: State, a: Arch)
    requires Inv(m, c, a) && Shape(c) && HeadDone(c) && QueuesHoldHead(c)
    requires c.log[c.base].d.epoch == c.epoch && c.base !in c.killed
    ensures MustCommit(c) ==> c.lsu.tags[0].StoreTag?
    ensures a.pc == c.log[c.base].d.pc
    ensures var b := a.(mem := MemoryAfter(c, a.mem), csr := c.csr);
            Step(m, a) == Retire(m, b, c.log[c.base].d.instr, c.results[c.base])
  {
    hide Inv, LoadResult, StoreBeat, Retire, HeadBeat, Write, LsuCommit;
    StreamHead(c);
    HeadIsNext(m, c, a);
    HeadOther(m, c, a);
    if KindAt(c.log, c.base).Load? {
      HeadLoad(m, c, a);
    } else if KindAt(c.log, c.base).Store? {
      HeadStore(m, c, a);
    }
  }

  lemma {:induction false} HeadIsNext(m: Machine, c: State, a: Arch)
    requires Inv(m, c, a) && c.base < |c.log| && c.log[c.base].d.epoch == c.epoch
    ensures a.pc == c.log[c.base].d.pc && c.log[c.base].d.instr == m.imem(a.pc)
  {
    hide RenInv, QueueInv, StampInv, DirectInv, TokenInv, LoadTokens, StoreTokens, ReadingInv, RequestInv, ArchInv,
         DestInv, IssueInv, ComputeInv, LoadValues, StoreValues, BufferInv, FreshInv, KilledInv, CsrInv, Chain;
    StreamHead(c);
    hide StreamInv;
    StreamPop(m, Stream(c), c.epoch, a.pc, c.front.pc);
    StreamDecoded(m, Stream(c), c.epoch, a.pc, c.front.pc);
  }

  lemma {:induction false} StreamDecoded(m: Machine, s: seq<Decoded>, epoch: nat, start: Addr, end: Addr)
    requires StreamInv(m, s, epoch, start, end) && s != []
    ensures s[0].instr == m.imem(s[0].pc)
  {
  }

  // ----- the rules

  ghost predicate Committed(c: State, keep: bool, aregs: seq<Word>, aregs': seq<Word>)
    requires c.base < |c.log| && c.base in c.results && |aregs| == R.ARCH_REGS
  {
    aregs' == if keep then SetReg(aregs, Dest(c.log[c.base].d.instr), ValueOf(c.results[c.base])) else aregs
  }

  /** The committed names follow the architectural registers. */
  lemma {:induction false} PopArch(c: State, aregs: seq<Word>, aregs': seq<Word>, keep: bool, flush: bool)
    requires c.base < |c.log| && c.base in c.results && |aregs| == R.ARCH_REGS && aregs[0] == ZERO
    requires RenInv(c.log, c.base, c.epoch, c.table, c.front.renamed)
    requires ArchInv(c.table.naming, c.table.busy, c.regs, aregs)
    requires DestInv(c.log, c.base, c.table.busy, c.regs, c.results)
    requires Committed(c, keep, aregs, aregs')
    ensures var t' := R.Commit(c.table, Dest(c.log[c.base].d.instr), c.log[c.base].pdst, keep, flush);
            ArchInv(t'.naming, t'.busy, c.regs, aregs') && t'.busy == c.table.busy
    ensures |aregs'| == R.ARCH_REGS && aregs'[0] == ZERO
  {
    hide Partition;
    assert c.log[c.base].pdst == 0 <==> Dest(c.log[c.base].d.instr) == 0;
    NamingZero(c);
    hide RenInv;
  }

  lemma {:induction false} TableShape(c: State)
    requires Shape(c)
    ensures R.Shape(c.table)
  {
  }

  lemma {:induction false} NamingZero(c: State)
    requires RenInv(c.log, c.base, c.epoch, c.table, c.front.renamed)
    ensures c.table.naming[0] == 0
  {
  }

  /** The head retires and the pipeline goes on. */
  lemma {:induction false} RetireKeeps(m: Machine, c: State, a: Arch, a': Arch, csr: Csr)
    requires Inv(m, c, a) && Shape(c) && HeadDone(c) && QueuesHoldHead(c)
    requires c.log[c.base].d.epoch == c.epoch && c.base !in c.killed && Committed(c, true, a.regs, a'.regs)
    requires MustCommit(c) ==> c.lsu.tags[0].StoreTag?
    requires a'.mem == MemoryAfter(c, a.mem) && a'.csr == csr && a'.pc == c.log[c.base].d.pred
    ensures Inv(m, DeqRob(DmemCommit(c).(csr := csr), true, None), a')
  {
    hide Shape, TokenInv, StreamInv, RenInv, QueueInv, StampInv, DirectInv, LoadTokens, StoreTokens, ReadingInv,
         RequestInv, ArchInv, DestInv, IssueInv, ComputeInv, LoadValues, StoreValues, BufferInv, FreshInv, KilledInv,
         DmemCommit, HeadBeat, MemoryAfter, R.Commit, Committed;
    PopGroups(m, c, a);
    PopPlain(m, c);
    PopMemory(m, c, a);
    PopArch(c, a.regs, a'.regs, true, false);
    RenRetire(c.log, c.base, c.epoch, c.table, c.front.renamed);
    PopTokens(c.log, c.base, c.iq, c.fu, c.results, c.direct);
    StreamHead(c);
    StreamPop(m, Stream(c), c.epoch, a.pc, c.front.pc);
    TableShape(c);
    var c' := DeqRob(DmemCommit(c).(csr := csr), true, None);
    assert Stream(c') == Stream(c)[1..];
    assert Out(c') == Out(c) - {c.base};
  }

  /** An instruction of the old epoch leaves; the architectural state stays. */
  lemma {:induction false} DiscardKeeps(m: Machine, c: State, a: Arch)
    requires Shape(c) && HeadDone(c) && QueuesHoldHead(c) && c.log[c.base].d.epoch != c.epoch
    requires Inv(m, c, a)
    ensures Inv(m, DoDiscard(c), a)
  {
    hide Shape, TokenInv, StreamInv, RenInv, QueueInv, StampInv, DirectInv, LoadTokens, StoreTokens, ReadingInv,
         RequestInv, ArchInv, DestInv, IssueInv, ComputeInv, LoadValues, StoreValues, BufferInv, FreshInv, KilledInv,
         DmemCommit, HeadBeat, R.Commit;
    PopGroups(m, c, a);
    PopPlain(m, c);
    PopMemory(m, c, a);
    PopArch(c, a.regs, a.regs, false, false);
    RenDiscard(c.log, c.base, c.epoch, c.table, c.front.renamed);
    PopTokens(c.log, c.base, c.iq, c.fu, c.results, c.direct);
    StreamHead(c);
    StreamPop(m, Stream(c), c.epoch, a.pc, c.front.pc);
    var c' := DoDiscard(c);
    assert Stream(c') == Stream(c)[1..];
    assert Out(c') == Out(c) - {c.base};
  }

  lemma {:induction false} PopStream(c: State, d: State, keep: bool, redirect: Option<Addr>)
    requires c.base < |c.log| && c.base !in c.fu && R.Shape(d.table)
    requires d.log == c.log && d.base == c.base && d.fu == c.fu && d.results == c.results
    requires d.front.queue == c.front.queue && d.front.renamed == c.front.renamed
    ensures var c' := DeqRob(d, keep, redirect);
            Stream(c) != [] && Stream(c') == Stream(c)[1..] && Out(c') == Out(c) - {c.base}
  {
    hide R.Commit, R.Shape;
    assert Headers(c.log, c.base)[1..] == Headers(c.log, c.base + 1);
  }

  /** What a restart leaves of the renaming, the stream and the registers. */
  lemma {:induction false} FlushFront(m: Machine, c: State, a: Arch, a': Arch, keep: bool)
    requires Inv(m, c, a) && Shape(c) && HeadDone(c)
    requires c.log[c.base].d.epoch == c.epoch && Committed(c, keep, a.regs, a'.regs)
    ensures R.Shape(c.table) && |a'.regs| == R.ARCH_REGS && a'.regs[0] == ZERO
    ensures var t' := R.Commit(c.table, Dest(c.log[c.base].d.instr), c.log[c.base].pdst, keep, true);
            && ArchInv(t'.naming, t'.busy, c.regs, a'.regs) && t'.busy == c.table.busy
            && RenInv(c.log, c.base + 1, c.epoch + 1, t', c.front.renamed)
    ensures Stream(c) != [] && StreamInv(m, Stream(c)[1..], c.epoch + 1, a'.pc, a'.pc)
    ensures IssueInv(c.log, c.base + 1, c.epoch + 1, c.table.busy, c.iq)
    ensures DestInv(c.log, c.base + 1, c.table.busy, c.regs, c.results - {c.base})
    ensures DirectInv(c.log, c.base + 1, c.results - {c.base}, c.direct)
    ensures forall id :: c.base <= id < |c.log| ==> c.log[id].d.epoch <= c.epoch
  {
    hide Shape, TokenInv, StreamInv, RenInv, QueueInv, StampInv, DirectInv, LoadTokens, StoreTokens, ReadingInv,
         RequestInv, ArchInv, DestInv, IssueInv, ComputeInv, LoadValues, StoreValues, BufferInv, FreshInv, KilledInv,
         CsrInv, R.Commit, Committed, Stream, Out, KindAt;
    TableShape(c);
    PopPlain(m, c);
    PopArch(c, a.regs, a'.regs, keep, true);
    HeadEpoch(m, c, a.pc);
    RenFlush(c.log, c.base, c.epoch, c.table, c.front.renamed, keep);
    PopTokens(c.log, c.base, c.iq, c.fu, c.results, c.direct);
    StreamHead(c);
    StreamFlush(m, Stream(c), c.epoch, a.pc, c.front.pc, a'.pc);
    FlushIssue(c);
  }

  /** The head leaves and the pipeline restarts at the architectural pc. */
  lemma {:induction false} FlushKeeps(m: Machine, c: State, a: Arch, a': Arch, keep: bool, csr: Csr)
    requires Inv(m, c, a) && Shape(c) && HeadDone(c) && QueuesHoldHead(c)
    requires c.log[c.base].d.epoch == c.epoch && Committed(c, keep, a.regs, a'.regs)
    requires MustCommit(c) ==> c.lsu.tags[0].StoreTag?
    requires a'.mem == MemoryAfter(c, a.mem) && a'.csr == csr
    ensures Inv(m, DeqRob(DmemCommit(c).(csr := csr), keep, Some(a'.pc)), a')
  {
    hide Shape, TokenInv, StreamInv, RenInv, QueueInv, StampInv, DirectInv, LoadTokens, StoreTokens, ReadingInv,
         RequestInv, ArchInv, DestInv, IssueInv, ComputeInv, LoadValues, StoreValues, BufferInv, FreshInv, KilledInv,
         DmemCommit, HeadBeat, MemoryAfter, R.Commit, Committed, Stream, Out, QueuesHoldHead, MustCommit, KindAt;
    PopGroups(m, c, a);
    FlushFront(m, c, a, a', keep);
    NotWaitingHead(c);
    var d := DmemCommit(c).(csr := csr);
    var c' := DeqRob(d, keep, Some(a'.pc));
    PopStream(c, d, keep, Some(a'.pc));
    QueueSlots(c.log, c.base + 1, d.lsu.loads, d.lsu.stores, d.lsu.tags);
    FlushGroups(m, c.log, c.base + 1, c.epoch, d.killed, d.lsu, c.regs, c.iq.Keys, Out(c'), a'.mem);
  }

  lemma {:induction false} NotWaitingHead(c: State)
    requires TokenInv(c.log, c.base, c.iq, c.fu, c.results) && c.base in c.results
    ensures c.base !in c.fu
  {
  }

  /** The sequential machine's state after a commit: unchanged when the head is marked
      to be executed again, one instruction further otherwise. */
  function ArchCommit(m: Machine, c: State, a: Arch): Arch
    requires Isa.Valid(a)
  {
    if c.base in c.killed then a else Step(m, a)
  }

  lemma {:induction false} CommitKeeps(m: Machine, c: State, a: Arch)
    requires Shape(c) && HeadDone(c) && QueuesHoldHead(c) && c.log[c.base].d.epoch == c.epoch
    requires Inv(m, c, a)
    ensures Inv(m, DoCommit(m, c), ArchCommit(m, c, a))
  {
    hide Inv, Shape, DmemCommit, HeadBeat, DeqRob;
    Facts(m, c, a);
    if c.base in c.killed {
      HeadIsNext(m, c, a);
      FlushKeeps(m, c, a, a, false, a.csr);
    } else {
      HeadStep(m, c, a);
      var a' := Step(m, a);
      hide Step;
      match c.results[c.base]
      case Ok(v, next, flush) =>
        var csr := if KindAt(c.log, c.base).System? then c.csr else m.retire(c.csr);
        if next != c.log[c.base].d.pred || flush {
          FlushKeeps(m, c, a, a', true, csr);
        } else {
          RetireKeeps(m, c, a, a', csr);
        }
      case Error(cause, tval) =>
        var (csr, pc) := m.trap(c.csr, a.pc, false, cause, tval);
        FlushKeeps(m, c, a, a', false, csr);
    }
  }

  lemma {:induction false} Facts(m: Machine, c: State, a: Arch)
    requires Inv(m, c, a) && Shape(c) && HeadDone(c) && QueuesHoldHead(c)
    ensures Isa.Valid(a) && (MustCommit(c) ==> c.lsu.tags[0].StoreTag?)
    ensures DmemCommit(c).csr == c.csr
    ensures c.base in c.killed ==> KindAt(c.log, c.base).Load? && c.csr == a.csr && MemoryAfter(c, a.mem) == a.mem
  {
    hide StreamInv, RenInv, QueueInv, StampInv, DirectInv, TokenInv, LoadTokens, StoreTokens, ReadingInv, RequestInv,
         ArchInv, DestInv, IssueInv, ComputeInv, LoadValues, StoreValues, BufferInv, FreshInv;
    DmemQueues(c);
  }

  lemma {:induction false} InterruptKeeps(m: Machine, c: State, a: Arch, cause: nat)
    requires Shape(c) && HeadDone(c) && c.log[c.base].d.epoch == c.epoch && KindAt(c.log, c.base).Compute?
    requires Inv(m, c, a)
    ensures Inv(m, DoInterrupt(m, c, cause), Isa.Interrupt(m, a, cause))
  {
    hide Inv, Shape, DeqRob;
    Facts(m, c, a);
    HeadIsNext(m, c, a);
    HeadOther(m, c, a);
    var (csr, pc) := m.trap(c.csr, a.pc, true, cause, 0);
    FlushKeeps(m, c, a, Isa.Interrupt(m, a, cause), false, csr);
  }
}
