/** Fetch, rename, issue, the load/store pipeline and write-back keep the
    simulation relation with the architectural state unchanged. */
module CoreExecute {
  import opened Words
  import opened Wrappers
  import opened Isa
  import opened LsuSpec
  import opened Core
  import opened CoreInvariant
  import opened CoreStream
  import opened CoreRenaming
  import opened CoreQueues
  import opened CoreFrames
  import R = RenamingSpec

  lemma {:induction false} FetchKeeps(m: Machine, c: State, a: Arch, pred: Addr)
    requires Inv(m, c, a)
    ensures Inv(m, DoFetch(m, c, pred), a)
  {
    hide StreamInv, RenInv, QueueInv, StampInv, DirectInv, TokenInv, LoadTokens, StoreTokens, ReadingInv, RequestInv,
         ArchInv, DestInv, IssueInv, ComputeInv, LoadValues, StoreValues, BufferInv, KilledInv, FreshInv, CsrInv;
    var c' := DoFetch(m, c, pred);
    var d := c'.front.queue[|c.front.queue|];
    assert Stream(c') == Stream(c) + [d];
    StreamFetch(m, Stream(c), c.epoch, a.pc, d);
    assert Out(c') == Out(c);
  }

  lemma {:induction false} DropKeeps(m: Machine, c: State, a: Arch)
    requires Shape(c) && c.front.renamed.Some? && c.front.renamed.value.d.epoch != c.epoch
    requires Inv(m, c, a)
    ensures Inv(m, DoDrop(c), a)
  {
    hide StreamInv, QueueInv, StampInv, DirectInv, TokenInv, LoadTokens, StoreTokens, ReadingInv, RequestInv, ArchInv,
         DestInv, IssueInv, ComputeInv, LoadValues, StoreValues, BufferInv, KilledInv, FreshInv, CsrInv;
    var c' := DoDrop(c);
    var h, d := Headers(c.log, c.base), c.front.renamed.value.d;
    assert Stream(c) == h + [d] + c.front.queue;
    assert Stream(c') == h + c.front.queue;
    StreamDrop(m, h, d, c.front.queue, c.epoch, a.pc, c.front.pc);
    assert Out(c') == Out(c);
  }

  lemma {:induction false} RenameKeeps(m: Machine, c: State, a: Arch)
    requires Shape(c) && c.front.queue != [] && c.front.renamed.None?
    requires Inv(m, c, a)
    ensures Inv(m, DoRename(c), a)
  {
    hide StreamInv, RenInv, QueueInv, StampInv, DirectInv, TokenInv, LoadTokens, StoreTokens, ReadingInv, RequestInv,
         ArchInv, DestInv, IssueInv, ComputeInv, LoadValues, StoreValues, BufferInv, KilledInv, FreshInv, CsrInv;
    var c' := DoRename(c);
    assert Stream(c') == Stream(c);
    RenRename(c.log, c.base, c.epoch, c.table, c.front.renamed, c.front.queue[0]);
    assert Out(c') == Out(c);
  }

  // ----- the memory side

  lemma {:induction false} DrainKeeps(m: Machine, c: State, a: Arch)
    requires Shape(c) && |c.lsu.stb| > |c.lsu.wreq|
    requires Inv(m, c, a)
    ensures Inv(m, DoDrainStore(c), a)
  {
    hide StreamInv, RenInv, QueueInv, StampInv, DirectInv, TokenInv, LoadTokens, StoreTokens, ReadingInv, RequestInv,
         ArchInv, DestInv, IssueInv, ComputeInv, LoadValues, StoreValues, KilledInv, FreshInv, CsrInv, Drained;
    var c' := DoDrainStore(c);
    assert c'.lsu.stb[|c'.lsu.stb| - |c'.lsu.wreq|..] == c.lsu.stb[|c.lsu.stb| - |c.lsu.wreq|..];
    assert Out(c') == Out(c) && Stream(c') == Stream(c);
  }

  lemma {:induction false} FreshWrite(log: seq<Entry>, epoch: nat, killed: set<nat>, loads: seq<LoadSlot<nat>>,
        wreq: seq<Beat>, rreq: seq<(nat, Addr)>, pend: seq<(nat, Word)>, out: map<nat, Result>, amem: Memory)
    requires FreshInv(log, epoch, killed, loads, wreq, rreq, pend, out, amem) && wreq != []
    ensures FreshInv(log, epoch, killed, loads, wreq[1..], rreq, pend, out, amem)
  {
    assert forall word :: NotPending(wreq, word) ==> NotPending(wreq[1..], word);
  }

  lemma {:induction false} CacheWriteKeeps(m: Machine, c: State, a: Arch)
    requires Shape(c) && c.lsu.wreq != []
    requires Inv(m, c, a)
    ensures Inv(m, DoCacheWrite(c), a)
  {
    hide StreamInv, RenInv, QueueInv, StampInv, DirectInv, TokenInv, LoadTokens, StoreTokens, ReadingInv, RequestInv,
         ArchInv, DestInv, IssueInv, ComputeInv, LoadValues, StoreValues, KilledInv, FreshInv, CsrInv, Write;
    var c' := DoCacheWrite(c);
    assert c'.lsu.stb[|c'.lsu.stb| - |c'.lsu.wreq|..] == c.lsu.stb[|c.lsu.stb| - |c.lsu.wreq|..][1..];
    assert Out(c') == Out(c) && Stream(c') == Stream(c);
    FreshWrite(c.log, c.epoch, c.killed, c.lsu.loads, c.lsu.wreq, c.lsu.rreq, c.lsu.pend, Out(c), a.mem);
  }

  /** The cache answers the oldest request: no committed store of that word is still
      to be performed, so the word is that of the committed memory. */
  lemma {:induction false} FreshRead(log: seq<Entry>, epoch: nat, killed: set<nat>, loads: seq<LoadSlot<nat>>,
        mem: Memory, wreq: seq<Beat>, stb: seq<Beat>, rreq: seq<(nat, Addr)>, pend: seq<(nat, Word)>,
        out: map<nat, Result>, amem: Memory)
    requires FreshInv(log, epoch, killed, loads, wreq, rreq, pend, out, amem) && rreq != []
    requires RequestInv(loads, rreq) && BufferInv(mem, wreq, stb, amem)
    ensures FreshInv(log, epoch, killed, loads, wreq, rreq[1..], pend + [(rreq[0].0, Read(mem, rreq[0].1))], out, amem)
    ensures RequestInv(loads, rreq[1..])
  {
    var (id, addr) := rreq[0];
    var pend' := pend + [(id, Read(mem, addr))];
    forall k | 0 <= k < |loads| && IsLoadAt(log, loads[k].entry) && loads[k].executed && loads[k].addr.Some? &&
               log[loads[k].entry].d.epoch == epoch && !Shadowed(log, epoch, killed, loads[k].entry)
      ensures LoadFresh(log[loads[k].entry], loads[k], wreq, rreq[1..], pend', out, amem)
    {
      var word := WordOf(loads[k].addr.value);
      assert LoadFresh(log[loads[k].entry], loads[k], wreq, rreq, pend, out, amem);
      if loads[k].entry == id {
        assert NotPending(wreq, word) && addr == word;
        DrainedElsewhere(mem, wreq, word);
      }
    }
  }

  lemma {:induction false} CacheReadKeeps(m: Machine, c: State, a: Arch)
    requires Shape(c) && c.lsu.rreq != []
    requires Inv(m, c, a)
    ensures Inv(m, DoCacheRead(c), a)
  {
    hide Shape, StreamInv, RenInv, QueueInv, StampInv, DirectInv, TokenInv, LoadTokens, StoreTokens, ReadingInv,
         RequestInv, ArchInv, DestInv, IssueInv, ComputeInv, LoadValues, StoreValues, BufferInv, KilledInv, FreshInv,
         CsrInv, Read;
    var c' := DoCacheRead(c);
    assert Reading(c'.lsu.pend, c'.lsu.rreq) == Reading(c.lsu.pend, c.lsu.rreq);
    assert Out(c') == Out(c) && Stream(c') == Stream(c);
    FreshRead(c.log, c.epoch, c.killed, c.lsu.loads, c.lsu.mem, c.lsu.wreq, c.lsu.stb, c.lsu.rreq, c.lsu.pend, Out(c),
        a.mem);
  }

  // ----- loads

  ghost predicate Ordered(loads: seq<LoadSlot<nat>>) {
    forall j, k :: 0 <= j < k < |loads| ==> loads[j].entry < loads[k].entry
  }

  /** A load that did not execute has no request under way. */
  lemma {:induction false} NotReading(loads: seq<LoadSlot<nat>>, pend: seq<(nat, Word)>, rreq: seq<(nat, Addr)>,
        out: map<nat, Result>, k: nat)
    requires ReadingInv(loads, Reading(pend, rreq), out) && Ordered(loads) && k < |loads| && !loads[k].executed
    ensures loads[k].entry !in Reading(pend, rreq)
    ensures forall i :: 0 <= i < |rreq| ==> rreq[i].0 != loads[k].entry
    ensures forall i :: 0 <= i < |pend| ==> pend[i].0 != loads[k].entry
  {
    var reading := Reading(pend, rreq);
    forall i | 0 <= i < |reading|
      ensures reading[i] != loads[k].entry
    {
      assert ExecutedLoad(loads, reading[i]);
    }
    assert forall i :: 0 <= i < |rreq| ==> reading[|pend| + i] == rreq[i].0;
    assert forall i :: 0 <= i < |pend| ==> reading[i] == pend[i].0;
  }

  /** A slot changes but stays executed if it was. */
  lemma {:induction false} ReadingUpdate(loads: seq<LoadSlot<nat>>, reading: seq<nat>, out: map<nat, Result>, k: nat,
        s: LoadSlot<nat>)
    requires ReadingInv(loads, reading, out) && k < |loads| && s.entry == loads[k].entry
    requires loads[k].executed ==> s.executed
    ensures ReadingInv(loads[k := s], reading, out)
  {
    forall i | 0 <= i < |reading|
      ensures ExecutedLoad(loads[k := s], reading[i])
    {
      assert ExecutedLoad(loads, reading[i]);
      var j :| 0 <= j < |loads| && loads[j].entry == reading[i] && loads[j].executed;
      assert loads[k := s][j].entry == reading[i];
    }
  }

  /** A load leaves its issue queue with an address. */
  lemma {:induction false} LoadAddressed(m: Machine, log: seq<Entry>, epoch: nat, regs: seq<Word>, killed: set<nat>,
        l: Lsu, k: nat, addr: Addr, waiting: set<nat>, out: map<nat, Result>, amem: Memory)
    requires k < |l.loads| && Ordered(l.loads) && l.loads[k].entry in waiting && l.loads[k].entry !in out
    requires IsLoadAt(log, l.loads[k].entry) && addr == EntryAddress(m, log[l.loads[k].entry], regs)
    requires Aligned(KindAt(log, l.loads[k].entry).size, addr)
    requires LoadTokens(l.loads, waiting, out)
    requires ReadingInv(l.loads, Reading(l.pend, l.rreq), out)
    requires RequestInv(l.loads, l.rreq)
    requires LoadValues(m, log, epoch, regs, l.loads, waiting, out)
    requires FreshInv(log, epoch, killed, l.loads, l.wreq, l.rreq, l.pend, out, amem)
    ensures var loads' := l.loads[k := l.loads[k].(addr := Some(addr))];
            && LoadTokens(loads', waiting - {l.loads[k].entry}, out)
            && ReadingInv(loads', Reading(l.pend, l.rreq), out)
            && RequestInv(loads', l.rreq)
            && LoadValues(m, log, epoch, regs, loads', waiting - {l.loads[k].entry}, out)
            && FreshInv(log, epoch, killed, loads', l.wreq, l.rreq, l.pend, out, amem)
  {
    assert !l.loads[k].executed;
    ReadingUpdate(l.loads, Reading(l.pend, l.rreq), out, k, l.loads[k].(addr := Some(addr)));
    NotReading(l.loads, l.pend, l.rreq, out, k);
    hide ReadingInv, LoadFresh;
  }

  /** Leaving the issue queue: the ready flags were right, so the sources are written. */
  lemma {:induction false} Leaves(log: seq<Entry>, base: nat, epoch: nat, busy: set<nat>, iq: map<nat, (bool, bool)>,
        x: nat)
    requires IssueInv(log, base, epoch, busy, iq) && x in iq && iq[x].0 && iq[x].1
    ensures IssueInv(log, base, epoch, busy, iq - {x})
  {
  }

  /** An instruction outside the reorder buffer's results gets one. */
  lemma {:induction false} Computed(log: seq<Entry>, base: nat, iq: map<nat, (bool, bool)>, fu: map<nat, Result>,
        results: map<nat, Result>, x: nat, r: Result)
    requires TokenInv(log, base, iq, fu, results)
    requires base <= x < |log| && x !in results && !KindAt(log, x).System?
    ensures TokenInv(log, base, iq - {x}, fu[x := r], results)
    ensures fu[x := r] + results == (fu + results)[x := r]
    ensures (iq - {x}).Keys == iq.Keys - {x}
    ensures x !in iq ==> iq - {x} == iq
  {
  }

  lemma {:induction false} OperandValues(m: Machine, c: State, x: nat)
    requires Shape(c) && InFlight(c, x)
    ensures Result1(c, x) == Operand(c.regs, c.log[x].src1)
    ensures Result2(c, x) == Operand(c.regs, c.log[x].src2)
  {
  }

  lemma {:induction false} Waiting(c: State, x: nat)
    requires TokenInv(c.log, c.base, c.iq, c.fu, c.results) && x in c.iq
    ensures c.base <= x < |c.log| && x !in Out(c) && x !in c.results && x !in c.fu
    ensures KindAt(c.log, x).Compute? || IsMemory(KindAt(c.log, x))
  {
  }

  lemma {:induction false} TokenLeaves(c: State, x: nat)
    requires TokenInv(c.log, c.base, c.iq, c.fu, c.results)
    ensures TokenInv(c.log, c.base, c.iq - {x}, c.fu, c.results)
    ensures (c.iq - {x}).Keys == c.iq.Keys - {x}
  {
  }

  lemma {:induction false} ConnectedOut(m: Machine, c: State, k: nat)
    requires Shape(c) && k < |c.lsu.loads| && c.lsu.loads[k].entry !in c.results && InFlight(c, c.lsu.loads[k].entry)
    ensures var x := c.lsu.loads[k].entry;
            Out(DoConnectLoad(m, c, k)) ==
            if Aligned(KindAt(c.log, x).size, AddressOf(m, c, x)) then Out(c)
            else Out(c)[x := Error(LOAD_ADDRESS_MISALIGNED, AddressOf(m, c, x))]
  {
    hide Shape, AddressOf;
  }

  lemma {:induction false} ConnectLoadKeeps(m: Machine, c: State, a: Arch, k: nat)
    requires Shape(c) && k < |c.lsu.loads| && Ready(c, c.lsu.loads[k].entry)
    requires Inv(m, c, a)
    ensures Inv(m, DoConnectLoad(m, c, k), a)
  {
    hide Shape, TokenInv, StreamInv, RenInv, QueueInv, StampInv, DirectInv, LoadTokens, StoreTokens, ReadingInv,
         RequestInv, ArchInv, DestInv, IssueInv, ComputeInv, LoadValues, StoreValues, BufferInv, KilledInv, FreshInv,
         CsrInv;
    var c' := DoConnectLoad(m, c, k);
    var s := c.lsu.loads[k];
    var x := s.entry;
    Waiting(c, x);
    OperandValues(m, c, x);
    var addr := AddressOf(m, c, x);
    assert addr == EntryAddress(m, c.log[x], c.regs);
    QueueSlots(c.log, c.base, c.lsu.loads, c.lsu.stores, c.lsu.tags);
    Leaves(c.log, c.base, c.epoch, c.table.busy, c.iq, x);
    ConnectedOut(m, c, k);
    assert Stream(c') == Stream(c);
    hide Out, Stream;
    TokenLeaves(c, x);
    if Aligned(KindAt(c.log, x).size, addr) {
      LoadAddressed(m, c.log, c.epoch, c.regs, c.killed, c.lsu, k, addr, c.iq.Keys, Out(c), a.mem);
      QueueUpdateLoad(c.log, c.base, c.lsu.loads, c.lsu.stores, c.lsu.tags, k, s.(addr := Some(addr)));
    } else {
      Computed(c.log, c.base, c.iq, c.fu, c.results, x, Error(LOAD_ADDRESS_MISALIGNED, addr));
      LoadFails(m, c, a, k, addr);
      ComputeOther(m, c, x, Error(LOAD_ADDRESS_MISALIGNED, addr));
    }
    StoreFrame(m, c, c', x);
  }

  /** A result of a memory or system instruction says nothing of the others. */
  lemma {:induction false} ComputeOther(m: Machine, c: State, x: nat, r: Result)
    requires ComputeInv(m, c.log, c.base, c.epoch, c.regs, Out(c)) && x < |c.log|
    requires ComputeConsistent(m, c.log[x], c.regs, r)
    ensures ComputeInv(m, c.log, c.base, c.epoch, c.regs, Out(c)[x := r])
  {
    hide Out;
  }

  /** A misaligned load fails at once. */
  lemma {:induction false} LoadFails(m: Machine, c: State, a: Arch, k: nat, addr: Addr)
    requires k < |c.lsu.loads| && Ordered(c.lsu.loads) && c.lsu.loads[k].entry in c.iq
    requires c.lsu.loads[k].entry !in Out(c)
    requires IsLoadAt(c.log, c.lsu.loads[k].entry) && addr == EntryAddress(m, c.log[c.lsu.loads[k].entry], c.regs)
    requires !Aligned(KindAt(c.log, c.lsu.loads[k].entry).size, addr)
    requires LoadTokens(c.lsu.loads, c.iq.Keys, Out(c))
    requires ReadingInv(c.lsu.loads, Reading(c.lsu.pend, c.lsu.rreq), Out(c))
    requires LoadValues(m, c.log, c.epoch, c.regs, c.lsu.loads, c.iq.Keys, Out(c))
    requires FreshInv(c.log, c.epoch, c.killed, c.lsu.loads, c.lsu.wreq, c.lsu.rreq, c.lsu.pend, Out(c), a.mem)
    ensures var x := c.lsu.loads[k].entry;
            var out' := Out(c)[x := Error(LOAD_ADDRESS_MISALIGNED, addr)];
            && LoadTokens(c.lsu.loads, c.iq.Keys - {x}, out')
            && ReadingInv(c.lsu.loads, Reading(c.lsu.pend, c.lsu.rreq), out')
            && LoadValues(m, c.log, c.epoch, c.regs, c.lsu.loads, c.iq.Keys - {x}, out')
            && FreshInv(c.log, c.epoch, c.killed, c.lsu.loads, c.lsu.wreq, c.lsu.rreq, c.lsu.pend, out', a.mem)
  {
    NotReading(c.lsu.loads, c.lsu.pend, c.lsu.rreq, Out(c), k);
    hide Reading, Out;
  }

  /** A load is issued: nothing committed of its word is still to be performed. */
  lemma {:induction false} LoadIssued(m: Machine, log: seq<Entry>, epoch: nat, regs: seq<Word>, killed: set<nat>,
        l: Lsu, k: nat, waiting: set<nat>, out: map<nat, Result>, amem: Memory)
    requires k < |l.loads| && Ordered(l.loads) && l.loads[k].addr.Some? && !l.loads[k].executed
    requires NotPending(l.wreq, WordOf(l.loads[k].addr.value))
    requires LoadTokens(l.loads, waiting, out)
    requires ReadingInv(l.loads, Reading(l.pend, l.rreq), out)
    requires RequestInv(l.loads, l.rreq)
    requires LoadValues(m, log, epoch, regs, l.loads, waiting, out)
    requires FreshInv(log, epoch, killed, l.loads, l.wreq, l.rreq, l.pend, out, amem)
    ensures var s := l.loads[k];
            var loads' := l.loads[k := s.(executed := true)];
            var rreq' := l.rreq + [(s.entry, WordOf(s.addr.value))];
            && LoadTokens(loads', waiting, out)
            && ReadingInv(loads', Reading(l.pend, rreq'), out)
            && RequestInv(loads', rreq')
            && LoadValues(m, log, epoch, regs, loads', waiting, out)
            && FreshInv(log, epoch, killed, loads', l.wreq, rreq', l.pend, out, amem)
  {
    var s := l.loads[k];
    var loads' := l.loads[k := s.(executed := true)];
    var rreq' := l.rreq + [(s.entry, WordOf(s.addr.value))];
    assert s.entry !in out;
    NotReading(l.loads, l.pend, l.rreq, out, k);
    ReadingUpdate(l.loads, Reading(l.pend, l.rreq), out, k, s.(executed := true));
    assert Reading(l.pend, rreq') == Reading(l.pend, l.rreq) + [s.entry];
    assert ExecutedLoad(loads', s.entry) by {
      assert loads'[k].entry == s.entry && loads'[k].executed;
    }
    assert ReadingInv(loads', Reading(l.pend, rreq'), out);
    hide ReadingInv, Reading, NotPending;
    forall j | 0 <= j < |loads'| && IsLoadAt(log, loads'[j].entry) && loads'[j].executed && loads'[j].addr.Some? &&
               log[loads'[j].entry].d.epoch == epoch && !Shadowed(log, epoch, killed, loads'[j].entry)
      ensures LoadFresh(log[loads'[j].entry], loads'[j], l.wreq, rreq', l.pend, out, amem)
    {
      if j != k {
        assert LoadFresh(log[l.loads[j].entry], l.loads[j], l.wreq, l.rreq, l.pend, out, amem);
      }
    }
  }

  lemma {:induction false} IssueLoadKeeps(m: Machine, c: State, a: Arch, k: nat)
    requires Shape(c) && k < |c.lsu.loads| && c.lsu.loads[k].addr.Some? && !c.lsu.loads[k].executed && !Blocked(c, k)
    requires Inv(m, c, a)
    ensures Inv(m, DoIssueLoad(c, k), a)
  {
    hide StreamInv, RenInv, QueueInv, StampInv, DirectInv, TokenInv, LoadTokens, StoreTokens, ReadingInv, RequestInv,
         ArchInv, DestInv, IssueInv, ComputeInv, LoadValues, StoreValues, KilledInv, FreshInv, CsrInv, Drained;
    var c' := DoIssueLoad(c, k);
    var s := c.lsu.loads[k];
    QueueSlots(c.log, c.base, c.lsu.loads, c.lsu.stores, c.lsu.tags);
    QueueUpdateLoad(c.log, c.base, c.lsu.loads, c.lsu.stores, c.lsu.tags, k, s.(executed := true));
    assert Stream(c') == Stream(c) && Out(c') == Out(c);
    forall j | 0 <= j < |c.lsu.wreq|
      ensures c.lsu.wreq[j].addr != WordOf(s.addr.value)
    {
      assert c.lsu.stb[|c.lsu.stb| - |c.lsu.wreq| + j] == c.lsu.wreq[j];
    }
    LoadIssued(m, c.log, c.epoch, c.regs, c.killed, c.lsu, k, c.iq.Keys, Out(c), a.mem);
  }

  /** The word comes back: it is still that of the committed memory. */
  lemma {:induction false} LoadReturned(m: Machine, log: seq<Entry>, epoch: nat, regs: seq<Word>, killed: set<nat>,
        l: Lsu, k: nat, waiting: set<nat>, out: map<nat, Result>, amem: Memory)
    requires k < |l.loads| && Ordered(l.loads) && l.loads[k].addr.Some? && l.pend != []
    requires l.pend[0].0 == l.loads[k].entry
    requires IsLoadAt(log, l.loads[k].entry)
    requires LoadTokens(l.loads, waiting, out)
    requires ReadingInv(l.loads, Reading(l.pend, l.rreq), out)
    requires LoadValues(m, log, epoch, regs, l.loads, waiting, out)
    requires FreshInv(log, epoch, killed, l.loads, l.wreq, l.rreq, l.pend, out, amem)
    ensures var s := l.loads[k];
            var out' := out[s.entry := LoadValue(log[s.entry], s.addr.value, l.pend[0].1)];
            && s.executed && s.entry !in out && s.entry !in waiting
            && LoadTokens(l.loads, waiting, out')
            && ReadingInv(l.loads, Reading(l.pend[1..], l.rreq), out')
            && LoadValues(m, log, epoch, regs, l.loads, waiting, out')
            && FreshInv(log, epoch, killed, l.loads, l.wreq, l.rreq, l.pend[1..], out', amem)
  {
    var s := l.loads[k];
    var reading := Reading(l.pend, l.rreq);
    assert reading[0] == s.entry;
    assert ExecutedLoad(l.loads, reading[0]);
    assert s.executed && s.entry !in waiting && s.entry !in out;
    assert Reading(l.pend[1..], l.rreq) == reading[1..];
    var out' := out[s.entry := LoadValue(log[s.entry], s.addr.value, l.pend[0].1)];
    hide Reading;
    assert ReadingInv(l.loads, reading[1..], out');
    hide ReadingInv, NotPending, LoadValue, Read;
    forall j | 0 <= j < |l.loads| && IsLoadAt(log, l.loads[j].entry) && l.loads[j].executed && l.loads[j].addr.Some? &&
               log[l.loads[j].entry].d.epoch == epoch && !Shadowed(log, epoch, killed, l.loads[j].entry)
      ensures LoadFresh(log[l.loads[j].entry], l.loads[j], l.wreq, l.rreq, l.pend[1..], out', amem)
    {
      assert LoadFresh(log[l.loads[j].entry], l.loads[j], l.wreq, l.rreq, l.pend, out, amem);
    }
  }

  lemma {:induction false} LoadResponseKeeps(m: Machine, c: State, a: Arch, k: nat)
    requires Shape(c) && c.lsu.pend != [] && k < |c.lsu.loads|
    requires c.lsu.loads[k].entry == c.lsu.pend[0].0 && c.lsu.loads[k].addr.Some?
    requires Inv(m, c, a)
    ensures Inv(m, DoLoadResponse(c, k), a)
  {
    hide Shape, TokenInv, StreamInv, RenInv, QueueInv, StampInv, DirectInv, LoadTokens, StoreTokens, ReadingInv,
         RequestInv, ArchInv, DestInv, IssueInv, ComputeInv, LoadValues, StoreValues, BufferInv, KilledInv, FreshInv,
         CsrInv, Extract;
    var c' := DoLoadResponse(c, k);
    var s := c.lsu.loads[k];
    QueueSlots(c.log, c.base, c.lsu.loads, c.lsu.stores, c.lsu.tags);
    var r := LoadValue(c.log[s.entry], s.addr.value, c.lsu.pend[0].1);
    LoadReturned(m, c.log, c.epoch, c.regs, c.killed, c.lsu, k, c.iq.Keys, Out(c), a.mem);
    Computed(c.log, c.base, c.iq, c.fu, c.results, s.entry, r);
    assert Stream(c') == Stream(c) && Out(c') == Out(c)[s.entry := r];
    ComputeOther(m, c, s.entry, r);
    StoreFrame(m, c, c', s.entry);
  }

  // ----- stores

  /** A store leaves its issue queue with its address and data. */
  lemma {:induction false} StoreKnown(m: Machine, c: State, k: nat, x: nat, s: StoreSlot<nat>)
    requires Shape(c) && k < |c.lsu.stores| && x == c.lsu.stores[k].entry && x in c.iq && x !in Out(c)
    requires forall i, j :: 0 <= i < j < |c.lsu.stores| ==> c.lsu.stores[i].entry < c.lsu.stores[j].entry
    requires s == c.lsu.stores[k].(addr := Some(AddressOf(m, c, x)), data := Some(Result2(c, x)))
    requires StampInv(c.log, c.lsu.stores)
    requires StoreTokens(c.lsu.stores, c.iq.Keys, Out(c))
    requires StoreValues(m, c.log, c.epoch, c.regs, c.lsu.stores, c.iq.Keys, Out(c))
    ensures StampInv(c.log, c.lsu.stores[k := s])
    ensures StoreTokens(c.lsu.stores[k := s], c.iq.Keys - {x}, Out(c))
    ensures StoreValues(m, c.log, c.epoch, c.regs, c.lsu.stores[k := s], c.iq.Keys - {x}, Out(c))
  {
    hide Out;
  }

  lemma {:induction false} ConnectStoreKeeps(m: Machine, c: State, a: Arch, k: nat)
    requires Shape(c) && k < |c.lsu.stores| && Ready(c, c.lsu.stores[k].entry)
    requires Inv(m, c, a)
    ensures Inv(m, DoConnectStore(m, c, k), a)
  {
    hide Shape, TokenInv, StreamInv, RenInv, QueueInv, StampInv, DirectInv, LoadTokens, StoreTokens, ReadingInv,
         RequestInv, ArchInv, DestInv, IssueInv, ComputeInv, LoadValues, StoreValues, BufferInv, KilledInv, FreshInv,
         CsrInv;
    var c' := DoConnectStore(m, c, k);
    var x := c.lsu.stores[k].entry;
    QueueSlots(c.log, c.base, c.lsu.loads, c.lsu.stores, c.lsu.tags);
    QueueUpdateStore(c.log, c.base, c.lsu.loads, c.lsu.stores, c.lsu.tags, k, c'.lsu.stores[k]);
    Leaves(c.log, c.base, c.epoch, c.table.busy, c.iq, x);
    Waiting(c, x);
    TokenLeaves(c, x);
    assert Stream(c') == Stream(c) && Out(c') == Out(c) && c'.iq.Keys == c.iq.Keys - {x};
    StoreKnown(m, c, k, x, c'.lsu.stores[k]);
    LoadFrame(m, c, c', a, x);
  }

  /** A store reports its alignment as its result. */
  lemma {:induction false} StoreIssued(m: Machine, c: State, k: nat, x: nat)
    requires Shape(c) && k < |c.lsu.stores| && x == c.lsu.stores[k].entry && c.lsu.stores[k].addr.Some?
    requires !c.lsu.stores[k].issued
    requires forall i, j :: 0 <= i < j < |c.lsu.stores| ==> c.lsu.stores[i].entry < c.lsu.stores[j].entry
    requires StampInv(c.log, c.lsu.stores)
    requires StoreTokens(c.lsu.stores, c.iq.Keys, Out(c))
    requires StoreValues(m, c.log, c.epoch, c.regs, c.lsu.stores, c.iq.Keys, Out(c))
    ensures var s := c.lsu.stores[k].(issued := true);
            var out' := Out(c)[x := StoreResult(KindAt(c.log, x).size, s.addr.value, c.log[x].d.pc)];
            && x !in Out(c) && x !in c.iq
            && StampInv(c.log, c.lsu.stores[k := s])
            && StoreTokens(c.lsu.stores[k := s], c.iq.Keys, out')
            && StoreValues(m, c.log, c.epoch, c.regs, c.lsu.stores[k := s], c.iq.Keys, out')
  {
    hide Out;
    assert StoreToken(c.lsu.stores[k], c.iq.Keys, Out(c));
  }

  lemma {:induction false} IssueStoreKeeps(m: Machine, c: State, a: Arch, k: nat)
    requires Shape(c) && k < |c.lsu.stores| && c.lsu.stores[k].addr.Some? && !c.lsu.stores[k].issued
    requires Inv(m, c, a)
    ensures Inv(m, DoIssueStore(c, k), a)
  {
    hide Shape, TokenInv, StreamInv, RenInv, QueueInv, StampInv, DirectInv, LoadTokens, StoreTokens, ReadingInv,
         RequestInv, ArchInv, DestInv, IssueInv, ComputeInv, LoadValues, StoreValues, BufferInv, KilledInv, FreshInv,
         CsrInv, StoreResult;
    var c' := DoIssueStore(c, k);
    var x := c.lsu.stores[k].entry;
    QueueSlots(c.log, c.base, c.lsu.loads, c.lsu.stores, c.lsu.tags);
    QueueUpdateStore(c.log, c.base, c.lsu.loads, c.lsu.stores, c.lsu.tags, k, c'.lsu.stores[k]);
    StoreIssued(m, c, k, x);
    Computed(c.log, c.base, c.iq, c.fu, c.results, x, c'.fu[x]);
    assert Stream(c') == Stream(c) && Out(c') == Out(c)[x := c'.fu[x]];
    ComputeOther(m, c, x, c'.fu[x]);
    LoadFrame(m, c, c', a, x);
  }

  // ----- functional units and write-back

  lemma {:induction false} IssueKeeps(m: Machine, c: State, a: Arch, id: nat)
    requires Shape(c) && id in c.iq && Ready(c, id) && KindAt(c.log, id).Compute?
    requires Inv(m, c, a)
    ensures Inv(m, DoIssue(m, c, id), a)
  {
    hide Shape, TokenInv, StreamInv, RenInv, QueueInv, StampInv, DirectInv, LoadTokens, StoreTokens, ReadingInv,
         RequestInv, ArchInv, DestInv, IssueInv, ComputeInv, LoadValues, StoreValues, BufferInv, KilledInv, FreshInv,
         CsrInv;
    var c' := DoIssue(m, c, id);
    QueueSlots(c.log, c.base, c.lsu.loads, c.lsu.stores, c.lsu.tags);
    Leaves(c.log, c.base, c.epoch, c.table.busy, c.iq, id);
    Waiting(c, id);
    OperandValues(m, c, id);
    Computed(c.log, c.base, c.iq, c.fu, c.results, id, c'.fu[id]);
    assert Stream(c') == Stream(c) && Out(c') == Out(c)[id := c'.fu[id]] && c'.iq.Keys == c.iq.Keys - {id};
    ComputeOther(m, c, id, c'.fu[id]);
    LoadFrame(m, c, c', a, id);
    StoreFrame(m, c, c', id);
  }

  ghost predicate Completable(c: State, id: nat) {
    && c.base <= id < |c.log| && id !in c.results
    && DistinctDests(c.log, c.base)
    && (c.log[id].pdst != 0 ==> c.log[id].pdst < R.PHYS_REGS)
  }

  /** The destination was busy, so no committed register and no operand in use changes. */
  lemma {:induction false} CompleteValues(m: Machine, c: State, a: Arch, id: nat, r: Result)
    requires Shape(c) && Completable(c, id) && c.log[id].pdst < R.PHYS_REGS
    requires TokenInv(c.log, c.base, c.iq, c.fu, c.results)
    requires ArchInv(c.table.naming, c.table.busy, c.regs, a.regs)
    requires DestInv(c.log, c.base, c.table.busy, c.regs, c.results)
    requires IssueInv(c.log, c.base, c.epoch, c.table.busy, c.iq)
    ensures var c' := Complete(c, id, c.log[id].pdst, r);
            && ArchInv(c'.table.naming, c'.table.busy, c'.regs, a.regs)
            && DestInv(c'.log, c'.base, c'.table.busy, c'.regs, c'.results)
            && IssueInv(c'.log, c'.base, c'.epoch, c'.table.busy, c'.iq)
            && SameOperands(c.log, c.base, c.epoch, c.iq.Keys, c.regs, c'.regs)
            && c'.iq.Keys == c.iq.Keys
  {
    hide Shape, TokenInv, IssueInv, SameOperands;
    var c' := Complete(c, id, c.log[id].pdst, r);
    var p := c.log[id].pdst;
    assert c'.table.busy == c.table.busy - {p};
    assert forall j :: c.base <= j < |c.log| && j != id && c.log[j].pdst != 0 ==> c.log[j].pdst != p;
    InIssueQueue(c);
    WokenReady(c.log, c.base, c.epoch, c.table.busy, c.iq, p);
    OperandsKept(c.log, c.base, c.epoch, c.table.busy, c.iq, c.regs, c'.regs, p);
  }

  lemma {:induction false} InIssueQueue(c: State)
    requires TokenInv(c.log, c.base, c.iq, c.fu, c.results)
    ensures forall id :: id in c.iq ==> id < |c.log|
  {
  }

  /** Wake-up keeps the ready flags exact. */
  lemma {:induction false} WokenReady(log: seq<Entry>, base: nat, epoch: nat, busy: set<nat>,
        iq: map<nat, (bool, bool)>, p: nat)
    requires IssueInv(log, base, epoch, busy, iq) && 0 !in busy && forall id :: id in iq ==> id < |log|
    ensures IssueInv(log, base, epoch, busy - {p}, Woken(log, iq, p))
    ensures Woken(log, iq, p).Keys == iq.Keys
  {
  }

  lemma {:induction false} OperandsKept(log: seq<Entry>, base: nat, epoch: nat, busy: set<nat>,
        iq: map<nat, (bool, bool)>, regs: seq<Word>, regs': seq<Word>, p: nat)
    requires IssueInv(log, base, epoch, busy, iq) && |regs| == |regs'|
    requires (p == 0 && regs' == regs) || (p in busy && forall q :: 0 <= q < |regs| && q != p ==> regs'[q] == regs[q])
    ensures SameOperands(log, base, epoch, iq.Keys, regs, regs')
  {
  }

  lemma {:induction false} RenWake(log: seq<Entry>, base: nat, epoch: nat, t: R.Table, renamed: Option<Renamed>, p: nat)
    requires RenInv(log, base, epoch, t, renamed)
    ensures RenInv(log, base, epoch, R.Wakeup(t, p), renamed)
  {
    hide Partition;
    assert forall r :: 0 <= r < R.ARCH_REGS ==> R.NameOf(R.Wakeup(t, p), r) == R.NameOf(t, r);
  }

  lemma {:induction false} RenDistinct(log: seq<Entry>, base: nat, epoch: nat, t: R.Table, renamed: Option<Renamed>)
    requires RenInv(log, base, epoch, t, renamed)
    ensures DistinctDests(log, base) && NotNamed(log, base, t.naming)
    ensures forall k :: 0 <= k < |t.free| ==> Unowned(log, base, t.naming, t.free[k]) && t.free[k] < R.PHYS_REGS
    ensures forall r :: 0 <= r < |t.naming| ==> t.naming[r] < R.PHYS_REGS
    ensures forall id :: base <= id < |log| ==> log[id].pdst < R.PHYS_REGS
  {
    PartitionDistinct(log, base, t.naming, t.free);
  }

  lemma {:induction false} OutMoves(fu: map<nat, Result>, results: map<nat, Result>, id: nat)
    requires id in fu && forall x :: x in fu ==> x !in results
    ensures (fu - {id}) + results[id := fu[id]] == fu + results
  {
  }

  /** The result moves to the reorder buffer: the same results are computed. */
  lemma {:induction false} WriteBackTokens(c: State, id: nat)
    requires Shape(c) && TokenInv(c.log, c.base, c.iq, c.fu, c.results) && id in c.fu && |c.log| <= c.base + ROB_SIZE
    ensures SlotNumber(c.base, id) == id
    ensures c.base <= id < |c.log| && id !in c.results && c.log[id].pdst < R.PHYS_REGS && !KindAt(c.log, id).System?
    ensures var c0 := c.(fu := c.fu - {id}); Shape(c0) && TokenInv(c0.log, c0.base, c0.iq, c0.fu, c0.results)
    ensures (c.fu - {id}) + c.results[id := c.fu[id]] == Out(c)
  {
    OutMoves(c.fu, c.results, id);
  }

  lemma {:induction false} CompleteTokens(c: State, id: nat, r: Result)
    requires Shape(c) && TokenInv(c.log, c.base, c.iq, c.fu, c.results)
    requires InFlight(c, id) && c.log[id].pdst < R.PHYS_REGS && id !in c.iq && id !in c.fu
    requires KindAt(c.log, id).System? ==> id == c.base
    ensures var c' := Complete(c, id, c.log[id].pdst, r);
            TokenInv(c'.log, c'.base, c'.iq, c'.fu, c'.results) && Out(c') == c.fu + c.results[id := r]
  {
  }

  lemma {:induction false} WriteBackKeeps(m: Machine, c: State, a: Arch, id: nat)
    requires Shape(c) && id in c.fu
    requires Inv(m, c, a)
    ensures Inv(m, DoWriteBack(c, id), a)
  {
    hide Shape, TokenInv, StreamInv, RenInv, QueueInv, StampInv, DirectInv, LoadTokens, StoreTokens, ReadingInv,
         RequestInv, ArchInv, DestInv, IssueInv, ComputeInv, LoadValues, StoreValues, BufferInv, KilledInv, FreshInv;
    WriteBackTokens(c, id);
    DirectWrite(c.log, c.base, c.results, c.direct, id, c.fu[id]);
    var c0 := c.(fu := c.fu - {id});
    NotWaiting(c, id);
    CompleteTokens(c0, id, c.fu[id]);
    var c' := DoWriteBack(c, id);
    assert c' == Complete(c0, id, c.log[id].pdst, c.fu[id]);
    RenDistinct(c.log, c.base, c.epoch, c.table, c.front.renamed);
    CompleteValues(m, c0, a, id, c.fu[id]);
    RenWake(c.log, c.base, c.epoch, c.table, c.front.renamed, c.log[id].pdst);
    QueueSlots(c.log, c.base, c.lsu.loads, c.lsu.stores, c.lsu.tags);
    RegsFrame(m, c, c'.regs);
    assert Stream(c') == Stream(c);
  }

  lemma {:induction false} NotWaiting(c: State, id: nat)
    requires TokenInv(c.log, c.base, c.iq, c.fu, c.results)
    ensures id in c.fu ==> id !in c.iq
    ensures c.base < |c.log| && KindAt(c.log, c.base).System? ==> c.base !in c.iq && c.base !in c.fu
  {
  }

  lemma {:induction false} ResultWritten(fu: map<nat, Result>, results: map<nat, Result>, x: nat, r: Result)
    ensures fu + results[x := r] == (fu + results)[x := r]
  {
  }

  /** A system instruction computes and writes its result in one step. */
  lemma {:induction false} ExecTokens(c: State, r: Result)
    requires Shape(c) && TokenInv(c.log, c.base, c.iq, c.fu, c.results)
    requires c.base < |c.log| && KindAt(c.log, c.base).System? && c.base !in c.results
    requires c.log[c.base].pdst < R.PHYS_REGS
    ensures var mid := c.(results := c.results[c.base := r]);
            TokenInv(mid.log, mid.base, mid.iq, mid.fu, mid.results) && Out(mid) == Out(c)[c.base := r]
  {
    hide Shape;
    ResultWritten(c.fu, c.results, c.base, r);
  }

  /** The operands of the oldest instruction are the architectural values. */
  lemma {:induction false} HeadOperands(c: State, a: Arch)
    requires RenInv(c.log, c.base, c.epoch, c.table, c.front.renamed) && Isa.Valid(a)
    requires ArchInv(c.table.naming, c.table.busy, c.regs, a.regs)
    requires c.base < |c.log| && c.log[c.base].d.epoch == c.epoch
    ensures var e := c.log[c.base];
            && Operand(c.regs, e.src1) == a.regs[e.d.instr.rs1]
            && Operand(c.regs, e.src2) == a.regs[e.d.instr.rs2]
  {
    hide Partition;
    assert Sources(c.log[c.base], c.log, c.base, c.base, c.table.naming, c.epoch);
  }

  /** What `execute_direct` computes at the head of the current epoch. */
  lemma {:induction false} ExecCurrent(m: Machine, c: State, a: Arch, r: Result)
    requires Shape(c) && Enabled(m, c, ExecDirect(r)) && KindAt(c.log, c.base).System? && Isa.Valid(a)
    requires c.log[c.base].d.epoch == c.epoch && c.csr == a.csr
    requires Result1(c, c.base) == a.regs[c.log[c.base].d.instr.rs1]
    requires Result2(c, c.base) == a.regs[c.log[c.base].d.instr.rs2]
    requires c.direct != [] && c.direct[0] == (c.log[c.base].src1, c.log[c.base].src2)
    ensures var i := c.log[c.base].d.instr;
            (r, DoExecDirect(m, c, r).csr) ==
            m.system(i, c.log[c.base].d.pc, a.regs[i.rs1], a.regs[i.rs2], a.csr)
  {
    hide Shape, Complete;
  }

  lemma {:induction false} ExecCsr(m: Machine, c: State, a: Arch, r: Result)
    requires Shape(c) && Enabled(m, c, ExecDirect(r)) && KindAt(c.log, c.base).System? && Isa.Valid(a)
    requires DirectInv(c.log, c.base, c.results, c.direct)
    requires RenInv(c.log, c.base, c.epoch, c.table, c.front.renamed)
    requires ArchInv(c.table.naming, c.table.busy, c.regs, a.regs)
    requires CsrInv(m, c.log, c.base, c.epoch, c.results, c.csr, a)
    requires StreamInv(m, Stream(c), c.epoch, a.pc, c.front.pc)
    ensures var c' := DoExecDirect(m, c, r); CsrInv(m, c.log, c.base, c.epoch, c'.results, c'.csr, a)
  {
    hide Executed, Operand, RenInv, ArchInv, StreamInv, Shape, DirectInv;
    DirectWrite(c.log, c.base, c.results, c.direct, c.base, r);
    if c.log[c.base].d.epoch == c.epoch {
      HeadOperands(c, a);
      OperandValues(m, c, c.base);
      ExecCurrent(m, c, a, r);
    }
  }

  /** The groups that speak of results, once the head's is written. */
  lemma {:induction false} ExecGroups(m: Machine, c: State, a: Arch, r: Result, regs': seq<Word>)
    requires Shape(c) && c.base < |c.log| && KindAt(c.log, c.base).System? && c.base !in c.results
    requires c.log[c.base].pdst < R.PHYS_REGS
    requires SameOperands(c.log, c.base, c.epoch, c.iq.Keys, c.regs, regs')
    requires Inv(m, c, a)
    ensures var out' := Out(c)[c.base := r];
            && LoadTokens(c.lsu.loads, c.iq.Keys, out')
            && StoreTokens(c.lsu.stores, c.iq.Keys, out')
            && ReadingInv(c.lsu.loads, Reading(c.lsu.pend, c.lsu.rreq), out')
            && ComputeInv(m, c.log, c.base, c.epoch, regs', out')
            && LoadValues(m, c.log, c.epoch, regs', c.lsu.loads, c.iq.Keys, out')
            && StoreValues(m, c.log, c.epoch, regs', c.lsu.stores, c.iq.Keys, out')
            && FreshInv(c.log, c.epoch, c.killed, c.lsu.loads, c.lsu.wreq, c.lsu.rreq, c.lsu.pend, out', a.mem)
  {
    hide Shape, TokenInv, StreamInv, RenInv, QueueInv, StampInv, DirectInv, LoadTokens, StoreTokens, ReadingInv,
         RequestInv, ArchInv, DestInv, IssueInv, ComputeInv, LoadValues, StoreValues, BufferInv, KilledInv, FreshInv,
         CsrInv, SameOperands;
    ExecTokens(c, r);
    QueueSlots(c.log, c.base, c.lsu.loads, c.lsu.stores, c.lsu.tags);
    var mid := c.(results := c.results[c.base := r]);
    ComputeOther(m, c, c.base, r);
    LoadFrame(m, c, mid, a, c.base);
    StoreFrame(m, c, mid, c.base);
    RegsFrame(m, mid, regs');
  }

  lemma {:induction false} ExecDirectKeeps(m: Machine, c: State, a: Arch, r: Result)
    requires Inv(m, c, a) && Shape(c) && Enabled(m, c, ExecDirect(r)) && KindAt(c.log, c.base).System?
    ensures Inv(m, DoExecDirect(m, c, r), a)
  {
    hide Shape, TokenInv, StreamInv, RenInv, QueueInv, StampInv, DirectInv, LoadTokens, StoreTokens, ReadingInv,
         RequestInv, ArchInv, DestInv, IssueInv, ComputeInv, LoadValues, StoreValues, BufferInv, KilledInv, FreshInv,
         CsrInv, SameOperands;
    NotWaiting(c, c.base);
    RenDistinct(c.log, c.base, c.epoch, c.table, c.front.renamed);
    CompleteTokens(c, c.base, r);
    CompleteValues(m, c, a, c.base, r);
    RenWake(c.log, c.base, c.epoch, c.table, c.front.renamed, c.log[c.base].pdst);
    ExecGroups(m, c, a, r, Complete(c, c.base, c.log[c.base].pdst, r).regs);
    ExecCsr(m, c, a, r);
    DirectWrite(c.log, c.base, c.results, c.direct, c.base, r);
    var c' := DoExecDirect(m, c, r);
    assert Stream(c') == Stream(c);
    assert Out(c') == c.fu + c.results[c.base := r] == Out(c)[c.base := r];
  }
}
