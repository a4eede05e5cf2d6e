/** Dispatch keeps the simulation relation: the new instruction is fresh everywhere. */
module CoreDispatch {
  import opened Bits
  import opened Words
  import opened Wrappers
  import opened Isa
  import opened LsuSpec
  import opened Core
  import opened CoreInvariant
  import opened CoreRenaming
  import opened CoreQueues
  import opened CoreFrames
  import opened CoreExecute
  import R = RenamingSpec

  function NewEntry(c: State): Entry
    requires Shape(c) && c.front.renamed.Some? && |c.table.free| > 0
  {
    var r := c.front.renamed.value;
    Entry(r.d, R.Allocated(c.table, Dest(r.d.instr)), r.src1, r.src2)
  }

  /** The sources of the new instruction are committed names or destinations in flight. */
  lemma {:induction false} NewSources(c: State, arch: nat)
    requires RenInv(c.log, c.base, c.epoch, c.table, c.front.renamed) && arch < R.ARCH_REGS
    ensures var p := Lookup(c.log, c.base, |c.log|, c.table.naming, c.epoch, arch);
            p < R.PHYS_REGS && forall k :: 0 <= k < |c.table.free| ==> c.table.free[k] != p
  {
    RenDistinct(c.log, c.base, c.epoch, c.table, c.front.renamed);
    var w := LookupMeaning(c.log, c.base, |c.log|, c.table.naming, c.epoch, arch);
  }

  lemma {:induction false} OldSources(c: State, id: nat)
    requires RenInv(c.log, c.base, c.epoch, c.table, c.front.renamed)
    requires c.base <= id < |c.log| && c.log[id].d.epoch == c.epoch
    ensures forall k :: 0 <= k < |c.table.free| ==>
          c.table.free[k] != c.log[id].src1 && c.table.free[k] != c.log[id].src2
  {
    RenDistinct(c.log, c.base, c.epoch, c.table, c.front.renamed);
    hide Partition;
    assert Sources(c.log[id], c.log, c.base, id, c.table.naming, c.epoch);
    var w1 := LookupMeaning(c.log, c.base, id, c.table.naming, c.epoch, c.log[id].d.instr.rs1);
    var w2 := LookupMeaning(c.log, c.base, id, c.table.naming, c.epoch, c.log[id].d.instr.rs2);
  }

  lemma {:induction false} TokensGrow(log: seq<Entry>, base: nat, iq: map<nat, (bool, bool)>, fu: map<nat, Result>,
        results: map<nat, Result>, e: Entry, ready: (bool, bool), r: Result)
    requires TokenInv(log, base, iq, fu, results)
    ensures |log| !in iq && |log| !in fu && |log| !in results
    ensures TokenInv(log + [e], base, iq, fu, results)
    ensures e.d.instr.kind.Compute? || IsMemory(e.d.instr.kind) ==>
              TokenInv(log + [e], base, iq[|log| := ready], fu, results)
    ensures !e.d.instr.kind.System? ==> TokenInv(log + [e], base, iq, fu[|log| := r], results)
  {
  }

  lemma {:induction false} DispatchTokens(c: State)
    requires Shape(c) && c.front.renamed.Some? && |c.table.free| > 0
    requires TokenInv(c.log, c.base, c.iq, c.fu, c.results)
    ensures var c' := DoDispatch(c); TokenInv(c'.log, c'.base, c'.iq, c'.fu, c'.results)
    ensures IsMemory(NewEntry(c).d.instr.kind) ==> |c.log| in DoDispatch(c).iq
  {
    hide Shape, TokenInv, R.Allocate, R.Allocated, EnterLsu;
    var r := c.front.renamed.value;
    var k, ready := r.d.instr.kind, (r.src1 !in c.table.busy, r.src2 !in c.table.busy);
    TokensGrow(c.log, c.base, c.iq, c.fu, c.results, NewEntry(c), ready,
        if k.Fault? then Error(k.cause, r.d.pc) else Error(0, 0));
  }

  lemma {:induction false} FaultOut(iq: map<nat, (bool, bool)>, fu: map<nat, Result>, results: map<nat, Result>, x: nat,
        r: Result)
    requires x !in fu && x !in results
    ensures Agree(iq.Keys, fu + results, iq.Keys, fu[x := r] + results, x) && (fu[x := r] + results)[x] == r
  {
  }

  lemma {:induction false} SameOut(iq: map<nat, (bool, bool)>, fu: map<nat, Result>, results: map<nat, Result>, x: nat,
        ready: (bool, bool))
    requires x !in fu && x !in results
    ensures Agree(iq.Keys, fu + results, iq.Keys, fu + results, x) && x !in fu + results
    ensures Agree(iq.Keys, fu + results, iq[x := ready].Keys, fu + results, x)
  {
  }

  lemma {:induction false} DispatchOut(c: State)
    requires Shape(c) && c.front.renamed.Some? && |c.table.free| > 0
    requires TokenInv(c.log, c.base, c.iq, c.fu, c.results)
    ensures |c.log| !in c.results && |c.log| !in c.iq
    ensures var c' := DoDispatch(c);
            && Agree(c.iq.Keys, Out(c), c'.iq.Keys, Out(c'), |c.log|)
            && (|c.log| in Out(c') ==>
                  NewEntry(c).d.instr.kind.Fault?
                  && Out(c')[|c.log|] == Error(NewEntry(c).d.instr.kind.cause, NewEntry(c).d.pc))
  {
    assert |c.log| !in c.fu && |c.log| !in c.results && |c.log| !in c.iq;
    hide Shape, TokenInv, R.Allocate, R.Allocated, EnterLsu, Agree;
    var r := c.front.renamed.value;
    SameOut(c.iq, c.fu, c.results, |c.log|, (r.src1 !in c.table.busy, r.src2 !in c.table.busy));
    if r.d.instr.kind.Fault? {
      FaultOut(c.iq, c.fu, c.results, |c.log|, Error(r.d.instr.kind.cause, r.d.pc));
    }
  }

  lemma {:induction false} DispatchValues(m: Machine, c: State, a: Arch)
    requires Shape(c) && c.front.renamed.Some? && |c.table.free| > 0
    requires Unowned(c.log, c.base, c.table.naming, c.table.free[0]) && c.table.free[0] < R.PHYS_REGS
    requires |c.log| !in c.results
    requires ArchInv(c.table.naming, c.table.busy, c.regs, a.regs)
    requires DestInv(c.log, c.base, c.table.busy, c.regs, c.results)
    ensures var c' := DoDispatch(c);
            && ArchInv(c'.table.naming, c'.table.busy, c'.regs, a.regs)
            && DestInv(c'.log, c'.base, c'.table.busy, c'.regs, c'.results)
  {
    var t' := R.Allocate(c.table, Dest(c.front.renamed.value.d.instr));
    hide Shape;
    var log' := DoDispatch(c).log;
    assert t'.naming == c.table.naming && t'.busy <= c.table.busy + {c.table.free[0]} && c.table.busy <= t'.busy;
    assert log' == c.log + [NewEntry(c)];
    forall id | c.base <= id < |log'| && log'[id].pdst != 0
      ensures log'[id].pdst < R.PHYS_REGS && (log'[id].pdst in t'.busy <==> id !in c.results)
      ensures id in c.results ==> c.regs[log'[id].pdst] == ValueOf(c.results[id])
    {
      if id < |c.log| {
        assert log'[id] == c.log[id];
      }
    }
  }

  lemma {:induction false} DispatchIssue(c: State)
    requires Shape(c) && c.front.renamed.Some? && |c.table.free| > 0 && c.front.renamed.value.d.epoch == c.epoch
    requires RenInv(c.log, c.base, c.epoch, c.table, c.front.renamed)
    requires TokenInv(c.log, c.base, c.iq, c.fu, c.results)
    requires IssueInv(c.log, c.base, c.epoch, c.table.busy, c.iq)
    ensures var c' := DoDispatch(c); IssueInv(c'.log, c'.base, c'.epoch, c'.table.busy, c'.iq)
  {
    var c' := DoDispatch(c);
    var r := c.front.renamed.value;
    NewSources(c, r.d.instr.rs1);
    NewSources(c, r.d.instr.rs2);
    assert Sources(Entry(r.d, 0, r.src1, r.src2), c.log, c.base, |c.log|, c.table.naming, c.epoch);
    hide Shape, RenInv, Lookup;
    assert |c.log| !in c.iq;
    forall id | c.base <= id < |c'.log| && c'.log[id].d.epoch == c.epoch
      ensures SourcesReady(c'.log[id], id, c'.table.busy, c'.iq)
    {
      if id < |c.log| {
        OldSources(c, id);
        assert SourcesReady(c.log[id], id, c.table.busy, c.iq);
      }
    }
  }

  /** The groups that speak of queues, results and memory, for a longer log. */
  lemma {:induction false} LoadsGrow(m: Machine, log: seq<Entry>, e: Entry, epoch: nat, regs: seq<Word>,
        loads: seq<LoadSlot<nat>>, rreq: seq<(nat, Addr)>, waiting: set<nat>, out: map<nat, Result>,
        waiting': set<nat>, out': map<nat, Result>)
    requires Agree(waiting, out, waiting', out', |log|)
    requires e.d.instr.kind.Load? ==> |log| in waiting' && |log| !in out'
    requires forall k :: 0 <= k < |loads| ==> IsLoadAt(log, loads[k].entry)
    requires LoadTokens(loads, waiting, out) && RequestInv(loads, rreq)
    requires LoadValues(m, log, epoch, regs, loads, waiting, out)
    ensures var loads' := loads + if e.d.instr.kind.Load? then [LoadSlot(|log|, None, false)] else [];
            && LoadTokens(loads', waiting', out') && RequestInv(loads', rreq)
            && LoadValues(m, log + [e], epoch, regs, loads', waiting', out')
  {
    assert forall id :: 0 <= id < |log| ==> (log + [e])[id] == log[id];
  }

  lemma {:induction false} LogLoads(m: Machine, c: State, a: Arch)
    requires Shape(c) && c.front.renamed.Some? && |c.table.free| > 0
    requires Agree(c.iq.Keys, Out(c), DoDispatch(c).iq.Keys, Out(DoDispatch(c)), |c.log|)
    requires NewEntry(c).d.instr.kind.Load? ==> |c.log| in DoDispatch(c).iq && |c.log| !in Out(DoDispatch(c))
    requires forall k :: 0 <= k < |c.lsu.loads| ==> IsLoadAt(c.log, c.lsu.loads[k].entry)
    requires LoadTokens(c.lsu.loads, c.iq.Keys, Out(c))
    requires RequestInv(c.lsu.loads, c.lsu.rreq)
    requires LoadValues(m, c.log, c.epoch, c.regs, c.lsu.loads, c.iq.Keys, Out(c))
    ensures var c' := DoDispatch(c);
            && LoadTokens(c'.lsu.loads, c'.iq.Keys, Out(c'))
            && RequestInv(c'.lsu.loads, c'.lsu.rreq)
            && LoadValues(m, c'.log, c'.epoch, c'.regs, c'.lsu.loads, c'.iq.Keys, Out(c'))
  {
    hide Shape, Out, Agree, LoadTokens, RequestInv, LoadValues, R.Allocate, R.Allocated;
    var c' := DoDispatch(c);
    LoadsGrow(m, c.log, NewEntry(c), c.epoch, c.regs, c.lsu.loads, c.lsu.rreq, c.iq.Keys, Out(c), c'.iq.Keys, Out(c'));
    assert c'.lsu.loads
        == c.lsu.loads + if NewEntry(c).d.instr.kind.Load? then [LoadSlot(|c.log|, None, false)] else [];
  }

  lemma {:induction false} StoresGrow(m: Machine, log: seq<Entry>, e: Entry, epoch: nat, regs: seq<Word>,
        stores: seq<StoreSlot<nat>>, waiting: set<nat>, out: map<nat, Result>, waiting': set<nat>,
        out': map<nat, Result>)
    requires Agree(waiting, out, waiting', out', |log|)
    requires e.d.instr.kind.Store? ==> |log| in waiting' && |log| !in out'
    requires StampInv(log, stores) && StoreTokens(stores, waiting, out)
    requires StoreValues(m, log, epoch, regs, stores, waiting, out)
    ensures var slot: StoreSlot<nat> := StoreSlot(|log|, e.d.epoch % AGES, |log| % AGES, None, None, false);
            var stores' := stores + if e.d.instr.kind.Store? then [slot] else [];
            && StampInv(log + [e], stores') && StoreTokens(stores', waiting', out')
            && StoreValues(m, log + [e], epoch, regs, stores', waiting', out')
  {
    assert forall id :: 0 <= id < |log| ==> (log + [e])[id] == log[id];
  }

  lemma {:induction false} LogStores(m: Machine, c: State, a: Arch)
    requires Shape(c) && c.front.renamed.Some? && |c.table.free| > 0
    requires Agree(c.iq.Keys, Out(c), DoDispatch(c).iq.Keys, Out(DoDispatch(c)), |c.log|)
    requires NewEntry(c).d.instr.kind.Store? ==> |c.log| in DoDispatch(c).iq && |c.log| !in Out(DoDispatch(c))
    requires StampInv(c.log, c.lsu.stores)
    requires StoreTokens(c.lsu.stores, c.iq.Keys, Out(c))
    requires StoreValues(m, c.log, c.epoch, c.regs, c.lsu.stores, c.iq.Keys, Out(c))
    ensures var c' := DoDispatch(c);
            && StampInv(c'.log, c'.lsu.stores)
            && StoreTokens(c'.lsu.stores, c'.iq.Keys, Out(c'))
            && StoreValues(m, c'.log, c'.epoch, c'.regs, c'.lsu.stores, c'.iq.Keys, Out(c'))
  {
    hide Shape, Out, Agree, StampInv, StoreTokens, StoreValues, R.Allocate, R.Allocated;
    var c' := DoDispatch(c);
    StoresGrow(m, c.log, NewEntry(c), c.epoch, c.regs, c.lsu.stores, c.iq.Keys, Out(c), c'.iq.Keys, Out(c'));
    var d := NewEntry(c).d;
    var slot: StoreSlot<nat> := StoreSlot(|c.log|, d.epoch % AGES, |c.log| % AGES, None, None, false);
    assert c'.lsu.stores == c.lsu.stores + if d.instr.kind.Store? then [slot] else [];
  }

  lemma {:induction false} LogReading(c: State)
    requires Shape(c) && c.front.renamed.Some? && |c.table.free| > 0
    requires Agree(c.iq.Keys, Out(c), DoDispatch(c).iq.Keys, Out(DoDispatch(c)), |c.log|)
    requires forall k :: 0 <= k < |c.lsu.loads| ==> IsLoadAt(c.log, c.lsu.loads[k].entry)
    requires ReadingInv(c.lsu.loads, Reading(c.lsu.pend, c.lsu.rreq), Out(c))
    ensures var c' := DoDispatch(c); ReadingInv(c'.lsu.loads, Reading(c'.lsu.pend, c'.lsu.rreq), Out(c'))
  {
    hide Shape, Out;
    var c' := DoDispatch(c);
    var reading := Reading(c.lsu.pend, c.lsu.rreq);
    forall i | 0 <= i < |reading|
      ensures reading[i] !in Out(c') && ExecutedLoad(c'.lsu.loads, reading[i])
    {
      assert ExecutedLoad(c.lsu.loads, reading[i]);
      var k :| 0 <= k < |c.lsu.loads| && c.lsu.loads[k].entry == reading[i] && c.lsu.loads[k].executed;
      assert c'.lsu.loads[k] == c.lsu.loads[k];
    }
  }

  lemma {:induction false} LogFresh(m: Machine, c: State, a: Arch)
    requires Shape(c) && c.front.renamed.Some? && |c.table.free| > 0
    requires Agree(c.iq.Keys, Out(c), DoDispatch(c).iq.Keys, Out(DoDispatch(c)), |c.log|)
    requires forall k :: 0 <= k < |c.lsu.loads| ==> IsLoadAt(c.log, c.lsu.loads[k].entry)
    requires KilledInv(c.log, c.base, c.killed)
    requires FreshInv(c.log, c.epoch, c.killed, c.lsu.loads, c.lsu.wreq, c.lsu.rreq, c.lsu.pend, Out(c), a.mem)
    ensures var c' := DoDispatch(c);
            && KilledInv(c'.log, c'.base, c'.killed)
            && FreshInv(c'.log, c'.epoch, c'.killed, c'.lsu.loads, c'.lsu.wreq, c'.lsu.rreq, c'.lsu.pend, Out(c'),
                  a.mem)
  {
    hide Shape, Out;
    var c' := DoDispatch(c);
    assert forall id :: 0 <= id < |c.log| ==> c'.log[id] == c.log[id];
    var loads := c'.lsu.loads;
    forall k | 0 <= k < |loads| && IsLoadAt(c'.log, loads[k].entry) && loads[k].executed && loads[k].addr.Some? &&
               c'.log[loads[k].entry].d.epoch == c.epoch && !Shadowed(c'.log, c.epoch, c.killed, loads[k].entry)
      ensures LoadFresh(c'.log[loads[k].entry], loads[k], c.lsu.wreq, c.lsu.rreq, c.lsu.pend, Out(c'), a.mem)
    {
      assert c'.lsu.loads[k] == c.lsu.loads[k];
      assert LoadFresh(c.log[c.lsu.loads[k].entry], c.lsu.loads[k], c.lsu.wreq, c.lsu.rreq, c.lsu.pend, Out(c), a.mem);
    }
  }

  lemma {:induction false} LogCompute(m: Machine, c: State)
    requires Shape(c) && c.front.renamed.Some? && |c.table.free| > 0
    requires Agree(c.iq.Keys, Out(c), DoDispatch(c).iq.Keys, Out(DoDispatch(c)), |c.log|)
    requires |c.log| in Out(DoDispatch(c)) ==>
               NewEntry(c).d.instr.kind.Fault?
                     && Out(DoDispatch(c))[|c.log|] == Error(NewEntry(c).d.instr.kind.cause, NewEntry(c).d.pc)
    requires ComputeInv(m, c.log, c.base, c.epoch, c.regs, Out(c))
    ensures var c' := DoDispatch(c); ComputeInv(m, c'.log, c'.base, c'.epoch, c'.regs, Out(c'))
  {
    hide Shape, Out;
    var c' := DoDispatch(c);
    assert forall id :: 0 <= id < |c.log| ==> c'.log[id] == c.log[id];
  }

  lemma {:induction false} DispatchKeeps(m: Machine, c: State, a: Arch)
    requires Shape(c) && c.front.renamed.Some? && |c.table.free| > 0
    requires c.front.renamed.value.d.epoch == c.epoch && |c.log| - c.base < ROB_SIZE
    requires Inv(m, c, a)
    ensures Inv(m, DoDispatch(c), a)
  {
    hide Shape, TokenInv, StreamInv, RenInv, QueueInv, StampInv, DirectInv, LoadTokens, StoreTokens, ReadingInv,
         RequestInv, ArchInv, DestInv, IssueInv, ComputeInv, LoadValues, StoreValues, BufferInv, KilledInv, FreshInv,
         Agree, Out;
    var c' := DoDispatch(c);
    var r := c.front.renamed.value;
    assert Stream(c') == Stream(c);
    RenDispatch(c.log, c.base, c.epoch, c.table, r);
    QueueDispatch(c.log, c.base, c.lsu, NewEntry(c));
    QueueSlots(c.log, c.base, c.lsu.loads, c.lsu.stores, c.lsu.tags);
    DispatchTokens(c);
    DispatchOut(c);
    RenDistinct(c.log, c.base, c.epoch, c.table, c.front.renamed);
    DispatchValues(m, c, a);
    DispatchIssue(c);
    DirectDispatch(c.log, c.base, c.results, c.direct, NewEntry(c));
    LogLoads(m, c, a);
    LogStores(m, c, a);
    LogReading(c);
    LogFresh(m, c, a);
    LogCompute(m, c);
  }
}
