/** What the groups of the invariant do not depend on. */
module CoreFrames {
  import opened Words
  import opened Isa
  import opened LsuSpec
  import opened Core
  import opened CoreInvariant
  import R = RenamingSpec

  /** Two token states that differ for instruction `x` only. */
  ghost predicate Agree(waiting: set<nat>, out: map<nat, Result>, waiting': set<nat>, out': map<nat, Result>, x: nat) {
    forall id :: id != x ==>
      && (id in waiting <==> id in waiting')
      && (id in out <==> id in out')
      && (id in out ==> out[id] == out'[id])
  }

  ghost predicate NoLoad(loads: seq<LoadSlot<nat>>, x: nat) {
    forall k :: 0 <= k < |loads| ==> loads[k].entry != x
  }

  ghost predicate NoStore(stores: seq<StoreSlot<nat>>, x: nat) {
    forall k :: 0 <= k < |stores| ==> stores[k].entry != x
  }

  lemma {:induction false} ReadingFrame(loads: seq<LoadSlot<nat>>, reading: seq<nat>, out: map<nat, Result>,
                     waiting: set<nat>, waiting': set<nat>, out': map<nat, Result>, x: nat)
    requires ReadingInv(loads, reading, out) && NoLoad(loads, x) && Agree(waiting, out, waiting', out', x)
    ensures ReadingInv(loads, reading, out')
  {
  }

  lemma {:induction false} FreshFrame(log: seq<Entry>, epoch: nat, killed: set<nat>, loads: seq<LoadSlot<nat>>,
        wreq: seq<Beat>, rreq: seq<(nat, Addr)>, pend: seq<(nat, Word)>, amem: Memory, waiting: set<nat>,
        out: map<nat, Result>, waiting': set<nat>, out': map<nat, Result>, x: nat)
    requires FreshInv(log, epoch, killed, loads, wreq, rreq, pend, out, amem)
    requires NoLoad(loads, x) && Agree(waiting, out, waiting', out', x)
    ensures FreshInv(log, epoch, killed, loads, wreq, rreq, pend, out', amem)
  {
  }

  /** An instruction that is not a load gets a result. */
  lemma {:induction false} LoadFrame(m: Machine, c: State, c': State, a: Arch, x: nat)
    requires c'.log == c.log && c'.epoch == c.epoch && c'.regs == c.regs && c'.killed == c.killed
    requires c'.lsu.loads == c.lsu.loads && c'.lsu.wreq == c.lsu.wreq && c'.lsu.rreq == c.lsu.rreq
    requires c'.lsu.pend == c.lsu.pend
    requires Agree(c.iq.Keys, Out(c), c'.iq.Keys, Out(c'), x) && NoLoad(c.lsu.loads, x)
    requires LoadTokens(c.lsu.loads, c.iq.Keys, Out(c))
    requires ReadingInv(c.lsu.loads, Reading(c.lsu.pend, c.lsu.rreq), Out(c))
    requires LoadValues(m, c.log, c.epoch, c.regs, c.lsu.loads, c.iq.Keys, Out(c))
    requires FreshInv(c.log, c.epoch, c.killed, c.lsu.loads, c.lsu.wreq, c.lsu.rreq, c.lsu.pend, Out(c), a.mem)
    ensures LoadTokens(c.lsu.loads, c'.iq.Keys, Out(c'))
    ensures ReadingInv(c.lsu.loads, Reading(c.lsu.pend, c.lsu.rreq), Out(c'))
    ensures LoadValues(m, c.log, c.epoch, c.regs, c.lsu.loads, c'.iq.Keys, Out(c'))
    ensures FreshInv(c.log, c.epoch, c.killed, c.lsu.loads, c.lsu.wreq, c.lsu.rreq, c.lsu.pend, Out(c'), a.mem)
  {
    hide ReadingInv, FreshInv, Out;
    ReadingFrame(c.lsu.loads, Reading(c.lsu.pend, c.lsu.rreq), Out(c), c.iq.Keys, c'.iq.Keys, Out(c'), x);
    FreshFrame(c.log, c.epoch, c.killed, c.lsu.loads, c.lsu.wreq, c.lsu.rreq, c.lsu.pend, a.mem,
               c.iq.Keys, Out(c), c'.iq.Keys, Out(c'), x);
  }

  /** An instruction that is not a store gets a result. */
  lemma {:induction false} StoreFrame(m: Machine, c: State, c': State, x: nat)
    requires c'.log == c.log && c'.epoch == c.epoch && c'.regs == c.regs && c'.lsu.stores == c.lsu.stores
    requires Agree(c.iq.Keys, Out(c), c'.iq.Keys, Out(c'), x) && NoStore(c.lsu.stores, x)
    requires StoreTokens(c.lsu.stores, c.iq.Keys, Out(c))
    requires StoreValues(m, c.log, c.epoch, c.regs, c.lsu.stores, c.iq.Keys, Out(c))
    ensures StoreTokens(c.lsu.stores, c'.iq.Keys, Out(c'))
    ensures StoreValues(m, c.log, c.epoch, c.regs, c.lsu.stores, c'.iq.Keys, Out(c'))
  {
    hide Out;
  }

  // ----- a register is written

  /** Instructions of this epoch past the issue queue read the same operands. */
  ghost predicate SameOperands(log: seq<Entry>, base: nat, epoch: nat, waiting: set<nat>, regs: seq<Word>,
        regs': seq<Word>) {
    forall id :: base <= id < |log| && log[id].d.epoch == epoch && id !in waiting &&
                 (KindAt(log, id).Compute? || IsMemory(KindAt(log, id))) ==>
      Operand(regs', log[id].src1) == Operand(regs, log[id].src1)
            && Operand(regs', log[id].src2) == Operand(regs, log[id].src2)
  }

  lemma {:induction false} RegsFrame(m: Machine, c: State, regs': seq<Word>)
    requires SameOperands(c.log, c.base, c.epoch, c.iq.Keys, c.regs, regs')
    requires TokenInv(c.log, c.base, c.iq, c.fu, c.results)
    requires ComputeInv(m, c.log, c.base, c.epoch, c.regs, Out(c))
    requires forall k :: 0 <= k < |c.lsu.loads| ==>
          c.base <= c.lsu.loads[k].entry && IsLoadAt(c.log, c.lsu.loads[k].entry)
    requires forall k :: 0 <= k < |c.lsu.stores| ==>
          c.base <= c.lsu.stores[k].entry && IsStoreAt(c.log, c.lsu.stores[k].entry)
    requires LoadValues(m, c.log, c.epoch, c.regs, c.lsu.loads, c.iq.Keys, Out(c))
    requires StoreValues(m, c.log, c.epoch, c.regs, c.lsu.stores, c.iq.Keys, Out(c))
    ensures ComputeInv(m, c.log, c.base, c.epoch, regs', Out(c))
    ensures LoadValues(m, c.log, c.epoch, regs', c.lsu.loads, c.iq.Keys, Out(c))
    ensures StoreValues(m, c.log, c.epoch, regs', c.lsu.stores, c.iq.Keys, Out(c))
  {
    assert forall id :: id in Out(c) ==> id !in c.iq;
    hide TokenInv, Out;
    ComputeRegs(m, c, regs', Out(c));
    LoadRegs(m, c, regs', Out(c));
    StoreRegs(m, c, regs', Out(c));
  }

  lemma {:induction false} ComputeRegs(m: Machine, c: State, regs': seq<Word>, out: map<nat, Result>)
    requires SameOperands(c.log, c.base, c.epoch, c.iq.Keys, c.regs, regs')
    requires forall id :: id in out ==> id !in c.iq
    requires ComputeInv(m, c.log, c.base, c.epoch, c.regs, out)
    ensures ComputeInv(m, c.log, c.base, c.epoch, regs', out)
  {
  }

  lemma {:induction false} LoadRegs(m: Machine, c: State, regs': seq<Word>, out: map<nat, Result>)
    requires SameOperands(c.log, c.base, c.epoch, c.iq.Keys, c.regs, regs')
    requires forall k :: 0 <= k < |c.lsu.loads| ==>
          c.base <= c.lsu.loads[k].entry && IsLoadAt(c.log, c.lsu.loads[k].entry)
    requires LoadValues(m, c.log, c.epoch, c.regs, c.lsu.loads, c.iq.Keys, out)
    ensures LoadValues(m, c.log, c.epoch, regs', c.lsu.loads, c.iq.Keys, out)
  {
    hide Operand;
    forall k | 0 <= k < |c.lsu.loads| && c.log[c.lsu.loads[k].entry].d.epoch == c.epoch
      ensures LoadConsistent(m, c.log[c.lsu.loads[k].entry], c.lsu.loads[k], regs', c.iq.Keys, out)
    {
      assert LoadConsistent(m, c.log[c.lsu.loads[k].entry], c.lsu.loads[k], c.regs, c.iq.Keys, out);
    }
  }

  lemma {:induction false} StoreRegs(m: Machine, c: State, regs': seq<Word>, out: map<nat, Result>)
    requires SameOperands(c.log, c.base, c.epoch, c.iq.Keys, c.regs, regs')
    requires forall k :: 0 <= k < |c.lsu.stores| ==>
          c.base <= c.lsu.stores[k].entry && IsStoreAt(c.log, c.lsu.stores[k].entry)
    requires StoreValues(m, c.log, c.epoch, c.regs, c.lsu.stores, c.iq.Keys, out)
    ensures StoreValues(m, c.log, c.epoch, regs', c.lsu.stores, c.iq.Keys, out)
  {
    hide Operand;
    forall k | 0 <= k < |c.lsu.stores| && c.log[c.lsu.stores[k].entry].d.epoch == c.epoch
      ensures StoreConsistent(m, c.log[c.lsu.stores[k].entry], c.lsu.stores[k], regs', c.iq.Keys, out)
    {
      assert StoreConsistent(m, c.log[c.lsu.stores[k].entry], c.lsu.stores[k], c.regs, c.iq.Keys, out);
    }
  }

  // ----- pending writes

  lemma {:induction false} DrainedAppend(mem: Memory, wreq: seq<Beat>, b: Beat)
    ensures Drained(mem, wreq + [b]) == Write(Drained(mem, wreq), b)
    decreases |wreq|
  {
    if wreq == [] {
      assert [b][1..] == [];
      assert Drained(Write(mem, b), []) == Write(mem, b);
    } else {
      assert (wreq + [b])[1..] == wreq[1..] + [b];
      DrainedAppend(Write(mem, wreq[0]), wreq[1..], b);
    }
  }

  lemma {:induction false} DrainedElsewhere(mem: Memory, wreq: seq<Beat>, word: Addr)
    requires NotPending(wreq, word)
    ensures Read(Drained(mem, wreq), word) == Read(mem, word)
    decreases |wreq|
  {
    if wreq != [] {
      DrainedElsewhere(Write(mem, wreq[0]), wreq[1..], word);
    }
  }
}
