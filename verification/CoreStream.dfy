/** The instruction stream: what fetch, dispatch, commit and flush do to the chain
    of predictions. */
module CoreStream {
  import opened Words
  import opened Isa
  import opened Core
  import opened CoreInvariant

  lemma {:induction false} ChainAppend(s: seq<Decoded>, epoch: nat, start: Addr, d: Decoded)
    requires d.epoch == epoch && Chain(s, epoch, start, d.pc)
    ensures Chain(s + [d], epoch, start, d.pred)
  {
    if s == [] {
      assert [d][1..] == [];
    } else {
      assert (s + [d])[1..] == s[1..] + [d];
      ChainAppend(s[1..], epoch, if s[0].epoch == epoch then s[0].pred else start, d);
    }
  }

  lemma {:induction false} ChainDrop(s: seq<Decoded>, d: Decoded, t: seq<Decoded>, epoch: nat, start: Addr, end: Addr)
    requires d.epoch != epoch && Chain(s + [d] + t, epoch, start, end)
    ensures Chain(s + t, epoch, start, end)
  {
    if s == [] {
      assert (s + [d] + t)[1..] == s + t;
    } else {
      assert (s + [d] + t)[1..] == s[1..] + [d] + t;
      assert (s + t)[1..] == s[1..] + t;
      ChainDrop(s[1..], d, t, epoch, if s[0].epoch == epoch then s[0].pred else start, end);
    }
  }

  lemma {:induction false} ChainNone(s: seq<Decoded>, epoch: nat, start: Addr)
    requires forall i :: 0 <= i < |s| ==> s[i].epoch != epoch
    ensures Chain(s, epoch, start, start)
  {
    if s != [] {
      ChainNone(s[1..], epoch, start);
    }
  }

  lemma {:induction false} StreamFetch(m: Machine, s: seq<Decoded>, epoch: nat, start: Addr, d: Decoded)
    requires StreamInv(m, s, epoch, start, d.pc) && d.epoch == epoch && d.instr == m.imem(d.pc)
    ensures StreamInv(m, s + [d], epoch, start, d.pred)
  {
    ChainAppend(s, epoch, start, d);
  }

  lemma {:induction false} StreamDrop(m: Machine, s: seq<Decoded>, d: Decoded, t: seq<Decoded>, epoch: nat,
        start: Addr, end: Addr)
    requires StreamInv(m, s + [d] + t, epoch, start, end) && d.epoch != epoch
    ensures StreamInv(m, s + t, epoch, start, end)
  {
    var u := s + [d] + t;
    ChainDrop(s, d, t, epoch, start, end);
    forall i | 0 <= i < |s + t|
      ensures (s + t)[i] == u[if i < |s| then i else i + 1]
    {
    }
  }

  /** The head leaves, retired or discarded, and the pipeline goes on. */
  lemma {:induction false} StreamPop(m: Machine, s: seq<Decoded>, epoch: nat, start: Addr, end: Addr)
    requires StreamInv(m, s, epoch, start, end) && s != []
    ensures StreamInv(m, s[1..], epoch, if s[0].epoch == epoch then s[0].pred else start, end)
    ensures s[0].epoch == epoch ==> s[0].pc == start
  {
  }

  /** The head, of the current epoch, leaves and everything behind it becomes old. */
  lemma {:induction false} StreamFlush(m: Machine, s: seq<Decoded>, epoch: nat, start: Addr, end: Addr, pc: Addr)
    requires StreamInv(m, s, epoch, start, end) && s != [] && s[0].epoch == epoch
    ensures StreamInv(m, s[1..], epoch + 1, pc, pc)
  {
    forall i | 0 <= i < |s|
      ensures s[i].epoch == epoch
    {
    }
    ChainNone(s[1..], epoch + 1, pc);
  }

  lemma {:induction false} StreamHead(c: State)
    requires c.base < |c.log|
    ensures Stream(c) != [] && Stream(c)[0] == c.log[c.base].d
    ensures Stream(c)[1..] == Stream(c.(base := c.base + 1))
  {
  }

  /** Once the head is of the current epoch, so is everything in flight. */
  lemma {:induction false} HeadEpoch(m: Machine, c: State, start: Addr)
    requires c.base < |c.log| && StreamInv(m, Stream(c), c.epoch, start, c.front.pc)
    ensures forall id :: c.base <= id < |c.log| ==>
              c.log[id].d.epoch <= c.epoch && (c.log[c.base].d.epoch == c.epoch ==> c.log[id].d.epoch == c.epoch)
    ensures c.front.renamed.Some? ==> c.front.renamed.value.d.epoch <= c.epoch
  {
    var s := Stream(c);
    forall id | c.base <= id < |c.log|
      ensures c.log[id].d.epoch <= c.epoch && (c.log[c.base].d.epoch == c.epoch ==> c.log[id].d.epoch == c.epoch)
    {
      assert s[id - c.base] == c.log[id].d && s[0] == c.log[c.base].d;
    }
    if c.front.renamed.Some? {
      assert s[|c.log| - c.base] == c.front.renamed.value.d;
    }
  }
}
