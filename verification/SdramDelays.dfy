/** `mkDelaySdram` of src/SDRAM.bsv: the delay counters as registers, proved to be the
    values the controller model works with. */
module SdramDelays {
  import opened Sdram

  /** The counters `n` cycles later, when nothing is sent meanwhile. */
  function Later(d: Delays, n: nat): (r: Delays)
    ensures |r.bank| == |d.bank|
  {
    if n == 0 then d else Elapse(Later(d, n - 1))
  }

  /** A counter is zero exactly once its cycles are over. */
  lemma {:induction false} OverAfter(d: Delays, n: nat)
    ensures Later(d, n).rd == 0 <==> d.rd <= n
    ensures Later(d, n).wr == 0 <==> d.wr <= n
    ensures forall b :: 0 <= b < |d.bank| ==> (Later(d, n).bank[b] == 0 <==> d.bank[b] <= n)
  {
    Counts(d, n);
  }

  lemma {:induction false} Counts(d: Delays, n: nat)
    ensures Later(d, n).rd == (if d.rd <= n then 0 else d.rd - n)
    ensures Later(d, n).wr == (if d.wr <= n then 0 else d.wr - n)
    ensures forall b :: 0 <= b < |d.bank| ==> Later(d, n).bank[b] == if d.bank[b] <= n then 0 else d.bank[b] - n
  {
    if n > 0 {
      Counts(d, n - 1);
    }
  }

  class DelaySdram {
    const bankDelay: array<nat>
    var rdDelay: nat
    var wrDelay: nat

    ghost function Value(): Delays
      reads this, bankDelay
    {
      Delays(bankDelay[..], rdDelay, wrDelay)
    }

    constructor ()
      ensures fresh(bankDelay) && Value() == Delays([0, 0, 0, 0], 0, 0)
    {
      bankDelay := new nat[BANKS](_ => 0);
      rdDelay, wrDelay := 0, 0;
    }

    /** Rule `updateBankDelay`, at the start of every cycle. */
    method UpdateBankDelay()
      modifies this, bankDelay
      ensures Value() == Elapse(old(Value()))
    {
      for i := 0 to bankDelay.Length
        modifies bankDelay
        invariant forall k :: 0 <= k < i ==> bankDelay[k] == Less(old(bankDelay[k]))
        invariant forall k :: i <= k < bankDelay.Length ==> bankDelay[k] == old(bankDelay[k])
      {
        bankDelay[i] := Less(bankDelay[i]);
      }
      rdDelay, wrDelay := Less(rdDelay), Less(wrDelay);
    }

    /** `locals[bank].send`: fires only when the bank's delay is over. */
    method LocalSend(bank: nat, delay: nat) returns (fired: bool)
      requires bank < bankDelay.Length
      modifies bankDelay
      ensures fired <==> old(Value()).bank[bank] == 0
      ensures Value() == if fired then Send(old(Value()), bank, delay) else old(Value())
    {
      fired := bankDelay[bank] == 0;
      if fired {
        bankDelay[bank] := delay;
      }
    }

    /** `sendGlobal`: fires only when the delays of all banks are over. */
    method GlobalSend(delay: nat) returns (fired: bool)
      modifies bankDelay
      ensures fired <==> AllReady(old(Value()))
      ensures Value() == if fired then SendGlobal(old(Value()), delay) else old(Value())
    {
      fired := true;
      for i := 0 to bankDelay.Length
        modifies {}
        invariant fired <==> forall k :: 0 <= k < i ==> bankDelay[k] == 0
      {
        if bankDelay[i] != 0 {
          fired := false;
        }
      }
      if fired {
        for i := 0 to bankDelay.Length
          modifies bankDelay
          invariant forall k :: 0 <= k < i ==> bankDelay[k] == delay
        {
          bankDelay[i] := delay;
        }
      }
    }

    /** Reserve the data bus for a read: the next one can start after `rd` cycles and not
        before, the next write after `wr` or when it could have started anyway. */
    method Read(rd: nat, wr: nat) returns (fired: bool)
      modifies this
      ensures fired <==> old(Value()).rd == 0
      ensures Value() == if fired then ReadBus(old(Value()), rd, wr) else old(Value())
      ensures fired ==> forall n :: Later(Value(), n).rd == 0 <==> rd <= n
      ensures fired ==> forall n :: Later(Value(), n).wr == 0 <==> wr <= n && Later(old(Value()), n).wr == 0
    {
      fired := rdDelay == 0;
      if fired {
        rdDelay, wrDelay := rd, Max(wrDelay, wr);
        forall n: nat
          ensures Later(Value(), n).rd == 0 <==> rd <= n
          ensures Later(Value(), n).wr == 0 <==> wr <= n && Later(old(Value()), n).wr == 0
        {
          OverAfter(Value(), n);
          OverAfter(old(Value()), n);
        }
      }
    }

    /** Reserve it for a write: the next write can start after `d` cycles and not before,
        the next read after `d` or when it could have started anyway. */
    method Write(d: nat) returns (fired: bool)
      modifies this
      ensures fired <==> old(Value()).wr == 0
      ensures Value() == if fired then WriteBus(old(Value()), d) else old(Value())
      ensures fired ==> forall n :: Later(Value(), n).wr == 0 <==> d <= n
      ensures fired ==> forall n :: Later(Value(), n).rd == 0 <==> d <= n && Later(old(Value()), n).rd == 0
    {
      fired := wrDelay == 0;
      if fired {
        rdDelay, wrDelay := Max(rdDelay, d), d;
        forall n: nat
          ensures Later(Value(), n).wr == 0 <==> d <= n
          ensures Later(Value(), n).rd == 0 <==> d <= n && Later(old(Value()), n).rd == 0
        {
          OverAfter(Value(), n);
          OverAfter(old(Value()), n);
        }
      }
    }
  }

  // ----- the counters of the controller model

  /** The calls a command makes all fire when its rule can, and leave the counters the
      controller model has then. */
  method SendLocal(d: DelaySdram, s: State, e: Event)
    requires Shape(s) && Enabled(s, e) && d.Value() == s.delays
    requires e.DoActivate? || e.DoClose? || e.DoRead? || e.DoWrite?
    modifies d, d.bankDelay
    ensures d.Value() == Apply(s, e).delays
  {
    var fired, passed := true, true;
    match e {
      case DoActivate(b) => fired := d.LocalSend(b, T_RCD);
      case DoClose(b) => fired := d.LocalSend(b, T_RP);
      case DoRead(b) =>
        fired := d.LocalSend(b, T_CL + 2);
        passed := d.Read(2, T_CL + 2);
      case DoWrite(b) =>
        fired := d.LocalSend(b, 1);
        passed := d.Write(2);
    }
    assert fired && passed;
  }

  method SendToAll(d: DelaySdram, s: State, e: Event)
    requires Shape(s) && Enabled(s, e) && d.Value() == s.delays
    requires e.DoCloseAll? || e.DoRefresh? || e.DoModeSet?
    modifies d, d.bankDelay
    ensures d.Value() == Apply(s, e).delays
  {
    var fired := d.GlobalSend(if e.DoCloseAll? then T_RP else if e.DoRefresh? then T_RC else T_MRD);
    assert fired;
  }
}
