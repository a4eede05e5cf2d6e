/** What every run of the SDRAM controller keeps: the commands respect the chip's rows
    and delays, transfers never meet on the data bus, and each read returns the word
    last written. */
module SdramProofs {
  import opened Wrappers
  import opened Words
  import opened Sdram

  // ----- legal sequences of commands

  predicate Concerns(c: Command, b: nat) {
    match c
    case Activate(k, _) => k == b
    case Close(k) => k == b
    case ReadCol(k, _, _) => k == b
    case WriteCol(k, _, _) => k == b
    case _ => true
  }

  /** The row that is open in a bank of the chip after these commands. */
  function OpenAfter(log: seq<Entry>, b: nat): Option<nat> {
    if log == [] then None
    else
      match log[|log| - 1].cmd
      case Activate(k, row) => if k == b then Some(row) else OpenAfter(log[..|log| - 1], b)
      case Close(k) => if k == b then None else OpenAfter(log[..|log| - 1], b)
      case CloseAll => None
      case _ => OpenAfter(log[..|log| - 1], b)
  }

  /** Cycles before the next command to a bank that this one concerns: tRCD, tRP, the
      two halves of a read after the latency, the two halves of a write and the recovery,
      tRC, tMRD. */
  function Gap(c: Command): nat {
    match c
    case Activate(_, _) => 3
    case Close(_) => 3
    case ReadCol(_, _, _) => 5
    case WriteCol(_, _, _) => 4
    case CloseAll => 3
    case AutoRefresh => 9
    case LoadMode => 2
  }

  predicate IsData(c: Command) {
    c.ReadCol? || c.WriteCol?
  }

  /** The first of the two cycles a transfer is on the data bus: at once for a write,
      after the column latency of three for a read. */
  function Start(e: Entry): nat {
    if e.cmd.ReadCol? then e.time + 3 else e.time
  }

  /** A command that the chip accepts after the others. */
  ghost predicate LegalNext(log: seq<Entry>, e: Entry) {
    && (forall j :: 0 <= j < |log| ==> log[j].time < e.time)
    && (forall j, b :: 0 <= j < |log| && 0 <= b < BANKS && Concerns(log[j].cmd, b) && Concerns(e.cmd, b) ==>
          log[j].time + Gap(log[j].cmd) <= e.time)
    && (forall j :: 0 <= j < |log| && IsData(log[j].cmd) && IsData(e.cmd) ==> Start(log[j]) + 2 <= Start(e))
    && (match e.cmd
        case Activate(b, _) => OpenAfter(log, b) == None
        case Close(b) => OpenAfter(log, b).Some?
        case ReadCol(b, row, _) => OpenAfter(log, b) == Some(row)
        case WriteCol(b, row, _) => OpenAfter(log, b) == Some(row)
        case CloseAll => true
        case AutoRefresh => forall b :: 0 <= b < BANKS ==> OpenAfter(log, b) == None
        case LoadMode => forall b :: 0 <= b < BANKS ==> OpenAfter(log, b) == None)
  }

  ghost predicate Legal(log: seq<Entry>) {
    log == [] || (Legal(log[..|log| - 1]) && LegalNext(log[..|log| - 1], log[|log| - 1]))
  }

  /** Any two transfers of a legal sequence use the data bus in different cycles. */
  lemma {:induction false} TransfersNeverMeet(log: seq<Entry>, j: nat, k: nat, t: nat)
    requires Legal(log) && j < |log| && k < |log| && j != k && IsData(log[j].cmd) && IsData(log[k].cmd)
    ensures !(Start(log[j]) <= t < Start(log[j]) + 2 && Start(log[k]) <= t < Start(log[k]) + 2)
    decreases |log|
  {
    var n := |log| - 1;
    if j < n && k < n {
      TransfersNeverMeet(log[..n], j, k, t);
    } else {
      var i := if j == n then k else j;
      assert log[..n][i] == log[i];
    }
  }

  /** The prefix before any command of a legal sequence accepts it. */
  lemma {:induction false} LegalAt(log: seq<Entry>, k: nat)
    requires Legal(log) && k < |log|
    ensures LegalNext(log[..k], log[k])
    decreases |log|
  {
    var n := |log| - 1;
    if k < n {
      LegalAt(log[..n], k);
      assert log[..n][..k] == log[..k];
    }
  }

  // ----- the invariant: commands

  ghost predicate TimeInv(s: State) {
    forall j :: 0 <= j < |s.log| ==> s.log[j].time <= s.now && (!s.sent ==> s.log[j].time < s.now)
  }

  ghost predicate OpenInv(s: State)
    requires Shape(s)
  {
    forall b :: 0 <= b < BANKS ==> s.banks[b].open == OpenAfter(s.log, b)
  }

  /** The delay of a bank covers the command, or it is the WRITE whose second half is
      still to come. */
  predicate Covered(s: State, e: Entry, b: nat)
    requires Shape(s) && b < BANKS
  {
    || e.time + Gap(e.cmd) <= s.now + s.delays.bank[b]
    || (s.banks[b].st == Write1 && e.time == s.banks[b].since && e.cmd.WriteCol?)
  }

  ghost predicate ReadyInv(s: State)
    requires Shape(s)
  {
    forall j, b :: 0 <= j < |s.log| && 0 <= b < BANKS && Concerns(s.log[j].cmd, b) ==> Covered(s, s.log[j], b)
  }

  ghost predicate BusInv(s: State) {
    forall j :: 0 <= j < |s.log| && IsData(s.log[j].cmd) ==>
      Start(s.log[j]) + 2 <= s.now + s.delays.wr && Start(s.log[j]) + 2 <= s.now + s.delays.rd + 3
  }

  ghost predicate PhaseInv(s: State) {
    && (s.global != Running ==> AllIdle(s))
    && (s.global == Refresh || s.global == ModeSet ==> forall b :: 0 <= b < |s.banks| ==> s.banks[b].open == None)
  }

  predicate BankInv(s: State, b: nat)
    requires Shape(s) && b < BANKS
  {
    var k := s.banks[b];
    && k.since <= s.now
    && (k.st == Read1 ==>
          k.open == Some(k.row) && k.since + 5 == s.now + s.delays.bank[b] && k.since + 2 <= s.now + s.delays.rd)
    && (k.st == Write1 ==> k.open == Some(k.row) && k.since + 1 == s.now + s.delays.bank[b])
    && (k.st == Read0 || k.st == Read1 ==> |k.outq| < 2)
  }

  ghost predicate Control(s: State) {
    && Shape(s) && TimeInv(s) && OpenInv(s) && ReadyInv(s) && BusInv(s) && PhaseInv(s) && Legal(s.log)
    && forall b :: 0 <= b < BANKS ==> BankInv(s, b)
  }

  // ----- the invariant: data

  /** The chip holds the user's word, but for the write that its bank is performing. */
  predicate Agrees(s: State, p: Place)
    requires Shape(s) && p.bank < BANKS
  {
    var k := s.banks[p.bank];
    At(s.flat, p) ==
      if p == Where(s, p.bank) && k.st == Write0 then Merge(At(s.chip, p), k.data, k.mask)
      else if p == Where(s, p.bank) && k.st == Write1 then MergeHigh(At(s.chip, p), k.data, k.mask)
      else At(s.chip, p)
  }

  predicate ReadInv(s: State, b: nat)
    requires Shape(s) && b < BANKS
  {
    var k := s.banks[b];
    && (k.st == Read0 ==> k.want == At(s.flat, Where(s, b)))
    && (k.st == Read1 ==>
          OnBus(s.bus, k.since + 3) == [k.want[0], k.want[1]] && OnBus(s.bus, k.since + 4) == [k.want[2], k.want[3]])
  }

  /** The words owed for the tags of a bank. */
  function For(tags: seq<nat>, owed: seq<Word>, b: nat): seq<Word>
    requires |tags| == |owed|
  {
    if tags == [] then [] else (if tags[0] == b then [owed[0]] else []) + For(tags[1..], owed[1..], b)
  }

  function Pending(k: Bank): seq<Word> {
    k.outq + if k.st == Read0 || k.st == Read1 then [k.want] else []
  }

  ghost predicate Data(s: State)
    requires Shape(s)
  {
    && (forall p: Place :: p.bank < BANKS ==> Agrees(s, p))
    && (forall b :: 0 <= b < BANKS ==> ReadInv(s, b))
    && |s.tagQ| == |s.owed| && (forall i :: 0 <= i < |s.tagQ| ==> s.tagQ[i] < BANKS)
    && (forall b :: 0 <= b < BANKS ==> For(s.tagQ, s.owed, b) == Pending(s.banks[b]))
  }

  ghost predicate Inv(s: State) {
    Control(s) && Data(s)
  }

  // ----- commands

  /** A command for one bank, when the bank and the bus are ready, keeps the command
      half of the invariant. */
  lemma {:induction false} OpenSnoc(log: seq<Entry>, e: Entry, b: nat)
    ensures OpenAfter(log + [e], b) ==
            match e.cmd
            case Activate(k, row) => if k == b then Some(row) else OpenAfter(log, b)
            case Close(k) => if k == b then None else OpenAfter(log, b)
            case CloseAll => None
            case _ => OpenAfter(log, b)
  {
    assert (log + [e])[..|log|] == log;
  }

  lemma {:induction false} LegalSnoc(log: seq<Entry>, e: Entry)
    requires Legal(log) && LegalNext(log, e)
    ensures Legal(log + [e])
  {
    assert (log + [e])[..|log|] == log;
  }

  /** A ready bank: everything sent to it is over. */
  lemma {:induction false} BankReady(s: State, b: nat)
    requires Control(s) && b < BANKS && s.delays.bank[b] == 0 && s.banks[b].st != Write1
    ensures forall j :: 0 <= j < |s.log| && Concerns(s.log[j].cmd, b) ==> s.log[j].time + Gap(s.log[j].cmd) <= s.now
  {
    forall j | 0 <= j < |s.log| && Concerns(s.log[j].cmd, b)
      ensures s.log[j].time + Gap(s.log[j].cmd) <= s.now
    {
      assert Covered(s, s.log[j], b);
    }
  }

  /** The chip accepts a command for one bank when the bank, and for a transfer the bus, is
      ready. */
  lemma {:induction false} SendLegal(s: State, b: nat, e: Entry)
    requires Control(s) && b < BANKS && !s.sent && s.delays.bank[b] == 0 && s.banks[b].st != Write1 && e.time == s.now
    requires match e.cmd
             case Activate(k, _) => k == b && s.banks[b].open == None
             case Close(k) => k == b && s.banks[b].open.Some?
             case ReadCol(k, row, _) => k == b && s.banks[b].open == Some(row) && s.delays.rd == 0
             case WriteCol(k, row, _) => k == b && s.banks[b].open == Some(row) && s.delays.wr == 0
             case _ => false
    ensures Legal(s.log + [e]) && BankInv(s, b)
    ensures OpenAfter(s.log + [e], b) ==
            match e.cmd case Activate(_, row) => Some(row) case Close(_) => None case _ => s.banks[b].open
  {
    BankReady(s, b);
    hide Legal;
    assert BankInv(s, b);
    assert s.banks[b].open == OpenAfter(s.log, b);
    OpenSnoc(s.log, e, b);
    hide OpenAfter;
    assert LegalNext(s.log, e);
    LegalSnoc(s.log, e);
  }

  lemma {:induction false} ActivateControl(s: State, b: nat)
    requires Control(s) && Enabled(s, DoActivate(b))
    ensures Control(ActivateState(s, b))
  {
    hide Control, Legal, OpenAfter;
    HasShape(s);
    BankHolds(s, b);
    var e := Entry(s.now, Activate(b, s.banks[b].row));
    SendLegal(s, b, e);
    BankCommand(s, ActivateState(s, b), b, e);
  }

  /** What a command to a single bank leaves to check. */
  lemma {:induction false} BankCommand(s: State, t: State, b: nat, e: Entry)
    requires Control(s) && Shape(t) && b < BANKS && !s.sent && s.banks[b].st != Idle && s.banks[b].st != Read1
    requires s.banks[b].st != Write1
    requires e.time == s.now && t.log == s.log + [e] && Legal(t.log) && t.now == s.now && t.sent && t.global == s.global
    requires (e.cmd.Activate? || e.cmd.Close? || IsData(e.cmd)) && e.cmd.bank == b
    requires forall k :: 0 <= k < BANKS && k != b ==> t.banks[k] == s.banks[k] && t.delays.bank[k] == s.delays.bank[k]
    requires t.banks[b].open == OpenAfter(t.log, b) && t.banks[b].st != Idle && BankInv(t, b) && Covered(t, e, b)
    requires s.delays.bank[b] <= t.delays.bank[b] && s.delays.rd <= t.delays.rd && s.delays.wr <= t.delays.wr
    requires IsData(e.cmd) ==> Start(e) + 2 <= t.now + t.delays.wr && Start(e) + 2 <= t.now + t.delays.rd + 3
    ensures Control(t)
  {
    hide Legal;
    forall k | 0 <= k < BANKS
      ensures t.banks[k].open == OpenAfter(t.log, k)
    {
      OpenSnoc(s.log, e, k);
    }
    hide OpenAfter;
    forall j, k | 0 <= j < |t.log| && 0 <= k < BANKS && Concerns(t.log[j].cmd, k)
      ensures Covered(t, t.log[j], k)
    {
      if j < |s.log| {
        assert Covered(s, s.log[j], k);
      }
    }
    forall k | 0 <= k < BANKS
      ensures BankInv(t, k)
    {
      assert BankInv(s, k);
    }
    assert s.global == Running;
  }

  lemma {:induction false} CloseControl(s: State, b: nat)
    requires Control(s) && Enabled(s, DoClose(b))
    ensures Control(CloseState(s, b))
  {
    hide Control, Legal, OpenAfter;
    HasShape(s);
    BankHolds(s, b);
    var e := Entry(s.now, Close(b));
    SendLegal(s, b, e);
    BankCommand(s, CloseState(s, b), b, e);
  }

  lemma {:induction false} ReadControl(s: State, b: nat)
    requires Control(s) && Enabled(s, DoRead(b))
    ensures Control(ReadState(s, b))
  {
    hide Control, Legal, OpenAfter, At;
    HasShape(s);
    var e := Entry(s.now, ReadCol(b, s.banks[b].row, s.banks[b].col));
    SendLegal(s, b, e);
    BankCommand(s, ReadState(s, b), b, e);
  }

  lemma {:induction false} WriteControl(s: State, b: nat)
    requires Control(s) && Enabled(s, DoWrite(b))
    ensures Control(WriteState(s, b))
  {
    hide Control, Legal, OpenAfter, At, MergeLow;
    HasShape(s);
    var e := Entry(s.now, WriteCol(b, s.banks[b].row, s.banks[b].col));
    SendLegal(s, b, e);
    BankCommand(s, WriteState(s, b), b, e);
  }

  /** The chip accepts a command for all banks when all of them are ready. */
  lemma {:induction false} GlobalLegal(s: State, e: Entry)
    requires Control(s) && !s.sent && s.global != Running && AllReady(s.delays) && e.time == s.now
    requires e.cmd.CloseAll? || (e.cmd in {AutoRefresh, LoadMode} && s.global in {Refresh, ModeSet})
    ensures Legal(s.log + [e])
  {
    hide Legal, OpenAfter;
    assert AllIdle(s);
    forall j, k | 0 <= j < |s.log| && 0 <= k < BANKS && Concerns(s.log[j].cmd, k)
      ensures s.log[j].time + Gap(s.log[j].cmd) <= s.now
    {
      assert Covered(s, s.log[j], k);
    }
    assert forall k :: 0 <= k < BANKS ==> s.banks[k].open == OpenAfter(s.log, k);
    assert LegalNext(s.log, e);
    LegalSnoc(s.log, e);
  }

  /** What a command to all banks leaves to check. */
  lemma {:induction false} GlobalCommand(s: State, t: State, e: Entry)
    requires Control(s) && Shape(t) && !s.sent && s.global != Running && AllReady(s.delays)
    requires e.time == s.now && t.log == s.log + [e] && t.now == s.now && t.sent
    requires e.cmd.CloseAll? || (e.cmd in {AutoRefresh, LoadMode} && s.global in {Refresh, ModeSet})
    requires forall k :: 0 <= k < BANKS ==>
          t.banks[k] == s.banks[k].(open := if e.cmd.CloseAll? then None else s.banks[k].open)
          && t.delays.bank[k] == Gap(e.cmd)
    requires t.delays.rd == s.delays.rd && t.delays.wr == s.delays.wr
    requires t.global in {Refresh, ModeSet} ==> e.cmd.CloseAll? || s.global in {Refresh, ModeSet}
    ensures Control(t)
  {
    hide Legal, LegalNext;
    GlobalLegal(s, e);
    forall k | 0 <= k < BANKS
      ensures t.banks[k].open == OpenAfter(t.log, k)
    {
      OpenSnoc(s.log, e, k);
    }
    hide OpenAfter;
    forall j, k | 0 <= j < |t.log| && 0 <= k < BANKS && Concerns(t.log[j].cmd, k)
      ensures Covered(t, t.log[j], k)
    {
      if j < |s.log| {
        assert Covered(s, s.log[j], k);
      }
    }
    forall k | 0 <= k < BANKS
      ensures BankInv(t, k)
    {
      assert BankInv(s, k);
    }
  }

  lemma {:induction false} HasShape(s: State)
    requires Control(s)
    ensures Shape(s)
  {
  }

  lemma {:induction false} BankHolds(s: State, b: nat)
    requires Control(s) && b < BANKS
    ensures BankInv(s, b)
  {
  }

  lemma {:induction false} GlobalControl(s: State, e: Event)
    requires Control(s) && e in {DoCloseAll, DoRefresh, DoModeSet} && Enabled(s, e)
    ensures Control(Apply(s, e))
  {
    HasShape(s);
    hide Control, Legal;
    GlobalCommand(s, Apply(s, e),
        Entry(s.now, match e case DoCloseAll => CloseAll case DoRefresh => AutoRefresh case _ => LoadMode));
  }

  /** Steps that send no command and leave the delays alone. */
  lemma {:induction false} QuietControl(s: State, t: State)
    requires Control(s) && Shape(t) && t.now == s.now && t.sent == s.sent && t.log == s.log && t.delays == s.delays
    requires forall k :: 0 <= k < BANKS ==>
          t.banks[k].open == s.banks[k].open && t.banks[k].since == s.banks[k].since && BankInv(t, k)
    requires forall k :: 0 <= k < BANKS ==> (t.banks[k].st == Write1 <==> s.banks[k].st == Write1)
    requires PhaseInv(t)
    ensures Control(t)
  {
    hide Legal, OpenAfter;
    forall j, k | 0 <= j < |t.log| && 0 <= k < BANKS && Concerns(t.log[j].cmd, k)
      ensures Covered(t, t.log[j], k)
    {
      assert Covered(s, s.log[j], k);
    }
  }

  lemma {:induction false} BankOfAddress(a: Addr)
    ensures PlaceOf(a).bank == a % 4 < BANKS
  {
  }

  lemma {:induction false} AcceptFrame(s: State)
    requires Shape(s) && Enabled(s, Accept)
    ensures var t := AcceptState(s);
            var r := s.inputQ[0];
            var p := PlaceOf(r.addr);
            && p.bank < BANKS && Shape(t) && t.now == s.now && t.sent == s.sent && t.log == s.log
                  && t.delays == s.delays && t.global == s.global == Running
            && (forall k :: 0 <= k < BANKS && k != p.bank ==> t.banks[k] == s.banks[k])
            && s.banks[p.bank].st == Idle && |s.banks[p.bank].outq| < 2
            && t.banks[p.bank].open == s.banks[p.bank].open && t.banks[p.bank].since == s.banks[p.bank].since
                  && t.banks[p.bank].outq == s.banks[p.bank].outq
            && t.banks[p.bank].row == p.row && t.banks[p.bank].col == p.col && t.banks[p.bank].data == r.data
                  && t.banks[p.bank].mask == r.mask
            && t.banks[p.bank].st == (if r.mask == NONE then Read0 else Write0)
                  && (r.mask == NONE ==> t.banks[p.bank].want == At(s.flat, p))
            && t.chip == s.chip && t.bus == s.bus
                  && t.flat == (if r.mask == NONE then s.flat else s.flat[p := Merge(At(s.flat, p), r.data, r.mask)])
            && t.tagQ == s.tagQ + (if r.mask == NONE then [p.bank] else [])
                  && t.owed == s.owed + (if r.mask == NONE then [At(s.flat, p)] else [])
  {
    hide PlaceOf, Merge, MustRefresh, At;
    BankOfAddress(s.inputQ[0].addr);
  }

  lemma {:induction false} AcceptControl(s: State)
    requires Control(s) && Enabled(s, Accept)
    ensures Control(AcceptState(s))
  {
    hide Legal, OpenAfter, PlaceOf, AcceptState, Merge, At, MustRefresh;
    AcceptFrame(s);
    hide Enabled;
    var t := AcceptState(s);
    forall k | 0 <= k < BANKS
      ensures BankInv(t, k)
    {
      assert BankInv(s, k);
    }
    QuietControl(s, t);
  }

  lemma {:induction false} OtherControl(s: State, e: Event)
    requires Control(s) && (e.Put? || e.Get? || e.ToPrecharge?) && Enabled(s, e)
    ensures Control(Apply(s, e))
  {
    hide Legal, OpenAfter;
    var t := Apply(s, e);
    forall k | 0 <= k < BANKS
      ensures BankInv(t, k)
    {
      assert BankInv(s, k);
    }
    QuietControl(s, t);
  }

  // ----- the clock

  /** The second half of a burst has been handled where it was due. */
  predicate Handled(s: State, b: nat)
    requires Shape(s) && b < BANKS
  {
    s.banks[b].st == Read1 || s.banks[b].st == Write1 ==> s.delays.bank[b] > 0
  }

  /** The other banks, the bus and the log are left alone. */
  lemma {:induction false} SecondElsewhere(s: State, b: nat)
    requires Shape(s) && b < BANKS
    ensures var t := SecondHalf(s, b);
            && Shape(t) && t.now == s.now && t.sent == s.sent && t.log == s.log && t.global == s.global
            && t.delays.rd == s.delays.rd && t.delays.wr == s.delays.wr
            && (forall k :: 0 <= k < BANKS && k != b ==>
                  t.banks[k] == s.banks[k] && t.delays.bank[k] == s.delays.bank[k])
  {
    hide At, OnBus, MergeHigh;
  }

  lemma {:induction false} SecondFrame(s: State, b: nat)
    requires Shape(s) && b < BANKS && BankInv(s, b)
    ensures var t := SecondHalf(s, b);
            && Shape(t) && t.now == s.now && t.sent == s.sent && t.log == s.log && t.global == s.global
            && t.delays.rd == s.delays.rd && t.delays.wr == s.delays.wr
            && (forall k :: 0 <= k < BANKS && k != b ==>
                  t.banks[k] == s.banks[k] && t.delays.bank[k] == s.delays.bank[k])
            && BankInv(t, b) && Handled(t, b) && t.banks[b].open == s.banks[b].open
                  && t.banks[b].since == s.banks[b].since
            && (s.banks[b].st == Idle ==> t.banks[b].st == Idle)
            && s.delays.bank[b] <= t.delays.bank[b]
            && (s.banks[b].st == Write1 && t.banks[b].st != Write1 ==> s.banks[b].since + 4 == t.now + t.delays.bank[b])
            && (t.banks[b].st == Write1 ==> s.banks[b].st == Write1)
  {
    SecondElsewhere(s, b);
    hide At, OnBus, MergeHigh;
  }

  lemma {:induction false} SecondControl(s: State, b: nat)
    requires Control(s) && b < BANKS
    ensures var t := SecondHalf(s, b);
            && Control(t) && Handled(t, b) && t.now == s.now && t.log == s.log
            && forall k :: 0 <= k < BANKS && k != b ==>
                 t.banks[k] == s.banks[k] && t.delays.bank[k] == s.delays.bank[k]
  {
    hide Legal, OpenAfter, SecondHalf, Concerns, Gap, Start;
    var t := SecondHalf(s, b);
    assert BankInv(s, b);
    SecondFrame(s, b);
    forall k | 0 <= k < BANKS
      ensures BankInv(t, k)
    {
      assert BankInv(s, k);
    }
    forall j, k | 0 <= j < |t.log| && 0 <= k < BANKS && Concerns(t.log[j].cmd, k)
      ensures Covered(t, t.log[j], k)
    {
      assert Covered(s, s.log[j], k);
      if s.banks[k].st == Write1 && s.log[j].cmd.WriteCol? {
        WriteGap(s.log[j].cmd);
      }
    }
  }

  lemma {:induction false} WriteGap(c: Command)
    requires c.WriteCol?
    ensures Gap(c) == 4
  {
  }

  lemma {:induction false} SecondsControl(s: State, n: nat)
    requires Control(s) && n <= BANKS
    ensures var t := SecondHalves(s, n);
            Control(t) && t.now == s.now && t.log == s.log && (forall k :: 0 <= k < n ==> Handled(t, k))
    decreases n
  {
    HasShape(s);
    hide Control, Legal;
    if n > 0 {
      SecondsControl(s, n - 1);
      var u := SecondHalves(s, n - 1);
      SecondControl(u, n - 1);
      var t := SecondHalf(u, n - 1);
      assert SecondHalves(s, n) == t;
      hide SecondHalf, SecondHalves;
      forall k | 0 <= k < n
        ensures Handled(t, k)
      {
        assert k < n - 1 ==> Handled(u, k);
      }
    }
  }

  lemma {:induction false} ElapseControl(s: State, t: State)
    requires Control(s) && Shape(t) && (forall k :: 0 <= k < BANKS ==> Handled(s, k))
    requires t.now == s.now + 1 && !t.sent && t.log == s.log && t.banks == s.banks && t.delays == Elapse(s.delays)
    requires t.global == s.global || (s.global == Init && t.global == Precharge)
    ensures Control(t)
  {
    hide Legal, OpenAfter;
    forall k | 0 <= k < BANKS
      ensures BankInv(t, k)
    {
      assert BankInv(s, k) && Handled(s, k);
    }
    forall j, k | 0 <= j < |t.log| && 0 <= k < BANKS && Concerns(t.log[j].cmd, k)
      ensures Covered(t, t.log[j], k)
    {
      assert Covered(s, s.log[j], k);
    }
  }

  lemma {:induction false} TickControl(s: State)
    requires Control(s)
    ensures Control(TickState(s))
  {
    HasShape(s);
    hide Control;
    SecondsControl(s, BANKS);
    CountedKeeps(SecondHalves(s, BANKS));
    var u := SecondHalves(s, BANKS);
    ElapseControl(u, TickState(s));
  }

  lemma {:induction false} CountedKeeps(s: State)
    ensures var t := Counted(s);
            && t == s.(global := t.global, counter := t.counter)
            && (t.global == s.global || (s.global == Init && t.global == Precharge))
  {
  }

  /** Every rule keeps the command half of the invariant. */
  lemma {:induction false} StepControl(s: State, e: Event)
    requires Control(s) && Enabled(s, e)
    ensures Control(Apply(s, e))
  {
    hide Control;
    match e {
      case DoActivate(b) => ActivateControl(s, b);
      case DoClose(b) => CloseControl(s, b);
      case DoRead(b) => ReadControl(s, b);
      case DoWrite(b) => WriteControl(s, b);
      case DoCloseAll => GlobalControl(s, e);
      case DoRefresh => GlobalControl(s, e);
      case DoModeSet => GlobalControl(s, e);
      case Accept => AcceptControl(s);
      case Tick => TickControl(s);
      case _ => OtherControl(s, e);
    }
  }

  // ----- data

  /** The data half of the invariant does not depend on rows, delays and commands. */
  lemma {:induction false} SameData(s: State, t: State)
    requires Shape(s) && Shape(t) && Data(s)
    requires forall k :: 0 <= k < BANKS ==> t.banks[k].(open := None) == s.banks[k].(open := None)
    requires t.chip == s.chip && t.bus == s.bus && t.flat == s.flat && t.tagQ == s.tagQ && t.owed == s.owed
    ensures Data(t)
  {
    forall p: Place | p.bank < BANKS
      ensures Agrees(t, p)
    {
      assert Agrees(s, p);
    }
    forall k | 0 <= k < BANKS
      ensures ReadInv(t, k) && Pending(t.banks[k]) == Pending(s.banks[k])
    {
      assert ReadInv(s, k);
    }
  }

  lemma {:induction false} ForSnoc(tags: seq<nat>, owed: seq<Word>, tag: nat, w: Word, b: nat)
    requires |tags| == |owed|
    ensures For(tags + [tag], owed + [w], b) == For(tags, owed, b) + if tag == b then [w] else []
    decreases |tags|
  {
    if tags == [] {
      assert (tags + [tag])[1..] == [] && (owed + [w])[1..] == [];
    } else {
      ForSnoc(tags[1..], owed[1..], tag, w, b);
      assert (tags + [tag])[1..] == tags[1..] + [tag] && (owed + [w])[1..] == owed[1..] + [w];
    }
  }

  /** The two halves of a masked write make the whole. */
  lemma {:induction false} TwoHalves(w: Word, data: Word, mask: Strobes)
    ensures MergeHigh(MergeLow(w, data, mask), data, mask) == Merge(w, data, mask)
  {
  }

  /** The word at the head of a bank's queue is the one owed for the first tag. */
  lemma {:induction false} GetReturnsOwed(s: State)
    requires Shape(s) && Data(s) && Enabled(s, Get)
    ensures s.owed != [] && s.banks[s.tagQ[0]].outq[0] == s.owed[0]
  {
    var b := s.tagQ[0];
    assert For(s.tagQ, s.owed, b)[0] == s.owed[0];
    assert Pending(s.banks[b])[0] == s.banks[b].outq[0];
  }

  lemma {:induction false} GetData(s: State)
    requires Shape(s) && Data(s) && Enabled(s, Get)
    ensures Data(GetState(s))
  {
    var t := GetState(s);
    forall p: Place | p.bank < BANKS
      ensures Agrees(t, p)
    {
      assert Agrees(s, p);
    }
    forall k | 0 <= k < BANKS
      ensures ReadInv(t, k) && For(t.tagQ, t.owed, k) == Pending(t.banks[k])
    {
      assert ReadInv(s, k) && For(s.tagQ, s.owed, k) == Pending(s.banks[k]);
      if k == s.tagQ[0] {
        assert Pending(t.banks[k]) == Pending(s.banks[k])[1..];
      } else {
        assert For(s.tagQ, s.owed, k) == For(s.tagQ[1..], s.owed[1..], k);
      }
    }
  }

  lemma {:induction false} AcceptData(s: State)
    requires Shape(s) && Data(s) && Enabled(s, Accept)
    ensures Data(AcceptState(s))
  {
    AcceptFrame(s);
    var t := AcceptState(s);
    var r := s.inputQ[0];
    var p := PlaceOf(r.addr);
    hide AcceptState, Enabled, PlaceOf, Merge, For, Pending, Agrees, ReadInv;
    forall q: Place | q.bank < BANKS
      ensures Agrees(t, q)
    {
      AcceptAgrees(s, t, r, p, q);
    }
    forall k | 0 <= k < BANKS
      ensures ReadInv(t, k)
    {
      AcceptReads(s, t, r, p, k);
    }
    forall k | 0 <= k < BANKS
      ensures For(t.tagQ, t.owed, k) == Pending(t.banks[k])
    {
      AcceptOwes(s, t, r, p, k);
    }
  }

  lemma {:induction false} AcceptReads(s: State, t: State, r: Request, p: Place, k: nat)
    requires Shape(s) && Shape(t) && p.bank < BANKS && k < BANKS && ReadInv(s, k) && t.bus == s.bus
    requires p.bank != k ==> t.banks[k] == s.banks[k]
    requires var b := t.banks[p.bank];
          b.row == p.row && b.col == p.col && b.st == (if r.mask == NONE then Read0 else Write0)
          && (r.mask == NONE ==> b.want == At(s.flat, p))
    requires t.flat == if r.mask == NONE then s.flat else s.flat[p := Merge(At(s.flat, p), r.data, r.mask)]
    ensures ReadInv(t, k)
  {
    hide Merge;
  }

  lemma {:induction false} AcceptOwes(s: State, t: State, r: Request, p: Place, k: nat)
    requires Shape(s) && Shape(t) && p.bank < BANKS && k < BANKS && |s.tagQ| == |s.owed| && |t.tagQ| == |t.owed|
    requires For(s.tagQ, s.owed, k) == Pending(s.banks[k])
    requires p.bank != k ==> t.banks[k] == s.banks[k]
    requires var b := t.banks[p.bank];
          s.banks[p.bank].st == Idle && b.outq == s.banks[p.bank].outq
          && b.st == (if r.mask == NONE then Read0 else Write0) && (r.mask == NONE ==> b.want == At(s.flat, p))
    requires t.tagQ == s.tagQ + (if r.mask == NONE then [p.bank] else [])
    requires t.owed == s.owed + (if r.mask == NONE then [At(s.flat, p)] else [])
    ensures For(t.tagQ, t.owed, k) == Pending(t.banks[k])
  {
    hide For;
    ForSnoc(s.tagQ, s.owed, p.bank, At(s.flat, p), k);
    assert r.mask != NONE ==> t.tagQ == s.tagQ && t.owed == s.owed;
  }

  lemma {:induction false} AcceptAgrees(s: State, t: State, r: Request, p: Place, q: Place)
    requires Shape(s) && Shape(t) && p.bank < BANKS && q.bank < BANKS && Agrees(s, q) && s.banks[p.bank].st == Idle
    requires p.bank != q.bank ==> t.banks[q.bank] == s.banks[q.bank]
    requires var k := t.banks[p.bank];
          k.row == p.row && k.col == p.col && k.data == r.data && k.mask == r.mask
          && k.st == if r.mask == NONE then Read0 else Write0
    requires t.chip == s.chip
    requires t.flat == if r.mask == NONE then s.flat else s.flat[p := Merge(At(s.flat, p), r.data, r.mask)]
    ensures Agrees(t, q)
  {
    hide Merge, MergeHigh;
  }

  lemma {:induction false} ReadFrame(s: State, b: nat)
    requires Shape(s) && b < BANKS
    ensures var t := ReadState(s, b);
            var w := At(s.chip, Where(s, b));
            && Shape(t) && t.chip == s.chip && t.flat == s.flat && t.tagQ == s.tagQ && t.owed == s.owed
            && t.bus == s.bus[s.now + 3 := [w[0], w[1]]][s.now + 4 := [w[2], w[3]]]
            && t.banks == s.banks[b := s.banks[b].(st := Read1, since := s.now)]
  {
  }

  /** Banks whose request and chip contents are the same agree as before. */
  lemma {:induction false} AgreesKept(s: State, t: State, q: Place)
    requires Shape(s) && Shape(t) && q.bank < BANKS && Agrees(s, q) && t.chip == s.chip && t.flat == s.flat
    requires var k, l := s.banks[q.bank], t.banks[q.bank];
             l == k || (k.st != Write0 && k.st != Write1 && l.st != Write0 && l.st != Write1)
    ensures Agrees(t, q)
  {
    hide Merge, MergeHigh;
  }

  /** The halves driven for one read do not disturb those of another. */
  lemma {:induction false} ReadReads(s: State, t: State, b: nat, k: nat)
    requires Shape(s) && Shape(t) && b < BANKS && k < BANKS && ReadInv(s, k) && BankInv(s, k) && s.delays.rd == 0
    requires s.banks[b].st == Read0 && At(s.flat, Where(s, b)) == At(s.chip, Where(s, b)) && t.flat == s.flat
    requires var w := At(s.chip, Where(s, b)); t.bus == s.bus[s.now + 3 := [w[0], w[1]]][s.now + 4 := [w[2], w[3]]]
    requires t.banks == s.banks[b := s.banks[b].(st := Read1, since := s.now)]
    ensures ReadInv(t, k) && Pending(t.banks[k]) == Pending(s.banks[k])
  {
  }

  /** The chip drives the word the bank wants, and nothing else that is waited for. */
  lemma {:induction false} ReadData(s: State, b: nat)
    requires Control(s) && Data(s) && Enabled(s, DoRead(b))
    ensures Data(ReadState(s, b))
  {
    ReadFrame(s, b);
    assert Agrees(s, Where(s, b));
    var t := ReadState(s, b);
    forall k | 0 <= k < BANKS
      ensures BankInv(s, k)
    {
    }
    hide Control, ReadState, For, Merge, MergeHigh, ReadInv, BankInv, Pending;
    assert At(s.flat, Where(s, b)) == At(s.chip, Where(s, b));
    hide Agrees;
    forall q: Place | q.bank < BANKS
      ensures Agrees(t, q)
    {
      AgreesKept(s, t, q);
    }
    forall k | 0 <= k < BANKS
      ensures ReadInv(t, k) && Pending(t.banks[k]) == Pending(s.banks[k])
    {
      ReadReads(s, t, b, k);
    }
  }

  lemma {:induction false} WriteFrame(s: State, b: nat)
    requires Shape(s) && b < BANKS
    ensures var t := WriteState(s, b);
            var p, k := Where(s, b), s.banks[b];
            && Shape(t) && t.flat == s.flat && t.tagQ == s.tagQ && t.owed == s.owed && t.bus == s.bus
            && t.chip == s.chip[p := MergeLow(At(s.chip, p), k.data, k.mask)]
            && t.banks == s.banks[b := k.(st := Write1, since := s.now)]
  {
    hide MergeLow, At;
  }

  lemma {:induction false} WriteData(s: State, b: nat)
    requires Shape(s) && Data(s) && Enabled(s, DoWrite(b))
    ensures Data(WriteState(s, b))
  {
    hide Merge, MergeLow, MergeHigh, WriteState, For, OnBus;
    var t := WriteState(s, b);
    var p := Where(s, b);
    WriteFrame(s, b);
    TwoHalves(At(s.chip, p), s.banks[b].data, s.banks[b].mask);
    forall q: Place | q.bank < BANKS
      ensures Agrees(t, q)
    {
      assert Agrees(s, q);
    }
    forall k | 0 <= k < BANKS
      ensures ReadInv(t, k) && Pending(t.banks[k]) == Pending(s.banks[k])
    {
      assert ReadInv(s, k);
    }
  }

  /** The read takes from the bus the two halves that the chip drove for it. */
  lemma {:induction false} FinishReadBank(s: State, b: nat)
    requires Shape(s) && b < BANKS && BankInv(s, b) && ReadInv(s, b) && s.delays.bank[b] == 0 && s.banks[b].st == Read1
    ensures var t := FinishRead(s, b);
            && Shape(t) && t.bus == s.bus && t.flat == s.flat && t.chip == s.chip && t.tagQ == s.tagQ
                  && t.owed == s.owed
            && t.banks == s.banks[b := s.banks[b].(st := Idle, outq := s.banks[b].outq + [s.banks[b].want])]
  {
    var w := s.banks[b].want;
    assert w == [w[0], w[1], w[2], w[3]];
  }

  lemma {:induction false} FinishReadData(s: State, b: nat)
    requires Shape(s) && Data(s) && b < BANKS && BankInv(s, b) && s.delays.bank[b] == 0 && s.banks[b].st == Read1
    ensures Shape(FinishRead(s, b)) && Data(FinishRead(s, b))
  {
    assert ReadInv(s, b);
    FinishReadBank(s, b);
    var t := FinishRead(s, b);
    assert Pending(t.banks[b]) == Pending(s.banks[b]);
    hide FinishRead, For, Agrees, BankInv;
    forall q: Place | q.bank < BANKS
      ensures Agrees(t, q)
    {
      AgreesKept(s, t, q);
    }
    forall k | 0 <= k < BANKS
      ensures ReadInv(t, k) && Pending(t.banks[k]) == Pending(s.banks[k])
    {
      assert ReadInv(s, k);
    }
  }

  lemma {:induction false} FinishWriteFrame(s: State, b: nat)
    requires Shape(s) && b < BANKS
    ensures var t := FinishWrite(s, b);
            var p := Where(s, b);
            && Shape(t) && t.bus == s.bus && t.flat == s.flat && t.tagQ == s.tagQ && t.owed == s.owed
            && t.chip == s.chip[p := MergeHigh(At(s.chip, p), s.banks[b].data, s.banks[b].mask)]
            && t.banks == s.banks[b := s.banks[b].(st := Idle)]
  {
  }

  lemma {:induction false} FinishWriteData(s: State, b: nat)
    requires Shape(s) && Data(s) && b < BANKS && s.banks[b].st == Write1
    ensures Shape(FinishWrite(s, b)) && Data(FinishWrite(s, b))
  {
    FinishWriteFrame(s, b);
    var t := FinishWrite(s, b);
    hide FinishWrite, For, Merge, MergeHigh;
    forall q: Place | q.bank < BANKS
      ensures Agrees(t, q)
    {
      assert Agrees(s, q);
    }
    forall k | 0 <= k < BANKS
      ensures ReadInv(t, k) && Pending(t.banks[k]) == Pending(s.banks[k])
    {
      assert ReadInv(s, k);
    }
  }

  lemma {:induction false} SecondData(s: State, b: nat)
    requires Shape(s) && Data(s) && b < BANKS && BankInv(s, b)
    ensures Shape(SecondHalf(s, b)) && Data(SecondHalf(s, b))
  {
    hide FinishRead, FinishWrite, Data, BankInv;
    if s.delays.bank[b] == 0 {
      if s.banks[b].st == Read1 {
        FinishReadData(s, b);
      } else if s.banks[b].st == Write1 {
        FinishWriteData(s, b);
      }
    }
  }

  lemma {:induction false} SecondsData(s: State, n: nat)
    requires Control(s) && Data(s) && n <= BANKS
    ensures Data(SecondHalves(s, n))
    decreases n
  {
    HasShape(s);
    hide Control, Data, SecondHalf;
    if n > 0 {
      SecondsControl(s, n - 1);
      SecondsData(s, n - 1);
      BankOf(SecondHalves(s, n - 1), n - 1);
      SecondData(SecondHalves(s, n - 1), n - 1);
    }
  }

  lemma {:induction false} BankOf(s: State, b: nat)
    requires Control(s) && b < BANKS
    ensures Shape(s) && BankInv(s, b)
  {
  }

  lemma {:induction false} TickData(s: State)
    requires Control(s) && Data(s)
    ensures Data(TickState(s))
  {
    HasShape(s);
    hide Control, Data, SecondHalf, SecondHalves, Counted;
    SecondsData(s, BANKS);
    CountedKeeps(SecondHalves(s, BANKS));
    SameData(SecondHalves(s, BANKS), TickState(s));
  }

  lemma {:induction false} OtherData(s: State, e: Event)
    requires Shape(s) && Data(s) && Enabled(s, e)
    requires e.Put? || e.ToPrecharge? || e.DoActivate? || e.DoClose? || e.DoCloseAll? || e.DoRefresh? || e.DoModeSet?
    ensures Data(Apply(s, e))
  {
    hide Data, MustRefresh;
    SameData(s, Apply(s, e));
  }

  lemma {:induction false} ApplyIs(s: State, e: Event)
    requires Shape(s) && Enabled(s, e)
    ensures e.Accept? ==> Apply(s, e) == AcceptState(s)
    ensures e.Get? ==> Apply(s, e) == GetState(s)
    ensures e.DoRead? ==> e.b < BANKS && Apply(s, e) == ReadState(s, e.b)
    ensures e.DoWrite? ==> e.b < BANKS && Apply(s, e) == WriteState(s, e.b)
    ensures e.Tick? ==> Apply(s, e) == TickState(s)
  {
    hide TickState, ReadState, WriteState, AcceptState, GetState, ActivateState, CloseState, CloseAllState,
         RefreshState, ModeSetState;
  }

  lemma {:induction false} StepData(s: State, e: Event)
    requires Control(s) && Shape(s) && Data(s) && Enabled(s, e) && Shape(Apply(s, e))
    ensures Data(Apply(s, e))
  {
    ApplyIs(s, e);
    hide Control, Data, TickState, ReadState, WriteState, AcceptState, GetState, Apply, Enabled;
    match e {
      case Accept => AcceptData(s);
      case Get => GetData(s);
      case DoRead(b) => ReadData(s, b);
      case DoWrite(b) => WriteData(s, b);
      case Tick => TickData(s);
      case _ => OtherData(s, e);
    }
  }

  lemma {:induction false} ShapeKept(s: State, e: Event)
    requires Control(s) && Shape(s) && Enabled(s, e) && Control(Apply(s, e))
    ensures Shape(Apply(s, e))
  {
    hide Apply, Enabled;
  }

  /** Every rule keeps the invariant. */
  lemma {:induction false} StepKeeps(s: State, e: Event)
    requires Inv(s) && Enabled(s, e)
    ensures Inv(Apply(s, e))
  {
    HasShape(s);
    hide Control, Data, Apply, Enabled;
    StepControl(s, e);
    ShapeKept(s, e);
    StepData(s, e);
  }

  lemma {:induction false} ResetHolds(initCycles: nat, refreshCycles: nat, memory: map<Place, Word>)
    ensures Inv(Reset(initCycles, refreshCycles, memory))
  {
    var s := Reset(initCycles, refreshCycles, memory);
    forall k | 0 <= k < BANKS
      ensures BankInv(s, k) && ReadInv(s, k)
    {
    }
    forall p: Place | p.bank < BANKS
      ensures Agrees(s, p)
    {
    }
  }

  // ----- runs

  /** The rules fired one after another from reset. */
  ghost predicate Run(ss: seq<State>, es: seq<Event>, initCycles: nat, refreshCycles: nat, memory: map<Place, Word>) {
    && |ss| == |es| + 1
    && ss[0] == Reset(initCycles, refreshCycles, memory)
    && forall i :: 0 <= i < |es| ==> Shape(ss[i]) && Enabled(ss[i], es[i]) && ss[i + 1] == Apply(ss[i], es[i])
  }

  /** What the user sees: requests in the order they reach their banks, and responses. */
  datatype Seen = Accepted(r: Request) | Got(word: Word)

  function Shows(s: State, e: Event): seq<Seen>
    requires Shape(s) && Enabled(s, e)
  {
    match e
    case Accept => [Accepted(s.inputQ[0])]
    case Get => [Got(s.banks[s.tagQ[0]].outq[0])]
    case _ => []
  }

  /** What a run shows. */
  function History(ss: seq<State>, es: seq<Event>): seq<Seen>
    requires |ss| == |es| + 1 && forall i :: 0 <= i < |es| ==> Shape(ss[i]) && Enabled(ss[i], es[i])
    decreases |es|
  {
    if es == [] then []
    else
      var n := |es| - 1;
      History(ss[..n + 1], es[..n]) + Shows(ss[n], es[n])
  }

  /** The requests the user put, in order. */
  function PutBy(es: seq<Event>): seq<Request> {
    if es == [] then []
    else PutBy(es[..|es| - 1]) + match es[|es| - 1] case Put(r) => [r] case _ => []
  }

  /** The user's memory, and the words its reads are still owed, after a history; nothing
      when some response was not the word that was owed next. */
  function Replay(m: map<Place, Word>, seen: seq<Seen>): Option<(map<Place, Word>, seq<Word>)> {
    if seen == [] then Some((m, []))
    else
      var before := Replay(m, seen[..|seen| - 1]);
      if before.None? then None
      else
        var (flat, owed) := before.value;
        match seen[|seen| - 1]
        case Accepted(r) =>
          var p := PlaceOf(r.addr);
          if r.mask == NONE then Some((flat, owed + [At(flat, p)]))
                else Some((flat[p := Merge(At(flat, p), r.data, r.mask)], owed))
        case Got(word) => if owed != [] && owed[0] == word then Some((flat, owed[1..])) else None
  }

  function Requests(seen: seq<Seen>): seq<Request> {
    if seen == [] then []
    else Requests(seen[..|seen| - 1]) + match seen[|seen| - 1] case Accepted(r) => [r] case Got(_) => []
  }

  /** In every run, whatever the requests and whichever enabled rules fire: the commands
      are legal for the chip, requests are performed in the order they were put, and each
      response is the word last written. */
  lemma {:induction false} EveryRun(ss: seq<State>, es: seq<Event>, initCycles: nat, refreshCycles: nat,
        memory: map<Place, Word>)
    requires Run(ss, es, initCycles, refreshCycles, memory)
    ensures forall i :: 0 <= i < |ss| ==> Inv(ss[i]) && Legal(ss[i].log)
    ensures Replay(memory, History(ss, es)) == Some((ss[|es|].flat, ss[|es|].owed))
    ensures Requests(History(ss, es)) + ss[|es|].inputQ == PutBy(es)
    decreases |es|
  {
    hide Inv, Shape, Enabled, Apply, Legal, Shows, Reset, Replay, Requests;
    if es == [] {
      ResetHolds(initCycles, refreshCycles, memory);
      AtReset(initCycles, refreshCycles, memory);
    } else {
      var n := |es| - 1;
      EveryRun(ss[..n + 1], es[..n], initCycles, refreshCycles, memory);
      assert ss[..n + 1][n] == ss[n];
      StepKeeps(ss[n], es[n]);
      StepShows(ss[n], es[n], memory, History(ss[..n + 1], es[..n]));
    }
    InvGives(ss[|es|]);
  }

  lemma {:induction false} InvGives(s: State)
    requires Inv(s)
    ensures Shape(s) && Legal(s.log)
  {
    hide Data, Legal;
  }

  lemma {:induction false} AtReset(initCycles: nat, refreshCycles: nat, memory: map<Place, Word>)
    ensures var s := Reset(initCycles, refreshCycles, memory); s.flat == memory && s.owed == [] && s.inputQ == []
    ensures Replay(memory, []) == Some((memory, [])) && Requests([]) == []
  {
  }

  /** A request reaches its bank. */
  predicate Takes(s: State, t: State)
    requires s.inputQ != []
  {
    var r := s.inputQ[0];
    var p := PlaceOf(r.addr);
    && t.inputQ == s.inputQ[1..]
    && if r.mask == NONE then t.flat == s.flat && t.owed == s.owed + [At(s.flat, p)]
       else t.flat == s.flat[p := Merge(At(s.flat, p), r.data, r.mask)] && t.owed == s.owed
  }

  predicate SameMemory(s: State, t: State) {
    t.flat == s.flat && t.owed == s.owed
  }

  lemma {:induction false} AcceptTakes(s: State)
    requires Shape(s) && Enabled(s, Accept)
    ensures Takes(s, AcceptState(s))
  {
    hide Merge, PlaceOf, MustRefresh;
  }

  lemma {:induction false} OthersKeep(s: State, e: Event)
    requires Shape(s) && Enabled(s, e) && !e.Accept? && !e.Get? && !e.Tick?
    ensures SameMemory(s, Apply(s, e)) && Apply(s, e).inputQ == s.inputQ + match e case Put(r) => [r] case _ => []
  {
    hide Merge, PlaceOf, MustRefresh;
  }

  lemma {:induction false} ReplayAppend(memory: map<Place, Word>, seen: seq<Seen>, x: Seen)
    requires Replay(memory, seen).Some?
    ensures var (flat, owed) := Replay(memory, seen).value;
            match x
            case Accepted(r) =>
              var p := PlaceOf(r.addr);
              && Requests(seen + [x]) == Requests(seen) + [r]
              && Replay(memory, seen + [x]) == Some(if r.mask == NONE then (flat, owed + [At(flat, p)])
                                                    else (flat[p := Merge(At(flat, p), r.data, r.mask)], owed))
            case Got(word) =>
              && Requests(seen + [x]) == Requests(seen)
              && (owed != [] && owed[0] == word ==> Replay(memory, seen + [x]) == Some((flat, owed[1..])))
  {
    hide Merge, PlaceOf;
    assert (seen + [x])[..|seen|] == seen;
  }

  /** What a step from `s` to `t` shows, and puts, accounts for its changes of the
      user's memory, of the words owed and of the input queue. */
  predicate Accounts(memory: map<Place, Word>, seen: seq<Seen>, step: seq<Seen>, put: seq<Request>, s: State,
        t: State) {
    && Replay(memory, seen + step) == Some((t.flat, t.owed))
    && Requests(seen + step) + t.inputQ == Requests(seen) + s.inputQ + put
  }

  lemma {:induction false} AcceptShows(s: State, memory: map<Place, Word>, seen: seq<Seen>)
    requires Shape(s) && Enabled(s, Accept) && Replay(memory, seen) == Some((s.flat, s.owed))
    ensures Accounts(memory, seen, [Accepted(s.inputQ[0])], [], s, AcceptState(s))
  {
    AcceptTakes(s);
    ReplayAppend(memory, seen, Accepted(s.inputQ[0]));
    hide Replay, Requests, AcceptState, Merge, PlaceOf;
  }

  lemma {:induction false} GetShows(s: State, memory: map<Place, Word>, seen: seq<Seen>)
    requires Shape(s) && Data(s) && Enabled(s, Get) && Replay(memory, seen) == Some((s.flat, s.owed))
    ensures Accounts(memory, seen, [Got(s.banks[s.tagQ[0]].outq[0])], [], s, GetState(s))
  {
    GetReturnsOwed(s);
    GetTakes(s);
    ReplayAppend(memory, seen, Got(s.banks[s.tagQ[0]].outq[0]));
    hide Replay, Requests, GetState, Data;
  }

  lemma {:induction false} NothingShows(s: State, t: State, put: seq<Request>, memory: map<Place, Word>,
        seen: seq<Seen>)
    requires Replay(memory, seen) == Some((s.flat, s.owed)) && SameMemory(s, t) && t.inputQ == s.inputQ + put
    ensures Accounts(memory, seen, [], put, s, t)
  {
    hide Replay, Requests;
    assert seen + [] == seen;
  }

  lemma {:induction false} StepShows(s: State, e: Event, memory: map<Place, Word>, seen: seq<Seen>)
    requires Inv(s) && Shape(s) && Enabled(s, e) && Replay(memory, seen) == Some((s.flat, s.owed))
    ensures Accounts(memory, seen, Shows(s, e), match e case Put(r) => [r] case _ => [], s, Apply(s, e))
  {
    ApplyIs(s, e);
    InvParts(s);
    hide Inv, Control, Data, Apply, Enabled, Replay, Accounts, SameMemory, Shape, AcceptState, GetState, TickState;
    match e
    case Accept => AcceptShows(s, memory, seen);
    case Get => GetShows(s, memory, seen);
    case Tick =>
      TickShows(s);
      NothingShows(s, TickState(s), [], memory, seen);
    case _ =>
      OthersKeep(s, e);
      NothingShows(s, Apply(s, e), match e case Put(r) => [r] case _ => [], memory, seen);
  }

  lemma {:induction false} InvParts(s: State)
    requires Inv(s)
    ensures Control(s) && Data(s)
  {
    hide Control, Data;
  }

  lemma {:induction false} GetTakes(s: State)
    requires Shape(s) && Enabled(s, Get) && s.owed != []
    ensures var t := GetState(s); t.flat == s.flat && t.owed == s.owed[1..] && t.inputQ == s.inputQ
  {
  }

  lemma {:induction false} TickShows(s: State)
    requires Control(s)
    ensures SameMemory(s, TickState(s)) && TickState(s).inputQ == s.inputQ
  {
    HasShape(s);
    hide Control, SecondHalves, Counted;
    SecondsShow(s, BANKS);
    CountedKeeps(SecondHalves(s, BANKS));
  }

  lemma {:induction false} SecondsShow(s: State, n: nat)
    requires Shape(s) && n <= BANKS
    ensures var t := SecondHalves(s, n); t.flat == s.flat && t.owed == s.owed && t.inputQ == s.inputQ
    decreases n
  {
    if n > 0 {
      SecondsShow(s, n - 1);
    }
  }

  /** Word addresses are the same place of the memory exactly when their low 23 bits are
      the same. */
  lemma {:induction false} PlacesAreWords(a: Addr, b: Addr)
    ensures PlaceOf(a) == PlaceOf(b) <==> a % 0x80_0000 == b % 0x80_0000
  {
    hide PlaceOf;
    Slices(a);
    Slices(b);
    if a % 0x80_0000 == b % 0x80_0000 {
      SameSlices(PlaceOf(a), PlaceOf(b));
    }
  }

  lemma {:induction false} SameSlices(p: Place, q: Place)
    requires p.col % 2 == 0 && q.col % 2 == 0 && p.col < 512 && q.col < 512 && p.bank < 4 && q.bank < 4
    requires 1024 * p.row + 2 * p.col + p.bank == 1024 * q.row + 2 * q.col + q.bank
    ensures p == q
  {
    assert p.row == q.row;
    assert p.col == q.col;
  }

  lemma {:induction false} Slices(a: Addr)
    ensures a % 0x80_0000 == 1024 * PlaceOf(a).row + 2 * PlaceOf(a).col + PlaceOf(a).bank && PlaceOf(a).col % 2 == 0
    ensures PlaceOf(a).col < 512 && PlaceOf(a).bank < 4
  {
    assert a == 4 * (a / 4) + a % 4;
    assert a / 4 == 256 * (a / 1024) + a / 4 % 256;
    assert a / 1024 == 8192 * (a / 1024 / 8192) + a / 1024 % 8192;
  }
}
