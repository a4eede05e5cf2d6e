/** src/SDRAM.bsv: the bank controllers, the delay counters, and the machine that
    initialises, precharges and refreshes, one rule at a time. A cycle is what happens
    between two ticks; at most one command is sent in a cycle. */
module Sdram {
  import opened Wrappers
  import opened Words

  const BANKS := 4
  const T_RP := 3
  const T_MRD := 2
  const T_RCD := 3
  const T_RC := 9
  const T_CL := 3

  // ----- mkDelaySdram

  /** Cycles left before each bank, a read burst and a write burst may start. */
  datatype Delays = Delays(bank: seq<nat>, rd: nat, wr: nat)

  function Less(d: nat): nat {
    if d == 0 then 0 else d - 1
  }

  function Max(a: nat, b: nat): nat {
    if a < b then b else a
  }

  function Elapse(d: Delays): Delays {
    Delays(seq(|d.bank|, i requires 0 <= i < |d.bank| => Less(d.bank[i])), Less(d.rd), Less(d.wr))
  }

  function Send(d: Delays, b: nat, k: nat): Delays
    requires b < |d.bank|
  {
    d.(bank := d.bank[b := k])
  }

  function SendGlobal(d: Delays, k: nat): Delays {
    d.(bank := seq(|d.bank|, _ => k))
  }

  function ReadBus(d: Delays, rd: nat, wr: nat): Delays {
    d.(rd := rd, wr := Max(d.wr, wr))
  }

  function WriteBus(d: Delays, k: nat): Delays {
    d.(rd := Max(d.rd, k), wr := k)
  }

  predicate AllReady(d: Delays) {
    forall i :: 0 <= i < |d.bank| ==> d.bank[i] == 0
  }

  // ----- the state

  datatype Local = Idle | Read0 | Read1 | Write0 | Write1

  datatype Global = Init | Running | Precharge | Refresh | ModeSet

  /** A word of the memory: the even column holds its low half. */
  datatype Place = Place(bank: nat, row: nat, col: nat)

  /** A bank controller. `since` is the time of its last READ or WRITE and `want` what
      its read should return; both are for the proofs only. */
  datatype Bank = Bank(st: Local, open: Option<nat>, row: nat, col: nat, data: Word, mask: Strobes, outq: seq<Word>,
        since: nat, want: Word)

  datatype Request = Request(addr: Addr, data: Word, mask: Strobes)

  datatype Command =
    | Activate(bank: nat, row: nat) | Close(bank: nat) | ReadCol(bank: nat, row: nat, col: nat)
    | WriteCol(bank: nat, row: nat, col: nat)
    | CloseAll | AutoRefresh | LoadMode

  datatype Entry = Entry(time: nat, cmd: Command)

  /** Two halves of a word as they pass on the data bus. */
  type HalfWord = h: seq<Byte> | |h| == 2 witness [0, 0]

  /** The registers; the commands sent so far; the memory chip, and what it drives on the
      data bus at each time; the memory the user should see, and the words owed for the
      tags in `tagQ`. */
  datatype State = State(
    now: nat, sent: bool, global: Global, isInit: bool, counter: nat, initCycles: nat, refreshCycles: nat,
    delays: Delays, banks: seq<Bank>, inputQ: seq<Request>, tagQ: seq<nat>,
    log: seq<Entry>, chip: map<Place, Word>, bus: map<nat, HalfWord>, flat: map<Place, Word>, owed: seq<Word>)

  function At(m: map<Place, Word>, p: Place): Word {
    if p in m then m[p] else ZERO
  }

  function OnBus(bus: map<nat, HalfWord>, t: nat): HalfWord {
    if t in bus then bus[t] else [0, 0]
  }

  function MergeLow(w: Word, data: Word, mask: Strobes): Word {
    [if mask[0] then data[0] else w[0], if mask[1] then data[1] else w[1], w[2], w[3]]
  }

  function MergeHigh(w: Word, data: Word, mask: Strobes): Word {
    [w[0], w[1], if mask[2] then data[2] else w[2], if mask[3] then data[3] else w[3]]
  }

  /** `addr[1:0]`, `addr[22:10]` and `{addr[9:2], 1'b0}` of a word address. */
  function PlaceOf(addr: Addr): Place {
    Place(addr % 4, addr / 1024 % 8192, addr / 4 % 256 * 2)
  }

  function Where(s: State, b: nat): Place
    requires b < |s.banks|
  {
    Place(b, s.banks[b].row, s.banks[b].col)
  }

  predicate Shape(s: State) {
    |s.banks| == |s.delays.bank| == BANKS
  }

  function SetBank(s: State, b: nat, k: Bank): State
    requires b < |s.banks|
  {
    s.(banks := s.banks[b := k])
  }

  function Sent(s: State, cmd: Command): State {
    s.(log := s.log + [Entry(s.now, cmd)], sent := true)
  }

  predicate AllIdle(s: State) {
    forall b :: 0 <= b < |s.banks| ==> s.banks[b].st == Idle
  }

  predicate MustRefresh(s: State) {
    s.counter >= s.refreshCycles && AllIdle(s)
  }

  // ----- the rules

  datatype Event =
    | Put(r: Request) | Get | Accept | ToPrecharge
    | DoActivate(b: nat) | DoClose(b: nat) | DoRead(b: nat) | DoWrite(b: nat)
    | DoCloseAll | DoRefresh | DoModeSet | Tick

  predicate Enabled(s: State, e: Event)
    requires Shape(s)
  {
    match e
    case Put(_) => |s.inputQ| < 4
    case Get => s.tagQ != [] && s.tagQ[0] < BANKS && s.banks[s.tagQ[0]].outq != []
    case Accept =>
      && s.global == Running && s.inputQ != [] && !MustRefresh(s)
      && (var k := s.banks[s.inputQ[0].addr % 4]; k.st == Idle && |k.outq| < 2)
      && (s.inputQ[0].mask == NONE ==> |s.tagQ| < BANKS)
    case ToPrecharge => s.global == Running && MustRefresh(s)
    case DoActivate(b) => b < BANKS && !s.sent && s.banks[b].st != Idle && s.banks[b].open == None
          && s.delays.bank[b] == 0
    case DoClose(b) =>
      b < BANKS && !s.sent && s.banks[b].st != Idle && s.banks[b].open.Some?
            && s.banks[b].open.value != s.banks[b].row && s.delays.bank[b] == 0
    case DoRead(b) =>
      b < BANKS && !s.sent && s.banks[b].st == Read0 && s.banks[b].open == Some(s.banks[b].row)
            && s.delays.bank[b] == 0 && s.delays.rd == 0
    case DoWrite(b) =>
      b < BANKS && !s.sent && s.banks[b].st == Write0 && s.banks[b].open == Some(s.banks[b].row)
            && s.delays.bank[b] == 0 && s.delays.wr == 0
    case DoCloseAll => !s.sent && s.global == Precharge && AllReady(s.delays)
    case DoRefresh => !s.sent && s.global == Refresh && AllReady(s.delays)
    case DoModeSet => !s.sent && s.global == ModeSet && AllReady(s.delays)
    case Tick => true
  }

  const NONE: Strobes := [false, false, false, false]

  function GetState(s: State): State
    requires Shape(s) && Enabled(s, Get)
  {
    var b := s.tagQ[0];
    var k := s.banks[b];
    SetBank(s, b, k.(outq := k.outq[1..])).(tagQ := s.tagQ[1..], owed := if s.owed == [] then [] else s.owed[1..])
  }

  /** Rule `idle`: the request at the head of the queue goes to its bank. The user's
      memory changes here, and the word a read will return is fixed here. */
  function AcceptState(s: State): State
    requires Shape(s) && Enabled(s, Accept)
  {
    var r := s.inputQ[0];
    var p := PlaceOf(r.addr);
    var k := s.banks[p.bank].(data := r.data, mask := r.mask, row := p.row, col := p.col);
    if r.mask == NONE then
      SetBank(s, p.bank, k.(st := Read0, want := At(s.flat, p)))
      .(inputQ := s.inputQ[1..], tagQ := s.tagQ + [p.bank], owed := s.owed + [At(s.flat, p)])
    else
      SetBank(s, p.bank, k.(st := Write0))
      .(inputQ := s.inputQ[1..], flat := s.flat[p := Merge(At(s.flat, p), r.data, r.mask)])
  }

  function ActivateState(s: State, b: nat): State
    requires Shape(s) && b < BANKS
  {
    var k := s.banks[b];
    Sent(SetBank(s, b, k.(open := Some(k.row))), Activate(b, k.row)).(delays := Send(s.delays, b, T_RCD))
  }

  function CloseState(s: State, b: nat): State
    requires Shape(s) && b < BANKS
  {
    Sent(SetBank(s, b, s.banks[b].(open := None)), Close(b)).(delays := Send(s.delays, b, T_RP))
  }

  /** READ: the chip drives the two halves three and four cycles later. */
  function ReadState(s: State, b: nat): State
    requires Shape(s) && b < BANKS
  {
    var k := s.banks[b];
    var w := At(s.chip, Where(s, b));
    Sent(SetBank(s, b, k.(st := Read1, since := s.now)), ReadCol(b, k.row, k.col))
    .(delays := ReadBus(Send(s.delays, b, T_CL + 2), 2, T_CL + 2),
      bus := s.bus[s.now + T_CL := [w[0], w[1]]][s.now + T_CL + 1 := [w[2], w[3]]])
  }

  /** WRITE: the low half is on the data bus in the same cycle. */
  function WriteState(s: State, b: nat): State
    requires Shape(s) && b < BANKS
  {
    var k := s.banks[b];
    var p := Where(s, b);
    Sent(SetBank(s, b, k.(st := Write1, since := s.now)), WriteCol(b, k.row, k.col))
    .(delays := WriteBus(Send(s.delays, b, 1), 2), chip := s.chip[p := MergeLow(At(s.chip, p), k.data, k.mask)])
  }

  function ClosedBanks(banks: seq<Bank>): (r: seq<Bank>)
    ensures |r| == |banks| && forall b :: 0 <= b < |banks| ==> r[b] == banks[b].(open := None)
  {
    seq(|banks|, b requires 0 <= b < |banks| => banks[b].(open := None))
  }

  function CloseAllState(s: State): State {
    Sent(s, CloseAll)
    .(global := if s.isInit then Refresh else ModeSet,
      delays := SendGlobal(s.delays, T_RP), banks := ClosedBanks(s.banks))
  }

  function RefreshState(s: State): State {
    Sent(s, AutoRefresh)
    .(global := if s.isInit then Running else s.global, delays := SendGlobal(s.delays, T_RC), isInit := true)
  }

  function ModeSetState(s: State): State {
    Sent(s, LoadMode).(global := Refresh, delays := SendGlobal(s.delays, T_MRD))
  }

  /** Rule `read1`: the last two halves that passed on the bus. */
  function FinishRead(s: State, b: nat): State
    requires Shape(s) && b < BANKS
  {
    var k := s.banks[b];
    var lo, hi := OnBus(s.bus, if s.now >= 2 then s.now - 2 else 0), OnBus(s.bus, if s.now >= 1 then s.now - 1 else 0);
    SetBank(s, b, k.(st := Idle, outq := k.outq + [[lo[0], lo[1], hi[0], hi[1]]])).(delays := Send(s.delays, b, 1))
  }

  /** Rule `write1`: the high half. */
  function FinishWrite(s: State, b: nat): State
    requires Shape(s) && b < BANKS
  {
    var k := s.banks[b];
    var p := Where(s, b);
    SetBank(s, b, k.(st := Idle))
    .(delays := Send(s.delays, b, T_CL), chip := s.chip[p := MergeHigh(At(s.chip, p), k.data, k.mask)])
  }

  /** Nothing can hold these two rules back: they fire in the first cycle in which the
      bank's delay is over. */
  function SecondHalf(s: State, b: nat): State
    requires Shape(s) && b < BANKS
  {
    if s.delays.bank[b] != 0 then s
    else if s.banks[b].st == Read1 then FinishRead(s, b)
    else if s.banks[b].st == Write1 then FinishWrite(s, b)
    else s
  }

  lemma {:induction false} SecondHalfShape(s: State, b: nat)
    requires Shape(s) && b < BANKS
    ensures Shape(SecondHalf(s, b))
  {
  }

  function SecondHalves(s: State, n: nat): (r: State)
    requires Shape(s) && n <= BANKS
    ensures Shape(r)
  {
    if n == 0 then s else
      SecondHalfShape(SecondHalves(s, n - 1), n - 1);
      SecondHalf(SecondHalves(s, n - 1), n - 1)
  }

  /** Rules `init` and `count`. */
  function Counted(s: State): State {
    if s.global == Init then
      if (s.counter + 1) % 0x1_0000 >= s.initCycles then s.(global := Precharge, counter := 0)
            else s.(counter := (s.counter + 1) % 0x1_0000)
    else if s.isInit then s.(counter := if s.global == Refresh then 0 else (s.counter + 1) % 0x1_0000)
    else s
  }

  function TickState(s: State): State
    requires Shape(s)
  {
    var t := Counted(SecondHalves(s, BANKS));
    t.(now := s.now + 1, sent := false, delays := Elapse(t.delays))
  }

  function Apply(s: State, e: Event): State
    requires Shape(s) && Enabled(s, e)
  {
    match e
    case Put(r) => s.(inputQ := s.inputQ + [r])
    case Get => GetState(s)
    case Accept => AcceptState(s)
    case ToPrecharge => s.(global := Precharge)
    case DoActivate(b) => ActivateState(s, b)
    case DoClose(b) => CloseState(s, b)
    case DoRead(b) => ReadState(s, b)
    case DoWrite(b) => WriteState(s, b)
    case DoCloseAll => CloseAllState(s)
    case DoRefresh => RefreshState(s)
    case DoModeSet => ModeSetState(s)
    case Tick => TickState(s)
  }

  function Reset(initCycles: nat, refreshCycles: nat, memory: map<Place, Word>): State {
    State(0, false, Init, false, 0, initCycles, refreshCycles, Delays([0, 0, 0, 0], 0, 0),
          seq(BANKS, _ => Bank(Idle, None, 0, 0, ZERO, NONE, [], 0, ZERO)), [], [], [], memory, map[], memory, [])
  }
}
