/** A run of the core that leaves the sequential machine: `execute_direct` fires for
    an instruction with a decode exception and takes the operands of the system
    instruction behind it, which later executes with those of the next one. */
module CoreWitness {
  import opened Words
  import opened Wrappers
  import opened Isa
  import opened Core
  import opened CoreTheorems
  import R = RenamingSpec

  const ONE: Word := [1, 0, 0, 0]

  // `x1 := 1` mispredicted, an illegal instruction on the wrong path, then
  // `x2 := x0` and a use of `x1`, both executed at the head
  const SET := Instr(Compute, 1, 0, 0, 0)
  const ILLEGAL := Instr(Fault(2), 0, 0, 0, 0)
  const COPY := Instr(System, 2, 0, 0, 0)
  const USE := Instr(System, 0, 1, 0, 0)

  const SET_AT := Decoded(0, 100, SET, 0)
  const ILLEGAL_AT := Decoded(100, 104, ILLEGAL, 0)
  const COPY_AT := Decoded(4, 8, COPY, 1)
  const USE_AT := Decoded(8, 12, USE, 1)

  const SET_IN := Entry(SET_AT, 32, 0, 0)
  const ILLEGAL_IN := Entry(ILLEGAL_AT, 0, 0, 0)
  const COPY_IN := Entry(COPY_AT, 1, 0, 0)
  const USE_IN := Entry(USE_AT, 0, 32, 0)

  const TRAP := Error(2, 100)
  const DONE := Ok(ONE, 4, false)
  const WRONG := Ok(ONE, 8, false)

  /** A system instruction returns its first operand. */
  function Example(): Machine {
    Machine(
      (pc: Addr) => if pc == 0 then SET else if pc == 4 then COPY else if pc == 8 then USE else ILLEGAL,
      (i: Instr, pc: Addr, v1: Word, v2: Word) => Ok(ONE, Next(pc), false),
      (i: Instr, v: Word) => 0,
      (i: Instr, pc: Addr, v1: Word, v2: Word, csr: Csr) => (Ok(v1, Next(pc), false), csr),
      (csr: Csr, pc: Addr, interrupt: bool, cause: nat, tval: Addr) => (csr, 0),
      (csr: Csr) => csr)
  }

  /** The core and the sequential machine, from reset, one rule after another. */
  ghost predicate Reaches(m: Machine, c: State, a: Arch) {
    exists cs: seq<State>, es: seq<Event>, archs: seq<Arch> ::
      Together(m, cs, es, archs) && cs[|cs| - 1] == c && archs[|archs| - 1] == a
  }

  ghost predicate Together(m: Machine, cs: seq<State>, es: seq<Event>, archs: seq<Arch>) {
    && |cs| == |es| + 1 == |archs|
    && Run(m, cs, es, 0, map[], map[])
    && archs[0] == Arch(0, seq(32, (i: nat) => ZERO), map[], map[])
    && forall i :: 0 <= i < |es| ==> Isa.Valid(archs[i]) && archs[i + 1] == ArchAfter(m, cs[i], archs[i], es[i])
  }

  lemma {:induction false} ReachesInit(m: Machine)
    ensures Reaches(m, Init(0, map[], map[]), Arch(0, seq(32, (i: nat) => ZERO), map[], map[]))
  {
    hide Init;
    assert Together(m, [Init(0, map[], map[])], [], [Arch(0, seq(32, (i: nat) => ZERO), map[], map[])]);
  }

  lemma {:induction false} ReachesNext(m: Machine, c: State, a: Arch, e: Event)
    requires Reaches(m, c, a) && Shape(c) && Enabled(m, c, e) && Isa.Valid(a)
    ensures Reaches(m, Apply(m, c, e), ArchAfter(m, c, a, e))
  {
    hide Shape, Enabled, Apply, ArchAfter, Init;
    var cs, es, archs :| Together(m, cs, es, archs) && cs[|cs| - 1] == c && archs[|archs| - 1] == a;
    assert Together(m, cs + [Apply(m, c, e)], es + [e], archs + [ArchAfter(m, c, a, e)]);
  }

  // ----- the states of the run

  /** Values of the registers: zero, but for `x1` and then its copy. */
  function Values(k: nat): (r: seq<Word>)
    ensures |r| == R.PHYS_REGS
  {
    var zero := seq(R.PHYS_REGS, (i: nat) => ZERO);
    if k == 0 then zero else if k == 1 then zero[32 := ONE] else zero[32 := ONE][1 := ONE]
  }

  /** A state with nothing in the load/store unit. */
  function At(epoch: nat, base: nat, log: seq<Entry>, names: nat, values: nat, front: Front, iq: map<nat, (bool, bool)>,
              fu: map<nat, Result>, results: map<nat, Result>, direct: seq<(nat, nat)>): State
  {
    State(epoch, base, log, Names(names), Values(values), front, iq, fu, results, direct,
          Lsu([], [], [], [], [], [], [], map[]), {}, map[])
  }

  function Names(k: nat): (t: R.Table)
    ensures R.Shape(t)
  {
    if k == 0 then R.Initial()
    else if k == 1 then R.Allocate(R.Initial(), 1)
    else if k == 2 then R.Wakeup(Names(1), 32)
    else if k == 3 then R.Commit(Names(2), 1, 32, true, true)
    else if k == 4 && |Names(3).free| > 0 then R.Allocate(Names(3), 2)
    else if k == 5 then R.Wakeup(Names(4), 1)
    else if k == 6 then R.Commit(Names(5), 2, 1, true, false)
    else R.Initial()
  }

  lemma {:induction false} NamesHold()
    ensures forall k :: 0 <= k <= 4 ==> |Names(k).free| > 1
    ensures forall k :: 0 <= k <= 5 ==> R.NameOf(Names(k), 0) == 0
    ensures R.Allocated(Names(0), 1) == 32 && Names(1) == R.Allocate(Names(0), 1) && Names(0).busy == {}
    ensures Names(2) == R.Wakeup(Names(1), 32) && Names(2).busy == {}
    ensures Names(3) == R.Commit(Names(2), 1, 32, true, true) && Names(3).busy == {}
    ensures R.Allocated(Names(3), 2) == 1 && Names(4) == R.Allocate(Names(3), 2)
    ensures R.Commit(Names(4), 0, 0, false, false) == Names(4) && R.NameOf(Names(4), 1) == 32
    ensures Names(5) == R.Wakeup(Names(4), 1) && Names(6) == R.Commit(Names(5), 2, 1, true, false)
    ensures Names(6).naming[2] == 1
  {
    var t0, t1, t2 := Names(0), Names(1), Names(2);
    assert t0.naming[0] == 0 && t0.naming[1] == 1 && t0.free[0] == 32 && |t0.free| == 16;
    assert t1.free == t0.free[1..] && t1.naming == t0.naming && t1.spec == {1};
    assert t2.busy == {} && t2.naming == t0.naming;
    var t3 := Names(3);
    assert t3.free == [1] + t2.free && t3.naming == t0.naming[1 := 32] && t3.spec == {};
    var t4, t5 := Names(4), Names(5);
    assert t4.free == t3.free[1..] && t4.spec == {2} && t4.naming == t3.naming && t4.backup[2] == 1;
    assert t4.spec - {0} == t4.spec;
    assert t5.naming == t3.naming && t5.spec == {2} && t5.backup == t4.backup;
  }

  /** The state after `k` rules. */
  function S(k: nat): State {
    var two := [SET_IN, ILLEGAL_IN];
    var trap := map[1 := TRAP];
    match k
    case 0 => At(0, 0, [], 0, 0, Front(0, [], None), map[], map[], map[], [])
    case 1 => At(0, 0, [], 0, 0, Front(100, [SET_AT], None), map[], map[], map[], [])
    case 2 => At(0, 0, [], 0, 0, Front(104, [SET_AT, ILLEGAL_AT], None), map[], map[], map[], [])
    case 3 => At(0, 0, [], 0, 0, Front(104, [ILLEGAL_AT], Some(Renamed(SET_AT, 0, 0))), map[], map[], map[], [])
    case 4 => At(0, 0, [SET_IN], 1, 0, Front(104, [ILLEGAL_AT], None), map[0 := (true, true)], map[], map[], [])
    case 5 => At(0, 0, [SET_IN], 1, 0, Front(104, [], Some(Renamed(ILLEGAL_AT, 0, 0))), map[0 := (true, true)], map[],
          map[], [])
    case 6 => At(0, 0, two, 1, 0, Front(104, [], None), map[0 := (true, true)], trap, map[], [])
    case 7 => At(0, 0, two, 1, 0, Front(104, [], None), map[], trap[0 := DONE], map[], [])
    case 8 => At(0, 0, two, 2, 1, Front(104, [], None), map[], trap, map[0 := DONE], [])
    case 9 => At(1, 1, two, 3, 1, Front(4, [], None), map[], trap, map[], [])
    case 10 => At(1, 1, two, 3, 1, Front(8, [COPY_AT], None), map[], trap, map[], [])
    case 11 => At(1, 1, two, 3, 1, Front(12, [COPY_AT, USE_AT], None), map[], trap, map[], [])
    case 12 => At(1, 1, two, 3, 1, Front(12, [USE_AT], Some(Renamed(COPY_AT, 0, 0))), map[], trap, map[], [])
    case 13 => At(1, 1, two + [COPY_IN], 4, 1, Front(12, [USE_AT], None), map[], trap, map[], [(0, 0)])
    case 14 => At(1, 1, two + [COPY_IN], 4, 1, Front(12, [USE_AT], None), map[], trap, map[1 := TRAP], [])
    case 15 => At(1, 2, two + [COPY_IN], 4, 1, Front(12, [USE_AT], None), map[], trap, map[], [])
    case 16 => At(1, 2, two + [COPY_IN], 4, 1, Front(12, [], Some(Renamed(USE_AT, 32, 0))), map[], trap, map[], [])
    case 17 => At(1, 2, two + [COPY_IN, USE_IN], 4, 1, Front(12, [], None), map[], trap, map[], [(32, 0)])
    case 18 => At(1, 2, two + [COPY_IN, USE_IN], 5, 2, Front(12, [], None), map[], trap, map[2 := WRONG], [])
    case _ => At(1, 3, two + [COPY_IN, USE_IN], 6, 2, Front(12, [], None), map[], trap, map[], [])
  }

  function Rule(k: nat): Event {
    match k
    case 0 => Fetch(100)
    case 1 => Fetch(104)
    case 2 => Rename
    case 3 => Dispatch
    case 4 => Rename
    case 5 => Dispatch
    case 6 => Issue(0)
    case 7 => WriteBack(0)
    case 8 => Commit
    case 9 => Fetch(8)
    case 10 => Fetch(12)
    case 11 => Rename
    case 12 => Dispatch
    case 13 => ExecDirect(TRAP)
    case 14 => Discard
    case 15 => Rename
    case 16 => Dispatch
    case 17 => ExecDirect(WRONG)
    case _ => Commit
  }

  lemma {:induction false} Shapes(k: nat)
    requires k <= 18
    ensures Shape(S(k))
  {
    if k < 9 {
      EarlyShapes(k);
    } else if k < 14 {
      LateShapes(k);
    } else {
      LastShapes(k);
    }
  }

  lemma {:induction false} EarlyShapes(k: nat)
    requires k < 9
    ensures Shape(S(k))
  {
    hide Names, Values;
  }

  lemma {:induction false} LateShapes(k: nat)
    requires 9 <= k < 14
    ensures Shape(S(k))
  {
    hide Names, Values;
  }

  lemma {:induction false} LastShapes(k: nat)
    requires 14 <= k <= 18
    ensures Shape(S(k))
  {
    hide Names, Values;
  }

  lemma {:induction false} FetchStep(k: nat)
    requires k in {0, 1, 9, 10} && Shape(S(k))
    ensures Enabled(Example(), S(k), Rule(k)) && Apply(Example(), S(k), Rule(k)) == S(k + 1)
  {
    hide Names, Values, R.NameOf, Shape;
  }

  lemma {:induction false} RenameStep(k: nat)
    requires k in {2, 4, 11, 15} && Shape(S(k))
    ensures Enabled(Example(), S(k), Rule(k)) && Apply(Example(), S(k), Rule(k)) == S(k + 1)
  {
    hide Names, Values, R.NameOf, Shape;
    NamesHold();
  }

  lemma {:induction false} NoName(t: R.Table)
    requires R.Shape(t) && |t.free| > 0
    ensures R.Allocated(t, 0) == 0 && R.Allocate(t, 0) == t
  {
  }

  lemma {:induction false} DispatchSet()
    requires Shape(S(3))
    ensures Enabled(Example(), S(3), Rule(3)) && Apply(Example(), S(3), Rule(3)) == S(4)
  {
    hide Names, Values, R.NameOf, R.Allocate, R.Allocated, Shape;
    NamesHold();
  }

  lemma {:induction false} DispatchIllegal()
    requires Shape(S(5))
    ensures Enabled(Example(), S(5), Rule(5)) && Apply(Example(), S(5), Rule(5)) == S(6)
  {
    hide Names, Values, R.NameOf, R.Allocate, R.Allocated, Shape;
    NamesHold();
    NoName(Names(1));
  }

  lemma {:induction false} DispatchCopy()
    requires Shape(S(12))
    ensures Enabled(Example(), S(12), Rule(12)) && Apply(Example(), S(12), Rule(12)) == S(13)
  {
    hide Names, Values, R.NameOf, R.Allocate, R.Allocated, Shape;
    NamesHold();
  }

  lemma {:induction false} DispatchUse()
    requires Shape(S(16))
    ensures Enabled(Example(), S(16), Rule(16)) && Apply(Example(), S(16), Rule(16)) == S(17)
  {
    hide Names, Values, R.NameOf, R.Allocate, R.Allocated, Shape;
    NamesHold();
    NoName(Names(4));
  }

  lemma {:induction false} ComputeStep()
    requires Shape(S(6))
    ensures Enabled(Example(), S(6), Rule(6)) && Apply(Example(), S(6), Rule(6)) == S(7)
  {
    hide Names, Shape;
  }

  lemma {:induction false} WriteStep()
    requires Shape(S(7))
    ensures Enabled(Example(), S(7), Rule(7)) && Apply(Example(), S(7), Rule(7)) == S(8)
  {
    hide Names, R.Wakeup, Shape;
    NamesHold();
    assert SlotNumber(0, 0) == 0;
    assert Woken(S(7).log, map[], 32) == map[];
    assert S(7).fu - {0} == map[1 := TRAP];
  }

  lemma {:induction false} CommitStep()
    requires Shape(S(8))
    ensures Enabled(Example(), S(8), Rule(8)) && Apply(Example(), S(8), Rule(8)) == S(9)
  {
    hide Names, Values, R.Commit, Shape;
    NamesHold();
  }

  lemma {:induction false} StrayStep()
    requires Shape(S(13))
    ensures Enabled(Example(), S(13), Rule(13)) && Apply(Example(), S(13), Rule(13)) == S(14)
  {
    hide Names, Values, Shape;
    NamesHold();
    assert Woken(S(13).log, map[], 0) == map[];
  }

  lemma {:induction false} DiscardStep()
    requires Shape(S(14))
    ensures Enabled(Example(), S(14), Rule(14)) && Apply(Example(), S(14), Rule(14)) == S(15)
  {
    hide Names, Values, R.Commit, Shape;
    NamesHold();
  }

  lemma {:induction false} ValuesHold()
    ensures Values(0)[32 := ONE] == Values(1) && Values(1)[1 := ONE] == Values(2)
    ensures Values(1)[32] == ONE && Values(2)[1] == ONE
  {
  }

  lemma {:induction false} WrongStep()
    requires Shape(S(17))
    ensures Enabled(Example(), S(17), Rule(17)) && Apply(Example(), S(17), Rule(17)) == S(18)
  {
    hide Names, Values, R.Wakeup, Shape;
    NamesHold();
    ValuesHold();
    assert Woken(S(17).log, map[], 1) == map[];
  }

  lemma {:induction false} LastStep()
    requires Shape(S(18))
    ensures Enabled(Example(), S(18), Rule(18)) && Apply(Example(), S(18), Rule(18)) == S(19)
  {
    hide Names, Values, R.Commit, Shape;
    NamesHold();
  }

  /** The sequential state the core should agree with after `k` rules. */
  function A(k: nat): Arch {
    var zero := seq(32, (i: nat) => ZERO);
    Arch(if k < 9 then 0 else if k < 19 then 4 else 8, if k < 9 then zero else zero[1 := ONE], map[], map[])
  }

  lemma {:induction false} ArchSteps(k: nat)
    requires k < 19
    ensures Isa.Valid(A(k)) && A(k + 1) == ArchAfter(Example(), S(k), A(k), Rule(k))
  {
    if k == 18 {
      assert A(18).regs[2 := ZERO] == A(18).regs;
    }
  }

  lemma {:induction false} Steps(k: nat)
    requires k < 19
    ensures Shape(S(k)) && Enabled(Example(), S(k), Rule(k)) && Apply(Example(), S(k), Rule(k)) == S(k + 1)
  {
    hide *;
    Shapes(k);
    if k in {0, 1, 9, 10} {
      FetchStep(k);
    } else if k in {2, 4, 11, 15} {
      RenameStep(k);
    } else if k == 3 {
      DispatchSet();
    } else if k == 5 {
      DispatchIllegal();
    } else if k == 6 {
      ComputeStep();
    } else if k == 7 {
      WriteStep();
    } else if k == 8 {
      CommitStep();
    } else if k == 12 {
      DispatchCopy();
    } else if k == 13 {
      StrayStep();
    } else if k == 14 {
      DiscardStep();
    } else if k == 16 {
      DispatchUse();
    } else if k == 17 {
      WrongStep();
    } else {
      LastStep();
    }
  }

  lemma {:induction false} ReachesAll(k: nat)
    requires k <= 19
    ensures Reaches(Example(), S(k), A(k))
  {
    if k == 0 {
      ReachesInit(Example());
      assert S(0) == Init(0, map[], map[]) && A(0) == Arch(0, seq(32, (i: nat) => ZERO), map[], map[]);
    } else {
      ReachesAll(k - 1);
      hide *;
      Steps(k - 1);
      ArchSteps(k - 1);
      ReachesNext(Example(), S(k - 1), A(k - 1), Rule(k - 1));
    }
  }

  /** The core commits a value that no sequential execution gives: its `x2` is one,
      where the committed instructions, one at a time, leave zero. */
  lemma {:induction false} WrongOperands() returns (m: Machine, c: State, a: Arch)
    ensures Reaches(m, c, a)
    ensures R.Shape(c.table) && |c.regs| == R.PHYS_REGS && |a.regs| == R.ARCH_REGS && c.table.naming[2] < R.PHYS_REGS
    ensures c.regs[c.table.naming[2]] == ONE && a.regs[2] == ZERO
    ensures !Agrees(c, a)
  {
    hide Names, Values, Reaches;
    m, c, a := Example(), S(19), A(19);
    ReachesAll(19);
    NamesHold();
    ValuesHold();
  }
}
