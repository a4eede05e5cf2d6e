/** The reference the out-of-order core is proved against: a machine that
    executes one instruction at a time. What an arithmetic, control or system
    instruction computes, and what a trap does to the CSRs, is a parameter. */
module Isa {
  import opened Words

  type Register = r: nat | r < 32

  /** `Fault` is a fetch or decode exception carried down the pipeline. */
  datatype Kind =
    | Compute
    | Load(size: Size, signed: bool)
    | Store(size: Size)
    | System
    | Fault(cause: nat)

  datatype Instr = Instr(kind: Kind, rd: Register, rs1: Register, rs2: Register, code: nat)

  datatype Result =
    | Ok(val: Word, next: Addr, flush: bool)
    | Error(cause: nat, tval: Addr)

  type Csr = map<nat, Word>

  const LOAD_ADDRESS_MISALIGNED := 4
  const STORE_ADDRESS_MISALIGNED := 6

  datatype Machine = Machine(
    imem: Addr -> Instr,
    exec: (Instr, Addr, Word, Word) -> Result,
    address: (Instr, Word) -> Addr,
    system: (Instr, Addr, Word, Word, Csr) -> (Result, Csr),
    trap: (Csr, Addr, bool, nat, Addr) -> (Csr, Addr),
    retire: Csr -> Csr)

  datatype Arch = Arch(pc: Addr, regs: seq<Word>, mem: Memory, csr: Csr)

  ghost predicate Valid(a: Arch) {
    |a.regs| == 32 && a.regs[0] == ZERO
  }

  /** The architectural destination; zero for instructions that have none. */
  function Dest(i: Instr): Register {
    match i.kind
    case Store(_) => 0
    case Fault(_) => 0
    case _ => i.rd
  }

  function SetReg(regs: seq<Word>, r: Register, v: Word): seq<Word>
    requires |regs| == 32
  {
    if r == 0 then regs else regs[r := v]
  }

  function LoadResult(mem: Memory, size: Size, signed: bool, addr: Addr, pc: Addr): Result {
    if Aligned(size, addr) then Ok(Extract(size, signed, addr, Read(mem, WordOf(addr))), Next(pc), false)
    else Error(LOAD_ADDRESS_MISALIGNED, addr)
  }

  function StoreResult(size: Size, addr: Addr, pc: Addr): Result {
    if Aligned(size, addr) then Ok(ZERO, Next(pc), false) else Error(STORE_ADDRESS_MISALIGNED, addr)
  }

  /** Retires a result: writes the destination and moves on, or traps. */
  function Retire(m: Machine, a: Arch, i: Instr, r: Result): Arch
    requires Valid(a)
  {
    match r
    case Ok(v, next, _) =>
      a.(pc := next, regs := SetReg(a.regs, Dest(i), v), csr := if i.kind.System? then a.csr else m.retire(a.csr))
    case Error(cause, tval) =>
      var t := m.trap(a.csr, a.pc, false, cause, tval);
      a.(pc := t.1, csr := t.0)
  }

  /** One instruction of the sequential machine. */
  function Step(m: Machine, a: Arch): Arch
    requires Valid(a)
  {
    var i := m.imem(a.pc);
    var v1, v2 := a.regs[i.rs1], a.regs[i.rs2];
    match i.kind
    case Compute => Retire(m, a, i, m.exec(i, a.pc, v1, v2))
    case Load(size, signed) =>
      Retire(m, a, i, LoadResult(a.mem, size, signed, m.address(i, v1), a.pc))
    case Store(size) =>
      var addr := m.address(i, v1);
      var mem := if Aligned(size, addr) then Write(a.mem, StoreBeat(size, addr, v2)) else a.mem;
      Retire(m, a.(mem := mem), i, StoreResult(size, addr, a.pc))
    case System =>
      var s := m.system(i, a.pc, v1, v2, a.csr);
      Retire(m, a.(csr := s.1), i, s.0)
    case Fault(cause) => Retire(m, a, i, Error(cause, a.pc))
  }

  /** An interrupt is taken between two instructions. */
  function Interrupt(m: Machine, a: Arch, cause: nat): Arch {
    var t := m.trap(a.csr, a.pc, true, cause, 0);
    a.(pc := t.1, csr := t.0)
  }
}
