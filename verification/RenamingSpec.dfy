/** What the renaming table of src/PhysRegFile.bsv holds, as values: the free list
    as the sequence of its registers, the bit vectors as sets. */
module RenamingSpec {

  const ARCH_REGS := 32
  const PHYS_REGS := 48

  datatype Table = Table(
    naming: seq<nat>,  // committed name of each architectural register
    backup: seq<nat>,  // speculative name, meaningful where `spec` is set
    spec: set<nat>,    // architectural registers renamed since the last flush
    free: seq<nat>,    // the free list, next register to hand out first
    busy: set<nat>)    // physical registers whose value is still to come

  predicate Shape(t: Table) {
    |t.naming| == ARCH_REGS && |t.backup| == ARCH_REGS
  }

  /** Registers 0 to 31 name themselves, 32 to 47 are free in order. */
  function Initial(): (t: Table)
    ensures Shape(t)
  {
    Table(seq(ARCH_REGS, i => i), seq(ARCH_REGS, i => 0), {}, seq(PHYS_REGS - ARCH_REGS, i => ARCH_REGS + i), {})
  }

  function NameOf(t: Table, arch: nat): nat
    requires Shape(t) && arch < ARCH_REGS
  {
    if arch in t.spec then t.backup[arch] else t.naming[arch]
  }

  function Allocated(t: Table, arch: nat): nat
    requires |t.free| > 0
  {
    if arch == 0 then 0 else t.free[0]
  }

  function Allocate(t: Table, arch: nat): (r: Table)
    requires Shape(t) && arch < ARCH_REGS && |t.free| > 0
    ensures Shape(r)
  {
    if arch == 0 then t else
      t.(free := t.free[1..], spec := t.spec + {arch}, busy := t.busy + {t.free[0]},
         backup := t.backup[arch := t.free[0]])
  }

  function Wakeup(t: Table, phys: nat): Table {
    if phys == 0 then t else t.(busy := t.busy - {phys})
  }

  function Free(t: Table, phys: nat): Table {
    if phys == 0 then t else t.(free := [phys] + t.free)
  }

  /** Commit of an instruction: `keep` makes its destination the committed name,
      `flush` forgets every speculative name. */
  function Commit(t: Table, arch: nat, phys: nat, keep: bool, flush: bool): (r: Table)
    requires Shape(t) && arch < ARCH_REGS
    ensures Shape(r)
  {
    var valid := arch in t.spec && t.backup[arch] == phys;
    var spec := if flush then {} else if valid then t.spec - {arch} else t.spec;
    var u := t.(spec := spec);
    if keep then Free(u, t.naming[arch]).(naming := t.naming[arch := phys]) else Free(u, phys)
  }
}
