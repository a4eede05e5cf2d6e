/** The relation between a state of the out-of-order core and the architectural
    state of the sequential machine, in groups that each speak of a few fields. */
module CoreInvariant {
  import opened Bits
  import opened Words
  import opened Wrappers
  import opened Isa
  import opened LsuSpec
  import opened Core
  import R = RenamingSpec

  // ----- the instruction stream

  function Headers(log: seq<Entry>, base: nat): (r: seq<Decoded>)
    requires base <= |log|
  {
    seq(|log| - base, i requires 0 <= i < |log| - base => log[base + i].d)
  }

  /** Everything fetched and not yet retired, in program order. */
  function Stream(c: State): seq<Decoded>
    requires c.base <= |c.log|
  {
    Headers(c.log, c.base) + (if c.front.renamed.Some? then [c.front.renamed.value.d] else []) + c.front.queue
  }

  /** The instructions of this epoch follow each other's predictions from `start`,
      and the next fetch is at `end`. */
  predicate Chain(s: seq<Decoded>, epoch: nat, start: Addr, end: Addr) {
    if s == [] then start == end
    else if s[0].epoch != epoch then Chain(s[1..], epoch, start, end)
    else s[0].pc == start && Chain(s[1..], epoch, s[0].pred, end)
  }

  ghost predicate StreamInv(m: Machine, s: seq<Decoded>, epoch: nat, start: Addr, end: Addr) {
    && Chain(s, epoch, start, end)
    && (forall i :: 0 <= i < |s| ==> s[i].instr == m.imem(s[i].pc) && epoch - 1 <= s[i].epoch <= epoch)
    && (forall i, j :: 0 <= i < j < |s| ==> s[i].epoch <= s[j].epoch)
  }

  // ----- renaming

  predicate Writes(e: Entry, epoch: nat, arch: nat) {
    arch != 0 && e.d.epoch == epoch && Dest(e.d.instr) == arch
  }

  /** The register that holds `arch` for instruction number `n`: the destination of
      the youngest older writer of this epoch in flight, or else the committed name. */
  function Lookup(log: seq<Entry>, base: nat, n: nat, naming: seq<nat>, epoch: nat, arch: nat): nat
    requires n <= |log| && arch < |naming|
    decreases n
  {
    if n <= base then naming[arch]
    else if Writes(log[n - 1], epoch, arch) then log[n - 1].pdst
    else Lookup(log, base, n - 1, naming, epoch, arch)
  }

  function Pdsts(log: seq<Entry>, base: nat): (r: seq<nat>)
    requires base <= |log|
  {
    seq<nat>(|log| - base, i requires 0 <= i < |log| - base => log[base + i].pdst)
  }

  /** Committed names, destinations in flight and the free list, with multiplicity. */
  ghost function Owners(log: seq<Entry>, base: nat, naming: seq<nat>, free: seq<nat>): multiset<nat>
    requires base <= |log|
  {
    multiset(naming) + multiset(Pdsts(log, base)) + multiset(free)
  }

  /** Every physical register but the zero register is in exactly one place. */
  ghost predicate Partition(log: seq<Entry>, base: nat, naming: seq<nat>, free: seq<nat>)
    requires base <= |log|
  {
    var owners := Owners(log, base, naming, free);
    && (forall p :: 1 <= p < R.PHYS_REGS ==> owners[p] == 1)
    && (forall p :: p in owners ==> p < R.PHYS_REGS)
    && 0 !in free
    && |naming| == R.ARCH_REGS
    && naming[0] == 0
    && (forall r :: 1 <= r < R.ARCH_REGS ==> naming[r] != 0)
  }

  predicate Sources(e: Entry, log: seq<Entry>, base: nat, n: nat, naming: seq<nat>, epoch: nat)
    requires n <= |log| && |naming| == R.ARCH_REGS
  {
    && e.src1 == Lookup(log, base, n, naming, epoch, e.d.instr.rs1)
    && e.src2 == Lookup(log, base, n, naming, epoch, e.d.instr.rs2)
  }

  ghost predicate RenInv(log: seq<Entry>, base: nat, epoch: nat, t: R.Table, renamed: Option<Renamed>) {
    && R.Shape(t)
    && base <= |log|
    && Partition(log, base, t.naming, t.free)
    && 0 !in t.spec
    && (forall r :: 0 <= r < R.ARCH_REGS ==> R.NameOf(t, r) == Lookup(log, base, |log|, t.naming, epoch, r))
    && (forall id :: base <= id < |log| ==> (log[id].pdst == 0 <==> Dest(log[id].d.instr) == 0))
    && (forall id :: base <= id < |log| && log[id].d.epoch == epoch ==>
          Sources(log[id], log, base, id, t.naming, epoch))
    && (renamed.Some? && renamed.value.d.epoch == epoch ==>
          Sources(Entry(renamed.value.d, 0, renamed.value.src1, renamed.value.src2), log, base, |log|, t.naming, epoch))
  }

  // ----- where each instruction is

  /** Results computed, whether or not they are written back. */
  function Out(c: State): map<nat, Result> {
    c.fu + c.results
  }

  predicate IsLoadAt(log: seq<Entry>, id: nat) {
    id < |log| && KindAt(log, id).Load?
  }

  predicate IsStoreAt(log: seq<Entry>, id: nat) {
    id < |log| && KindAt(log, id).Store?
  }

  /** The numbers of the in-flight loads (or stores), in program order. */
  function Members(log: seq<Entry>, base: nat, n: nat, loads: bool): (r: seq<nat>)
    requires base <= n <= |log|
    ensures forall k :: 0 <= k < |r| ==>
          base <= r[k] < n && (if loads then IsLoadAt(log, r[k]) else IsStoreAt(log, r[k]))
    ensures forall j, k :: 0 <= j < k < |r| ==> r[j] < r[k]
    decreases n
  {
    if n == base then []
    else Members(log, base, n - 1, loads) +
         (if (if loads then IsLoadAt(log, n - 1) else IsStoreAt(log, n - 1)) then [n - 1] else [])
  }

  function Tags(log: seq<Entry>, base: nat, n: nat): seq<Tag>
    requires base <= n <= |log|
    decreases n
  {
    if n == base then []
    else Tags(log, base, n - 1) +
         (match KindAt(log, n - 1) case Load(_, _) => [LoadTag] case Store(_) => [StoreTag] case _ => [])
  }

  function LoadIds(s: seq<LoadSlot<nat>>): seq<nat> {
    seq<nat>(|s|, i requires 0 <= i < |s| => s[i].entry)
  }

  function StoreIds(s: seq<StoreSlot<nat>>): seq<nat> {
    seq<nat>(|s|, i requires 0 <= i < |s| => s[i].entry)
  }

  ghost predicate QueueInv(log: seq<Entry>, base: nat, loads: seq<LoadSlot<nat>>, stores: seq<StoreSlot<nat>>,
        tags: seq<Tag>) {
    && base <= |log|
    && LoadIds(loads) == Members(log, base, |log|, true)
    && StoreIds(stores) == Members(log, base, |log|, false)
    && tags == Tags(log, base, |log|)
  }

  ghost predicate StampInv(log: seq<Entry>, stores: seq<StoreSlot<nat>>) {
    forall k :: 0 <= k < |stores| ==>
      && IsStoreAt(log, stores[k].entry)
      && stores[k].epoch == log[stores[k].entry].d.epoch % AGES && stores[k].age == stores[k].entry % AGES
  }

  /** A waiting instruction has no result; a computed result is not yet written. */
  ghost predicate TokenInv(log: seq<Entry>, base: nat, iq: map<nat, (bool, bool)>, fu: map<nat, Result>,
        results: map<nat, Result>) {
    && base <= |log|
    && (forall id :: id in iq ==> base <= id < |log| && id !in fu && id !in results &&
                                  (KindAt(log, id).Compute? || IsMemory(KindAt(log, id))))
    && (forall id :: id in fu ==> base <= id < |log| && id !in results && !KindAt(log, id).System?)
    && (forall id :: id in results ==> base <= id < |log|)
    && (forall id :: id in results && KindAt(log, id).System? ==> id == base)
  }

  /** The sources of the system instructions in `log[from..n]`, in program order. */
  function DirectSources(log: seq<Entry>, from: nat, n: nat): seq<(nat, nat)>
    requires from <= n <= |log|
    decreases n
  {
    if n == from then []
    else DirectSources(log, from, n - 1) +
         if KindAt(log, n - 1).System? then [(log[n - 1].src1, log[n - 1].src2)] else []
  }

  /** The queue of `execute_direct` holds the sources of the system instructions in
      flight that have no result. */
  ghost predicate DirectInv(log: seq<Entry>, base: nat, results: map<nat, Result>, direct: seq<(nat, nat)>) {
    var from := if base in results then base + 1 else base;
    from <= |log| && direct == DirectSources(log, from, |log|)
  }

  predicate LoadToken(s: LoadSlot<nat>, waiting: set<nat>, out: map<nat, Result>) {
    && (s.executed ==> s.addr.Some?)
    && (s.entry in waiting ==> s.addr.None?)
    && (s.entry in out && (s.addr.Some? || out[s.entry].Ok?) ==> s.executed && out[s.entry].Ok?)
  }

  predicate StoreToken(s: StoreSlot<nat>, waiting: set<nat>, out: map<nat, Result>) {
    && (s.addr.Some? <==> s.data.Some?)
    && (s.entry in waiting ==> s.addr.None?)
    && (s.issued ==> s.addr.Some?)
    && (s.entry in out ==> s.issued)
  }

  ghost predicate LoadTokens(loads: seq<LoadSlot<nat>>, waiting: set<nat>, out: map<nat, Result>) {
    forall k :: 0 <= k < |loads| ==> LoadToken(loads[k], waiting, out)
  }

  ghost predicate StoreTokens(stores: seq<StoreSlot<nat>>, waiting: set<nat>, out: map<nat, Result>) {
    forall k :: 0 <= k < |stores| ==> StoreToken(stores[k], waiting, out)
  }

  /** The loads whose word was asked for and not yet returned, in request order. */
  function Reading(pend: seq<(nat, Word)>, rreq: seq<(nat, Addr)>): seq<nat> {
    seq<nat>(|pend|, i requires 0 <= i < |pend| => pend[i].0)
    + seq<nat>(|rreq|, i requires 0 <= i < |rreq| => rreq[i].0)
  }

  ghost predicate ExecutedLoad(loads: seq<LoadSlot<nat>>, id: nat) {
    exists k :: 0 <= k < |loads| && loads[k].entry == id && loads[k].executed
  }

  ghost predicate ReadingInv(loads: seq<LoadSlot<nat>>, reading: seq<nat>, out: map<nat, Result>) {
    && (forall i, j :: 0 <= i < j < |reading| ==> reading[i] != reading[j])
    && (forall i :: 0 <= i < |reading| ==> reading[i] !in out && ExecutedLoad(loads, reading[i]))
  }

  ghost predicate RequestInv(loads: seq<LoadSlot<nat>>, rreq: seq<(nat, Addr)>) {
    forall i, k :: 0 <= i < |rreq| && 0 <= k < |loads| && loads[k].entry == rreq[i].0 && loads[k].addr.Some? ==>
      rreq[i].1 == WordOf(loads[k].addr.value)
  }

  // ----- register values

  /** The committed registers hold the architectural values. */
  ghost predicate ArchInv(naming: seq<nat>, busy: set<nat>, regs: seq<Word>, aregs: seq<Word>) {
    && |regs| == R.PHYS_REGS && |naming| == R.ARCH_REGS && |aregs| == R.ARCH_REGS
    && regs[0] == ZERO && 0 !in busy
    && (forall r :: 0 <= r < R.ARCH_REGS ==>
          naming[r] !in busy && naming[r] < R.PHYS_REGS && regs[naming[r]] == aregs[r])
  }

  /** A destination is busy until the result is written, and then holds it. */
  ghost predicate DestInv(log: seq<Entry>, base: nat, busy: set<nat>, regs: seq<Word>, results: map<nat, Result>) {
    && |regs| == R.PHYS_REGS
    && base <= |log|
    && forall id :: base <= id < |log| && log[id].pdst != 0 ==>
         && log[id].pdst < R.PHYS_REGS
         && (log[id].pdst in busy <==> id !in results)
         && (id in results ==> regs[log[id].pdst] == ValueOf(results[id]))
  }

  /** The sources of an instruction that left its issue queue are not busy; while it
      waits, a source is marked ready exactly when it is not busy. */
  predicate SourcesReady(e: Entry, id: nat, busy: set<nat>, iq: map<nat, (bool, bool)>) {
    if id in iq then (iq[id].0 <==> e.src1 !in busy) && (iq[id].1 <==> e.src2 !in busy)
    else e.d.instr.kind.Compute? || IsMemory(e.d.instr.kind) ==> e.src1 !in busy && e.src2 !in busy
  }

  ghost predicate IssueInv(log: seq<Entry>, base: nat, epoch: nat, busy: set<nat>, iq: map<nat, (bool, bool)>) {
    && base <= |log|
    && (forall id :: base <= id < |log| ==> log[id].src1 < R.PHYS_REGS && log[id].src2 < R.PHYS_REGS)
    && (forall id :: base <= id < |log| && log[id].d.epoch == epoch ==> SourcesReady(log[id], id, busy, iq))
  }

  function Operand(regs: seq<Word>, p: nat): Word {
    if p < |regs| then regs[p] else ZERO
  }

  /** A computed result is what the operation gives on the present values of its
      source registers. */
  predicate ComputeConsistent(m: Machine, e: Entry, regs: seq<Word>, result: Result) {
    match e.d.instr.kind
    case Compute => result == m.exec(e.d.instr, e.d.pc, Operand(regs, e.src1), Operand(regs, e.src2))
    case Fault(cause) => result == Error(cause, e.d.pc)
    case _ => true
  }

  ghost predicate ComputeInv(m: Machine, log: seq<Entry>, base: nat, epoch: nat, regs: seq<Word>,
        out: map<nat, Result>) {
    forall id :: id in out && base <= id < |log| && log[id].d.epoch == epoch ==>
          ComputeConsistent(m, log[id], regs, out[id])
  }

  function EntryAddress(m: Machine, e: Entry, regs: seq<Word>): Addr {
    m.address(e.d.instr, Operand(regs, e.src1))
  }

  /** Addresses and data in the queues are those of the present register values. */
  predicate LoadConsistent(m: Machine, e: Entry, s: LoadSlot<nat>, regs: seq<Word>, waiting: set<nat>,
        out: map<nat, Result>)
    requires e.d.instr.kind.Load?
  {
    var addr := EntryAddress(m, e, regs);
    s.entry !in waiting ==>
      if Aligned(e.d.instr.kind.size, addr) then s.addr == Some(addr)
      else s.addr == None && s.entry in out && out[s.entry] == Error(LOAD_ADDRESS_MISALIGNED, addr)
  }

  predicate StoreConsistent(m: Machine, e: Entry, s: StoreSlot<nat>, regs: seq<Word>, waiting: set<nat>,
        out: map<nat, Result>)
    requires e.d.instr.kind.Store?
  {
    var addr := EntryAddress(m, e, regs);
    s.entry !in waiting ==>
      && s.addr == Some(addr) && s.data == Some(Operand(regs, e.src2))
      && (s.entry in out ==> out[s.entry] == StoreResult(e.d.instr.kind.size, addr, e.d.pc))
  }

  ghost predicate LoadValues(m: Machine, log: seq<Entry>, epoch: nat, regs: seq<Word>, loads: seq<LoadSlot<nat>>,
                             waiting: set<nat>, out: map<nat, Result>)
  {
    forall k :: 0 <= k < |loads| && IsLoadAt(log, loads[k].entry) && log[loads[k].entry].d.epoch == epoch ==>
      LoadConsistent(m, log[loads[k].entry], loads[k], regs, waiting, out)
  }

  ghost predicate StoreValues(m: Machine, log: seq<Entry>, epoch: nat, regs: seq<Word>, stores: seq<StoreSlot<nat>>,
                              waiting: set<nat>, out: map<nat, Result>)
  {
    forall k :: 0 <= k < |stores| && IsStoreAt(log, stores[k].entry) && log[stores[k].entry].d.epoch == epoch ==>
      StoreConsistent(m, log[stores[k].entry], stores[k], regs, waiting, out)
  }

  // ----- memory

  /** Memory once the pending writes are performed. */
  function Drained(mem: Memory, wreq: seq<Beat>): Memory
    decreases |wreq|
  {
    if wreq == [] then mem else Drained(Write(mem, wreq[0]), wreq[1..])
  }

  ghost predicate BufferInv(mem: Memory, wreq: seq<Beat>, stb: seq<Beat>, amem: Memory) {
    && Drained(mem, wreq) == amem
    && |wreq| <= |stb|
    && stb[|stb| - |wreq|..] == wreq
  }

  /** A load of this epoch at or before `id` is marked to be executed again. */
  ghost predicate Shadowed(log: seq<Entry>, epoch: nat, killed: set<nat>, id: nat) {
    exists k :: k in killed && k <= id && k < |log| && log[k].d.epoch == epoch
  }

  predicate NotPending(wreq: seq<Beat>, word: Addr) {
    forall j :: 0 <= j < |wreq| ==> wreq[j].addr != word
  }

  function LoadValue(e: Entry, addr: Addr, word: Word): Result
    requires e.d.instr.kind.Load?
  {
    Ok(Extract(e.d.instr.kind.size, e.d.instr.kind.signed, addr, word), Next(e.d.pc), false)
  }

  /** What an executed load has, or will get, is the word of the committed memory. */
  ghost predicate LoadFresh(e: Entry, s: LoadSlot<nat>, wreq: seq<Beat>, rreq: seq<(nat, Addr)>, pend: seq<(nat, Word)>,
                            out: map<nat, Result>, amem: Memory)
    requires e.d.instr.kind.Load? && s.addr.Some?
  {
    var word := WordOf(s.addr.value);
    && (forall i :: 0 <= i < |rreq| && rreq[i].0 == s.entry ==> NotPending(wreq, word))
    && (forall i :: 0 <= i < |pend| && pend[i].0 == s.entry ==> pend[i].1 == Read(amem, word))
    && (s.entry in out ==> out[s.entry] == LoadValue(e, s.addr.value, Read(amem, word)))
  }

  ghost predicate FreshInv(log: seq<Entry>, epoch: nat, killed: set<nat>, loads: seq<LoadSlot<nat>>, wreq: seq<Beat>,
                           rreq: seq<(nat, Addr)>, pend: seq<(nat, Word)>, out: map<nat, Result>, amem: Memory)
  {
    forall k :: 0 <= k < |loads| && IsLoadAt(log, loads[k].entry) && loads[k].executed && loads[k].addr.Some? &&
                log[loads[k].entry].d.epoch == epoch && !Shadowed(log, epoch, killed, loads[k].entry) ==>
      LoadFresh(log[loads[k].entry], loads[k], wreq, rreq, pend, out, amem)
  }

  ghost predicate KilledInv(log: seq<Entry>, base: nat, killed: set<nat>) {
    forall id :: id in killed ==> base <= id && IsLoadAt(log, id)
  }

  // ----- control and status registers

  /** The CSRs are architectural, except between the execution and the commit of a
      system instruction of this epoch at the head. */
  ghost predicate CsrInv(m: Machine, log: seq<Entry>, base: nat, epoch: nat, results: map<nat, Result>, csr: Csr,
        a: Arch)
    requires |a.regs| == R.ARCH_REGS
  {
    if base < |log| && base in results && log[base].d.epoch == epoch && KindAt(log, base).System?
    then
      var i := log[base].d.instr;
      (results[base], csr) == m.system(i, log[base].d.pc, a.regs[i.rs1], a.regs[i.rs2], a.csr)
    else csr == a.csr
  }

  /** The simulation relation. */
  ghost predicate Inv(m: Machine, c: State, a: Arch) {
    && Isa.Valid(a)
    && c.base <= |c.log| <= c.base + ROB_SIZE
    && StreamInv(m, Stream(c), c.epoch, a.pc, c.front.pc)
    && RenInv(c.log, c.base, c.epoch, c.table, c.front.renamed)
    && QueueInv(c.log, c.base, c.lsu.loads, c.lsu.stores, c.lsu.tags)
    && StampInv(c.log, c.lsu.stores)
    && TokenInv(c.log, c.base, c.iq, c.fu, c.results)
    && DirectInv(c.log, c.base, c.results, c.direct)
    && LoadTokens(c.lsu.loads, c.iq.Keys, Out(c))
    && StoreTokens(c.lsu.stores, c.iq.Keys, Out(c))
    && ReadingInv(c.lsu.loads, Reading(c.lsu.pend, c.lsu.rreq), Out(c))
    && RequestInv(c.lsu.loads, c.lsu.rreq)
    && ArchInv(c.table.naming, c.table.busy, c.regs, a.regs)
    && DestInv(c.log, c.base, c.table.busy, c.regs, c.results)
    && IssueInv(c.log, c.base, c.epoch, c.table.busy, c.iq)
    && ComputeInv(m, c.log, c.base, c.epoch, c.regs, Out(c))
    && LoadValues(m, c.log, c.epoch, c.regs, c.lsu.loads, c.iq.Keys, Out(c))
    && StoreValues(m, c.log, c.epoch, c.regs, c.lsu.stores, c.iq.Keys, Out(c))
    && BufferInv(c.lsu.mem, c.lsu.wreq, c.lsu.stb, a.mem)
    && KilledInv(c.log, c.base, c.killed)
    && FreshInv(c.log, c.epoch, c.killed, c.lsu.loads, c.lsu.wreq, c.lsu.rreq, c.lsu.pend, Out(c), a.mem)
    && CsrInv(m, c.log, c.base, c.epoch, c.results, c.csr, a)
  }
}
