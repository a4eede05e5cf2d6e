/** What the queues of the load/store unit hold, as sequences ordered from the
    oldest entry. `T` is what an entry carries for the reorder buffer. */
module LsuSpec {
  import opened Bits
  import opened Words
  import opened Wrappers

  const LQ_SIZE := 6
  const SQ_SIZE := 6
  const STB_SIZE := 3

  /** `addr` is known once the issue queue delivered an aligned address. */
  datatype LoadSlot<T> = LoadSlot(entry: T, addr: Option<Addr>, executed: bool)

  /** `epoch` and `age` are the truncated counters the hardware compares. */
  datatype StoreSlot<T> = StoreSlot(
    entry: T, epoch: nat, age: nat, addr: Option<Addr>, data: Option<Word>, issued: bool)

  /** An executed load of the word `addr` belongs to. */
  predicate ReadWord<T>(s: LoadSlot<T>, addr: Addr) {
    s.executed && s.addr.Some? && WordOf(s.addr.value) == WordOf(addr)
  }

  /** The oldest load that has already read this word. */
  function OldestReader<T>(loads: seq<LoadSlot<T>>, addr: Addr): (r: Option<T>)
    ensures r.None? <==> forall k :: 0 <= k < |loads| ==> !ReadWord(loads[k], addr)
    ensures r.Some? ==> exists k :: 0 <= k < |loads| && ReadWord(loads[k], addr) && loads[k].entry == r.value &&
                                    forall j :: 0 <= j < k ==> !ReadWord(loads[j], addr)
  {
    if loads == [] then None
    else if ReadWord(loads[0], addr) then
      assert loads[0].entry == Some(loads[0].entry).value;
      Some(loads[0].entry)
    else
      var r := OldestReader(loads[1..], addr);
      assert forall k :: 0 < k < |loads| ==> loads[k] == loads[1..][k - 1];
      assert r.Some? ==> forall k :: 0 <= k < |loads[1..]| ==> loads[1..][k] == loads[k + 1];
      r
  }

  /** A store of the same epoch, not younger than `age`, whose known address lies
      in the word. */
  predicate Conflicts<T>(s: StoreSlot<T>, addr: Addr, epoch: nat, age: nat)
    requires age < AGES && s.age < AGES
  {
    s.addr.Some? && WordOf(s.addr.value) == WordOf(addr) && s.epoch == epoch && IsBefore(s.age, age)
  }
}
