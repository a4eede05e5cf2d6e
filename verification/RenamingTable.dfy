/** src/PhysRegFile.bsv: the renaming table over register files, its free list threaded
    through `freeList`, proved to be the table of `RenamingSpec`. */
module RenamingTable {
  import opened Wrappers
  import R = RenamingSpec

  ghost predicate NoDuplicates(s: seq<nat>) {
    forall i, j :: 0 <= i < j < |s| ==> s[i] != s[j]
  }

  /** `chain` is the list that starts at `head` and follows `next` to its end. */
  ghost predicate Linked(chain: seq<nat>, head: Option<nat>, next: seq<Option<nat>>) {
    && (forall i :: 0 <= i < |chain| ==> 0 < chain[i] < |next|)
    && head == (if chain == [] then None else Some(chain[0]))
    && (forall i :: 0 <= i < |chain| ==> next[chain[i]] == if i + 1 < |chain| then Some(chain[i + 1]) else None)
  }

  ghost function SetOf(bits: seq<bool>): (r: set<nat>)
    ensures forall k :: k in r <==> 0 <= k < |bits| && bits[k]
  {
    set k: nat | k < |bits| && bits[k]
  }

  lemma {:induction false} ListedFirst(chain: seq<nat>, head: Option<nat>, next: seq<Option<nat>>, phys: nat)
    requires Linked(chain, head, next) && NoDuplicates(chain) && 0 < phys < |next| && phys !in chain
    ensures Linked([phys] + chain, Some(phys), next[phys := head]) && NoDuplicates([phys] + chain)
  {
  }

  class Table {
    var naming: seq<nat>
    var backup: seq<nat>
    var speculated: seq<bool>
    var scoreboard: seq<bool>
    var freeList: seq<Option<nat>>
    var head: Option<nat>
    ghost var chain: seq<nat>

    ghost predicate Valid()
      reads this
    {
      && |naming| == |backup| == |speculated| == R.ARCH_REGS
      && |scoreboard| == |freeList| == R.PHYS_REGS
      && Linked(chain, head, freeList)
      && NoDuplicates(chain)
    }

    ghost function Abs(): R.Table
      reads this
    {
      R.Table(naming, backup, SetOf(speculated), chain, SetOf(scoreboard))
    }

    /** The initialisation rules of the register files. */
    constructor ()
      ensures Valid() && Abs() == R.Initial()
    {
      naming := seq(R.ARCH_REGS, i => i);
      backup := seq(R.ARCH_REGS, i => 0);
      speculated := seq(R.ARCH_REGS, i => false);
      scoreboard := seq(R.PHYS_REGS, i => false);
      freeList := seq(R.PHYS_REGS, i => if i < R.ARCH_REGS || i == R.PHYS_REGS - 1 then None else Some(i + 1));
      head := Some(R.ARCH_REGS);
      chain := seq<nat>(R.PHYS_REGS - R.ARCH_REGS, i => R.ARCH_REGS + i);
      new;
      assert Abs().spec == {} && Abs().busy == {};
    }

    /** A register already in the list would close it into a cycle. */
    method Free(phys: nat)
      requires Valid() && phys < R.PHYS_REGS && phys !in chain
      modifies this`freeList, this`head, this`chain
      ensures Valid() && Abs() == R.Free(old(Abs()), phys)
    {
      hide Linked, NoDuplicates, SetOf;
      if phys != 0 {
        ListedFirst(chain, head, freeList, phys);
        freeList := freeList[phys := head];
        head := Some(phys);
        chain := [phys] + chain;
      }
    }

    method Commit(arch: nat, phys: nat, keep: bool, flush: bool)
      requires Valid() && arch < R.ARCH_REGS && phys < R.PHYS_REGS
      requires var released := if keep then naming[arch] else phys; released < R.PHYS_REGS && released !in chain
      modifies this
      ensures Valid() && Abs() == R.Commit(old(Abs()), arch, phys, keep, flush)
    {
      var valid := speculated[arch] && backup[arch] == phys;
      if flush {
        speculated := seq(R.ARCH_REGS, i => false);
        assert SetOf(speculated) == {};
      } else if valid {
        speculated := speculated[arch := false];
        assert SetOf(speculated) == SetOf(old(speculated)) - {arch};
      }
      if keep {
        Free(naming[arch]);
        naming := naming[arch := phys];
      } else {
        Free(phys);
      }
    }

    method Wakeup(phys: nat)
      requires Valid() && phys < R.PHYS_REGS
      modifies this`scoreboard
      ensures Valid() && Abs() == R.Wakeup(old(Abs()), phys)
    {
      if phys != 0 {
        scoreboard := scoreboard[phys := false];
        assert SetOf(scoreboard) == SetOf(old(scoreboard)) - {phys};
      }
    }

    method Allocated(arch: nat) returns (phys: nat)
      requires Valid() && arch < R.ARCH_REGS && head.Some?
      ensures |chain| > 0 && phys == R.Allocated(Abs(), arch)
    {
      phys := if arch == 0 then 0 else head.value;
    }

    method Allocate(arch: nat)
      requires Valid() && arch < R.ARCH_REGS && head.Some?
      modifies this
      ensures Valid() && old(|chain|) > 0 && Abs() == R.Allocate(old(Abs()), arch)
    {
      if arch != 0 {
        var phys := head.value;
        head := freeList[phys];
        chain := chain[1..];
        speculated := speculated[arch := true];
        scoreboard := scoreboard[phys := true];
        backup := backup[arch := phys];
        assert SetOf(speculated) == SetOf(old(speculated)) + {arch};
        assert SetOf(scoreboard) == SetOf(old(scoreboard)) + {phys};
      }
    }

    method Ready(phys: nat) returns (ready: bool)
      requires Valid() && phys < R.PHYS_REGS
      ensures ready <==> phys !in Abs().busy
    {
      ready := !scoreboard[phys];
    }

    method Rename(arch: nat) returns (phys: nat)
      requires Valid() && arch < R.ARCH_REGS
      ensures phys == R.NameOf(Abs(), arch)
    {
      phys := if speculated[arch] then backup[arch] else naming[arch];
    }
  }
}
