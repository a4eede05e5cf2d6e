/** Register renaming: every physical register is in one place, and a renamed source
    is the destination of the youngest older writer. */
module CoreRenaming {
  import opened Wrappers
  import opened Isa
  import opened Core
  import opened CoreInvariant
  import R = RenamingSpec

  // ----- Lookup

  lemma {:induction false} LookupPrefix(log: seq<Entry>, more: seq<Entry>, base: nat, n: nat, naming: seq<nat>,
        epoch: nat, arch: nat)
    requires n <= |log| && arch < |naming|
    ensures Lookup(log + more, base, n, naming, epoch, arch) == Lookup(log, base, n, naming, epoch, arch)
    decreases n
  {
    if n > base {
      assert (log + more)[n - 1] == log[n - 1];
      LookupPrefix(log, more, base, n - 1, naming, epoch, arch);
    }
  }

  /** Committing the oldest instruction moves its name from the instructions in
      flight to the committed names and changes no lookup. */
  lemma {:induction false} LookupPop(log: seq<Entry>, base: nat, n: nat, naming: seq<nat>, naming': seq<nat>,
        epoch: nat, arch: nat)
    requires base < n <= |log| && arch < |naming| == |naming'|
    requires naming'[arch] == if Writes(log[base], epoch, arch) then log[base].pdst else naming[arch]
    ensures Lookup(log, base + 1, n, naming', epoch, arch) == Lookup(log, base, n, naming, epoch, arch)
    decreases n
  {
    if n > base + 1 {
      LookupPop(log, base, n - 1, naming, naming', epoch, arch);
    } else {
      assert Lookup(log, base, base, naming, epoch, arch) == naming[arch];
    }
  }

  lemma {:induction false} LookupNone(log: seq<Entry>, base: nat, n: nat, naming: seq<nat>, epoch: nat, arch: nat)
    requires n <= |log| && arch < |naming|
    requires forall id :: base <= id < n ==> log[id].d.epoch != epoch
    ensures Lookup(log, base, n, naming, epoch, arch) == naming[arch]
    decreases n
  {
    if n > base {
      LookupNone(log, base, n - 1, naming, epoch, arch);
    }
  }

  /** A lookup answers with the youngest writer, or with the committed name when
      there is no writer. */
  lemma {:induction false} LookupMeaning(log: seq<Entry>, base: nat, n: nat, naming: seq<nat>, epoch: nat,
        arch: nat) returns (w: Option<nat>)
    requires base <= n <= |log| && arch < |naming|
    ensures w.None? ==> Lookup(log, base, n, naming, epoch, arch) == naming[arch]
    ensures w.None? ==> forall id :: base <= id < n ==> !Writes(log[id], epoch, arch)
    ensures w.Some? ==> base <= w.value < n && Writes(log[w.value], epoch, arch)
    ensures w.Some? ==> Lookup(log, base, n, naming, epoch, arch) == log[w.value].pdst
    ensures w.Some? ==> forall id :: w.value < id < n ==> !Writes(log[id], epoch, arch)
    decreases n
  {
    if n == base {
      w := None;
    } else if Writes(log[n - 1], epoch, arch) {
      w := Some(n - 1);
    } else {
      w := LookupMeaning(log, base, n - 1, naming, epoch, arch);
    }
  }

  // ----- Partition

  lemma {:induction false} Twice(s: seq<nat>, i: nat, j: nat)
    requires i < j < |s| && s[i] == s[j]
    ensures multiset(s)[s[i]] >= 2
  {
    assert s == s[..j] + s[j..];
    assert s[i] in s[..j] && s[i] in s[j..];
    assert multiset(s) == multiset(s[..j]) + multiset(s[j..]);
  }

  ghost predicate DistinctDests(log: seq<Entry>, base: nat) {
    forall i, j :: base <= i < j < |log| && log[i].pdst != 0 ==> log[i].pdst != log[j].pdst
  }

  ghost predicate NotNamed(log: seq<Entry>, base: nat, naming: seq<nat>) {
    forall r, i :: 0 <= r < |naming| && base <= i < |log| && log[i].pdst != 0 ==> naming[r] != log[i].pdst
  }

  ghost predicate Unowned(log: seq<Entry>, base: nat, naming: seq<nat>, p: nat) {
    && p != 0
    && (forall r :: 0 <= r < |naming| ==> naming[r] != p)
    && (forall i :: base <= i < |log| ==> log[i].pdst != p)
  }

  lemma {:induction false} OnePlace(log: seq<Entry>, base: nat, naming: seq<nat>, free: seq<nat>, p: nat)
    requires base <= |log| && Partition(log, base, naming, free)
    ensures p != 0 ==> multiset(naming)[p] + multiset(Pdsts(log, base))[p] + multiset(free)[p] <= 1
    ensures p in naming || p in Pdsts(log, base) || p in free ==> p < R.PHYS_REGS
    ensures p in free ==> p != 0
  {
    var owners := Owners(log, base, naming, free);
    assert owners[p] == multiset(naming)[p] + multiset(Pdsts(log, base))[p] + multiset(free)[p];
    if p >= R.PHYS_REGS {
      assert p !in owners;
    }
  }

  /** What being in exactly one place means for the three kinds of place. */
  lemma {:induction false} PartitionDistinct(log: seq<Entry>, base: nat, naming: seq<nat>, free: seq<nat>)
    requires base <= |log| && Partition(log, base, naming, free)
    ensures DistinctDests(log, base) && NotNamed(log, base, naming)
    ensures forall k :: 0 <= k < |free| ==> Unowned(log, base, naming, free[k]) && free[k] < R.PHYS_REGS
    ensures forall r :: 0 <= r < |naming| ==> naming[r] < R.PHYS_REGS
    ensures forall id :: base <= id < |log| ==> log[id].pdst < R.PHYS_REGS
  {
    hide Partition, Owners;
    var pdsts := Pdsts(log, base);
    assert forall id :: base <= id < |log| ==> pdsts[id - base] == log[id].pdst;
    forall i, j | base <= i < j < |log| && log[i].pdst != 0
      ensures log[i].pdst != log[j].pdst
    {
      if log[i].pdst == log[j].pdst {
        Twice(pdsts, i - base, j - base);
        OnePlace(log, base, naming, free, log[i].pdst);
      }
    }
    forall r, i | 0 <= r < |naming| && base <= i < |log| && log[i].pdst != 0
      ensures naming[r] != log[i].pdst
    {
      OnePlace(log, base, naming, free, naming[r]);
      assert naming[r] in naming && pdsts[i - base] in pdsts;
    }
    forall k | 0 <= k < |free|
      ensures Unowned(log, base, naming, free[k]) && free[k] < R.PHYS_REGS
    {
      OnePlace(log, base, naming, free, free[k]);
      assert free[k] in free;
      assert forall r :: 0 <= r < |naming| ==> naming[r] in naming;
      forall i | base <= i < |log|
        ensures log[i].pdst != free[k]
      {
        assert pdsts[i - base] in pdsts;
      }
    }
    forall r | 0 <= r < |naming|
      ensures naming[r] < R.PHYS_REGS
    {
      OnePlace(log, base, naming, free, naming[r]);
    }
    forall id | base <= id < |log|
      ensures log[id].pdst < R.PHYS_REGS
    {
      OnePlace(log, base, naming, free, pdsts[id - base]);
    }
  }

  lemma {:induction false} OwnersPush(log: seq<Entry>, base: nat, t: R.Table, e: Entry)
    requires base <= |log| && R.Shape(t) && |t.free| > 0
    requires e.pdst == R.Allocated(t, Dest(e.d.instr))
    ensures Owners(log + [e], base, t.naming, R.Allocate(t, Dest(e.d.instr)).free)
            == Owners(log, base, t.naming, t.free) + if Dest(e.d.instr) == 0 then multiset{0} else multiset{}
  {
    assert Pdsts(log + [e], base) == Pdsts(log, base) + [e.pdst];
    assert t.free == [t.free[0]] + t.free[1..];
    hide Pdsts;
  }

  lemma {:induction false} PartitionDispatch(log: seq<Entry>, base: nat, t: R.Table, e: Entry)
    requires base <= |log| && R.Shape(t) && Partition(log, base, t.naming, t.free) && |t.free| > 0
    requires e.pdst == R.Allocated(t, Dest(e.d.instr))
    ensures Partition(log + [e], base, t.naming, R.Allocate(t, Dest(e.d.instr)).free)
  {
    OwnersPush(log, base, t, e);
    var free' := R.Allocate(t, Dest(e.d.instr)).free;
    assert 0 !in free';
    var before, after := Owners(log, base, t.naming, t.free), Owners(log + [e], base, t.naming, free');
    hide Owners, R.Allocate;
    forall p | p in after
      ensures p < R.PHYS_REGS
    {
      assert p == 0 || p in before;
    }
    forall p | 1 <= p < R.PHYS_REGS
      ensures after[p] == 1
    {
      assert before[p] == 1;
    }
  }

  lemma {:induction false} Replace(s: seq<nat>, i: nat, p: nat)
    requires i < |s|
    ensures multiset(s[i := p]) + multiset{s[i]} == multiset(s) + multiset{p}
  {
    assert s[i] in multiset(s);
  }

  lemma {:induction false} OwnersPop(log: seq<Entry>, base: nat, t: R.Table, keep: bool, flush: bool)
    requires base < |log| && R.Shape(t) && Dest(log[base].d.instr) < R.ARCH_REGS && 0 == t.naming[0]
    requires log[base].pdst == 0 <==> Dest(log[base].d.instr) == 0
    requires forall r :: 1 <= r < R.ARCH_REGS ==> t.naming[r] != 0
    ensures var t' := R.Commit(t, Dest(log[base].d.instr), log[base].pdst, keep, flush);
            Owners(log, base, t.naming, t.free)
            == Owners(log, base + 1, t'.naming, t'.free) + if log[base].pdst == 0 then multiset{0} else multiset{}
  {
    var arch, p := Dest(log[base].d.instr), log[base].pdst;
    assert Pdsts(log, base) == [p] + Pdsts(log, base + 1);
    assert multiset(Pdsts(log, base)) == multiset{p} + multiset(Pdsts(log, base + 1));
    Replace(t.naming, arch, p);
    hide Pdsts;
    if p == 0 {
      assert t.naming[0 := 0] == t.naming;
    }
  }

  /** Dropping at most zeros from the owners keeps the partition. */
  lemma {:induction false} FewerOwners(log: seq<Entry>, base: nat, naming: seq<nat>, free: seq<nat>,
        naming': seq<nat>, free': seq<nat>, zeros: multiset<nat>)
    requires base < |log| && Partition(log, base, naming, free)
    requires Owners(log, base, naming, free) == Owners(log, base + 1, naming', free') + zeros
    requires zeros == multiset{} || zeros == multiset{0}
    requires 0 !in free' && |naming'| == R.ARCH_REGS && naming'[0] == 0
    requires forall r :: 1 <= r < R.ARCH_REGS ==> naming'[r] != 0
    ensures Partition(log, base + 1, naming', free')
  {
    var before, after := Owners(log, base, naming, free), Owners(log, base + 1, naming', free');
    hide Owners;
    forall p | p in after
      ensures p < R.PHYS_REGS
    {
      assert p in before;
    }
    forall p | 1 <= p < R.PHYS_REGS
      ensures after[p] == 1
    {
      assert before[p] == 1;
    }
  }

  lemma {:induction false} PartitionPop(log: seq<Entry>, base: nat, t: R.Table, keep: bool, flush: bool)
    requires base < |log| && R.Shape(t) && Partition(log, base, t.naming, t.free)
    requires log[base].pdst == 0 <==> Dest(log[base].d.instr) == 0
    ensures var t' := R.Commit(t, Dest(log[base].d.instr), log[base].pdst, keep, flush);
            Partition(log, base + 1, t'.naming, t'.free)
  {
    hide R.Commit, Owners;
    OwnersPop(log, base, t, keep, flush);
    NamesNonZero(t, Dest(log[base].d.instr), log[base].pdst, keep, flush);
    var t' := R.Commit(t, Dest(log[base].d.instr), log[base].pdst, keep, flush);
    FewerOwners(log, base, t.naming, t.free, t'.naming, t'.free,
        if log[base].pdst == 0 then multiset{0} else multiset{});
  }

  lemma {:induction false} NamesNonZero(t: R.Table, arch: nat, phys: nat, keep: bool, flush: bool)
    requires R.Shape(t) && arch < R.ARCH_REGS && (phys == 0 <==> arch == 0) && 0 !in t.free
    requires t.naming[0] == 0 && forall r :: 1 <= r < R.ARCH_REGS ==> t.naming[r] != 0
    ensures var t' := R.Commit(t, arch, phys, keep, flush);
            0 !in t'.free && t'.naming[0] == 0 && forall r :: 1 <= r < R.ARCH_REGS ==> t'.naming[r] != 0
  {
  }

  // ----- the invariant, rule by rule

  lemma {:induction false} RenRename(log: seq<Entry>, base: nat, epoch: nat, t: R.Table, renamed: Option<Renamed>,
        d: Decoded)
    requires RenInv(log, base, epoch, t, renamed)
    ensures RenInv(log, base, epoch, t, Some(Renamed(d, R.NameOf(t, d.instr.rs1), R.NameOf(t, d.instr.rs2))))
  {
  }

  lemma {:induction false} RenDispatch(log: seq<Entry>, base: nat, epoch: nat, t: R.Table, r: Renamed)
    requires RenInv(log, base, epoch, t, Some(r)) && r.d.epoch == epoch && |t.free| > 0
    ensures var e := Entry(r.d, R.Allocated(t, Dest(r.d.instr)), r.src1, r.src2);
            RenInv(log + [e], base, epoch, R.Allocate(t, Dest(r.d.instr)), None)
  {
    hide Owners;
    var e := Entry(r.d, R.Allocated(t, Dest(r.d.instr)), r.src1, r.src2);
    var log' := log + [e];
    PartitionDispatch(log, base, t, e);
    assert t.free[0] != 0;
    forall n, arch | 0 <= n <= |log| && 0 <= arch < R.ARCH_REGS
      ensures Lookup(log', base, n, t.naming, epoch, arch) == Lookup(log, base, n, t.naming, epoch, arch)
    {
      LookupPrefix(log, [e], base, n, t.naming, epoch, arch);
    }
    var t' := R.Allocate(t, Dest(r.d.instr));
    assert t'.naming == t.naming;
    forall id | base <= id < |log'| && log'[id].d.epoch == epoch
      ensures Sources(log'[id], log', base, id, t.naming, epoch)
    {
      if id < |log| {
        assert Sources(log[id], log, base, id, t.naming, epoch);
      }
    }
    assert forall x :: 0 <= x < R.ARCH_REGS ==> R.NameOf(t', x) == Lookup(log', base, |log'|, t'.naming, epoch, x);
  }

  lemma {:induction false} SourcesPop(log: seq<Entry>, base: nat, naming: seq<nat>, naming': seq<nat>, epoch: nat)
    requires base < |log| && |naming| == |naming'| == R.ARCH_REGS
    requires forall n, x :: base < n <= |log| && 0 <= x < R.ARCH_REGS ==>
               Lookup(log, base + 1, n, naming', epoch, x) == Lookup(log, base, n, naming, epoch, x)
    ensures forall id, e :: base < id <= |log| && Sources(e, log, base, id, naming, epoch) ==>
              Sources(e, log, base + 1, id, naming', epoch)
  {
  }

  /** The retired instruction's name is committed; no lookup changes. */
  lemma {:induction false} RenRetire(log: seq<Entry>, base: nat, epoch: nat, t: R.Table, renamed: Option<Renamed>)
    requires RenInv(log, base, epoch, t, renamed) && base < |log| && log[base].d.epoch == epoch
    ensures RenInv(log, base + 1, epoch, R.Commit(t, Dest(log[base].d.instr), log[base].pdst, true, false), renamed)
  {
    var arch, p := Dest(log[base].d.instr), log[base].pdst;
    var t' := R.Commit(t, arch, p, true, false);
    PartitionPop(log, base, t, true, false);
    PartitionDistinct(log, base, t.naming, t.free);
    forall n, x | base < n <= |log| && 0 <= x < R.ARCH_REGS
      ensures Lookup(log, base + 1, n, t'.naming, epoch, x) == Lookup(log, base, n, t.naming, epoch, x)
    {
      LookupPop(log, base, n, t.naming, t'.naming, epoch, x);
    }
    if arch != 0 && arch !in t.spec {
      var w := LookupMeaning(log, base, |log|, t.naming, epoch, arch);
      assert Writes(log[base], epoch, arch);
      assert false;
    }
    assert forall x :: 0 <= x < R.ARCH_REGS ==> R.NameOf(t', x) == R.NameOf(t, x);
    SourcesPop(log, base, t.naming, t'.naming, epoch);
  }

  /** An instruction of the old epoch gives its register back and changes no name. */
  lemma {:induction false} RenDiscard(log: seq<Entry>, base: nat, epoch: nat, t: R.Table, renamed: Option<Renamed>)
    requires RenInv(log, base, epoch, t, renamed) && base < |log| && log[base].d.epoch != epoch
    ensures RenInv(log, base + 1, epoch, R.Commit(t, Dest(log[base].d.instr), log[base].pdst, false, false), renamed)
  {
    var arch, p := Dest(log[base].d.instr), log[base].pdst;
    var t' := R.Commit(t, arch, p, false, false);
    PartitionPop(log, base, t, false, false);
    PartitionDistinct(log, base, t.naming, t.free);
    forall n, x | base < n <= |log| && 0 <= x < R.ARCH_REGS
      ensures Lookup(log, base + 1, n, t'.naming, epoch, x) == Lookup(log, base, n, t.naming, epoch, x)
    {
      LookupPop(log, base, n, t.naming, t'.naming, epoch, x);
    }
    if arch in t.spec && t.backup[arch] == p {
      var w := LookupMeaning(log, base, |log|, t.naming, epoch, arch);
      assert false;
    }
    assert forall x :: 0 <= x < R.ARCH_REGS ==> R.NameOf(t', x) == R.NameOf(t, x);
    SourcesPop(log, base, t.naming, t'.naming, epoch);
  }

  /** A flush forgets the speculative names: no instruction of the new epoch exists. */
  lemma {:induction false} RenFlush(log: seq<Entry>, base: nat, epoch: nat, t: R.Table, renamed: Option<Renamed>,
        keep: bool)
    requires RenInv(log, base, epoch, t, renamed) && base < |log|
    requires forall id :: base <= id < |log| ==> log[id].d.epoch <= epoch
    requires renamed.Some? ==> renamed.value.d.epoch <= epoch
    ensures RenInv(log, base + 1, epoch + 1, R.Commit(t, Dest(log[base].d.instr), log[base].pdst, keep, true), renamed)
  {
    var t' := R.Commit(t, Dest(log[base].d.instr), log[base].pdst, keep, true);
    PartitionPop(log, base, t, keep, true);
    forall x | 0 <= x < R.ARCH_REGS
      ensures Lookup(log, base + 1, |log|, t'.naming, epoch + 1, x) == t'.naming[x]
    {
      LookupNone(log, base + 1, |log|, t'.naming, epoch + 1, x);
    }
  }
}
