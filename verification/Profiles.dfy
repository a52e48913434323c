/**
 Partition profiles, their validation, and the allocation of the groups of a
 profile to the GPUs of a node.
 */
module Profiles {
  import opened Wrappers

  type uint32 = n: int | 0 <= n < 0x1_0000_0000

  /** One entry of a profile: `count` GPUs get the pair compute-memory. */
  datatype Group = Group(compute: string, memory: string, count: uint32)

  /** `filters` is absent when the profile has no skip list. */
  datatype Profile = Profile(filters: Option<seq<uint32>>, groups: seq<Group>)

  datatype TypeError = BadCompute | BadMemory

  datatype Verdict =
    | Accepted
    | FilterTooLong
    | BadGpuId
    | CountMismatch
    | InvalidType(error: TypeError)
    | MixedMemory

  const VALID_COMPUTE := ["SPX", "CPX", "DPX", "QPX"]
  const VALID_MEMORY := ["NPS1", "NPS2", "NPS4", "NPS8"]

  function Skips(p: Profile): seq<uint32> {
    match p.filters
    case None => []
    case Some(ids) => ids
  }

  predicate ValidTypes(g: Group) {
    g.compute in VALID_COMPUTE && g.memory in VALID_MEMORY
  }

  /** What is reported of an invalid pair: the compute type is looked at first. */
  function TypeErrorOf(g: Group): TypeError {
    if g.compute in VALID_COMPUTE then BadMemory else BadCompute
  }

  /** The number of GPUs requested by the first `i` groups. */
  function Prefix(groups: seq<Group>, i: nat): nat
    requires i <= |groups|
  {
    if i == 0 then 0 else Prefix(groups, i - 1) + groups[i - 1].count
  }

  // ----- validation -----

  /** The verdict on the groups from `i` on: the first offending group decides. */
  function GroupVerdict(groups: seq<Group>, i: nat): Verdict
    requires i <= |groups|
    decreases |groups| - i
  {
    if i == |groups| then Accepted
    else if !ValidTypes(groups[i]) then InvalidType(TypeErrorOf(groups[i]))
    else if groups[i].memory != groups[0].memory then MixedMemory
    else GroupVerdict(groups, i + 1)
  }

  function Validate(p: Profile, total: nat): Verdict {
    if |Skips(p)| > total then FilterTooLong
    else if exists id <- Skips(p) :: id + 1 > total then BadGpuId
    else if Prefix(p.groups, |p.groups|) + |Skips(p)| != total then CountMismatch
    else GroupVerdict(p.groups, 0)
  }

  /**
   `profiles[0]` is read after the count check: a profile without groups that
   skips every GPU of the node has no first group.
   */
  predicate HasFirstGroup(p: Profile, total: nat) {
    p.groups != [] || |Skips(p)| != total
  }

  ghost predicate Acceptable(p: Profile, total: nat) {
    && (forall id <- Skips(p) :: id < total)
    && Prefix(p.groups, |p.groups|) + |Skips(p)| == total
    && (forall g <- p.groups :: ValidTypes(g))
    && (forall g <- p.groups, h <- p.groups :: g.memory == h.memory)
  }

  lemma {:induction false} GroupVerdictExact(groups: seq<Group>, i: nat)
    requires i <= |groups|
    ensures GroupVerdict(groups, i) == Accepted <==>
            forall k :: i <= k < |groups| ==> ValidTypes(groups[k]) && groups[k].memory == groups[0].memory
    decreases |groups| - i
  {
    if i < |groups| {
      GroupVerdictExact(groups, i + 1);
    }
  }

  /** A profile is accepted exactly when it meets every documented check. */
  lemma ValidateExact(p: Profile, total: nat)
    ensures Validate(p, total) == Accepted <==> Acceptable(p, total)
  {
    GroupVerdictExact(p.groups, 0);
    if Validate(p, total) == Accepted {
      forall g, h | g in p.groups && h in p.groups
        ensures g.memory == h.memory
      {
        assert g.memory == p.groups[0].memory && h.memory == p.groups[0].memory;
      }
    }
  }

  /** Which error is reported when several checks fail: the checks on ids and counts come first, in this order. */
  lemma VerdictExact(p: Profile, total: nat)
    ensures Validate(p, total) == FilterTooLong <==> |Skips(p)| > total
    ensures Validate(p, total) == BadGpuId <==> |Skips(p)| <= total && exists id <- Skips(p) :: id >= total
    ensures Validate(p, total) == CountMismatch <==>
              && |Skips(p)| <= total && (forall id <- Skips(p) :: id < total)
              && Prefix(p.groups, |p.groups|) + |Skips(p)| != total
  {
    GroupVerdictKinds(p.groups, 0);
  }

  lemma {:induction false} GroupVerdictKinds(groups: seq<Group>, i: nat)
    requires i <= |groups|
    ensures var v := GroupVerdict(groups, i); v == Accepted || v == MixedMemory || v.InvalidType?
    decreases |groups| - i
  {
    if i < |groups| {
      GroupVerdictKinds(groups, i + 1);
    }
  }

  ghost predicate GroupsFine(groups: seq<Group>, n: nat)
    requires n <= |groups|
  {
    forall k :: 0 <= k < n ==> ValidTypes(groups[k]) && groups[k].memory == groups[0].memory
  }

  /** The first offending group decides the verdict: an invalid type before a memory mode that differs. */
  lemma {:induction false} FirstOffender(groups: seq<Group>, i: nat) returns (k: nat)
    requires i <= |groups| && GroupsFine(groups, i) && GroupVerdict(groups, i) != Accepted
    ensures i <= k < |groups| && GroupsFine(groups, k)
    ensures GroupVerdict(groups, i) ==
            if ValidTypes(groups[k]) then MixedMemory else InvalidType(TypeErrorOf(groups[k]))
    ensures ValidTypes(groups[k]) ==> groups[k].memory != groups[0].memory
    decreases |groups| - i
  {
    if ValidTypes(groups[i]) && groups[i].memory == groups[0].memory {
      k := FirstOffender(groups, i + 1);
    } else {
      k := i;
    }
  }

  method ValidateList(config: string, validList: seq<string>) returns (found: bool)
    ensures found <==> config in validList
  {
    for i := 0 to |validList|
      invariant config !in validList[..i]
    {
      if validList[i] == config {
        return true;
      }
    }
    return false;
  }

  method CheckInvalidPartitionType(compute: string, memory: string) returns (error: Option<TypeError>)
    ensures error == None <==> compute in VALID_COMPUTE && memory in VALID_MEMORY
    ensures error == Some(BadCompute) <==> compute !in VALID_COMPUTE
    ensures error == Some(BadMemory) <==> compute in VALID_COMPUTE && memory !in VALID_MEMORY
  {
    var ok := ValidateList(compute, VALID_COMPUTE);
    if !ok {
      return Some(BadCompute);
    }
    ok := ValidateList(memory, VALID_MEMORY);
    if !ok {
      return Some(BadMemory);
    }
    return None;
  }

  method ValidateProfile(p: Profile, total: nat) returns (v: Verdict)
    requires HasFirstGroup(p, total)
    ensures v == Validate(p, total)
  {
    var skips := Skips(p);
    if |skips| > total {
      return FilterTooLong;
    }
    for i := 0 to |skips|
      invariant forall k :: 0 <= k < i ==> skips[k] + 1 <= total
    {
      if skips[i] + 1 > total {
        assert skips[i] in skips;
        return BadGpuId;
      }
    }
    var devices := 0;
    for i := 0 to |p.groups|
      invariant devices == Prefix(p.groups, i)
    {
      devices := devices + p.groups[i].count;
    }
    if devices + |skips| != total {
      return CountMismatch;
    }
    var currentMemory := p.groups[0].memory;
    for i := 0 to |p.groups|
      invariant GroupVerdict(p.groups, 0) == GroupVerdict(p.groups, i)
    {
      var error := CheckInvalidPartitionType(p.groups[i].compute, p.groups[i].memory);
      if error.Some? {
        return InvalidType(error.value);
      }
      if currentMemory != p.groups[i].memory {
        return MixedMemory;
      }
    }
    return Accepted;
  }

  // ----- usable GPUs -----

  /** The GPUs below `total` that are not skipped, in ascending order. */
  function UsableGpus(skips: seq<uint32>, total: nat): seq<nat> {
    if total == 0 then []
    else UsableGpus(skips, total - 1) + (if total - 1 in skips then [] else [total - 1])
  }

  method CreateGPUIDList(skips: seq<uint32>, total: nat) returns (ids: seq<nat>)
    ensures ids == UsableGpus(skips, total)
  {
    ids := [];
    for i := 0 to total
      invariant ids == UsableGpus(skips, i)
    {
      var skip := false;
      for j := 0 to |skips|
        invariant !skip
        invariant i !in skips[..j]
      {
        if skips[j] == i {
          skip := true;
          break;
        }
      }
      if !skip {
        ids := ids + [i];
      }
    }
  }

  ghost predicate Distinct<T>(s: seq<T>) {
    forall i, j :: 0 <= i < j < |s| ==> s[i] != s[j]
  }

  ghost predicate Ascending(s: seq<nat>) {
    forall i, j :: 0 <= i < j < |s| ==> s[i] < s[j]
  }

  /** The usable list is the ascending complement of the skip list. */
  lemma {:induction false} UsableIsComplement(skips: seq<uint32>, total: nat)
    ensures Ascending(UsableGpus(skips, total))
    ensures forall g :: g in UsableGpus(skips, total) <==> 0 <= g < total && g !in skips
  {
    if total > 0 {
      UsableIsComplement(skips, total - 1);
      var before := UsableGpus(skips, total - 1);
      assert forall i :: 0 <= i < |before| ==> before[i] in before;
    }
  }

  lemma {:induction false} UsableCount(skips: seq<uint32>, total: nat)
    ensures |UsableGpus(skips, total)| + |set s: uint32 | s in skips && s < total| == total
  {
    if total == 0 {
      assert (set s: uint32 | s in skips && s < total) == {};
    } else {
      UsableCount(skips, total - 1);
      var before := set s: uint32 | s in skips && s < total - 1;
      var now := set s: uint32 | s in skips && s < total;
      if total - 1 in skips {
        assert now == before + {total - 1};
      } else {
        assert now == before;
      }
    }
  }

  ghost function Elements(s: seq<uint32>): set<uint32> {
    set x | x in s
  }

  lemma {:induction false} ElementCount(s: seq<uint32>)
    ensures |Elements(s)| <= |s|
    ensures |Elements(s)| == |s| <==> Distinct(s)
  {
    if s != [] {
      var front, last := s[..|s| - 1], s[|s| - 1];
      ElementCount(front);
      assert s == front + [last];
      if last in front {
        assert Elements(s) == Elements(front);
        var k :| 0 <= k < |front| && front[k] == last;
        assert s[k] == s[|front|];
      } else {
        assert Elements(s) == Elements(front) + {last};
        assert Distinct(s) <==> Distinct(front) by {
          assert forall i :: 0 <= i < |front| ==> s[i] == front[i] && front[i] in front;
        }
      }
    }
  }

  // ----- allocation -----

  /** Each group repeated as often as it asks for GPUs. */
  function Flatten(groups: seq<Group>): seq<Group> {
    if groups == [] then []
    else
      var last := groups[|groups| - 1];
      Flatten(groups[..|groups| - 1]) + seq(last.count, _ => last)
  }

  lemma {:induction false} PrefixOfFront(groups: seq<Group>, n: nat, i: nat)
    requires i <= n <= |groups|
    ensures Prefix(groups[..n], i) == Prefix(groups, i)
  {
    if i > 0 {
      PrefixOfFront(groups, n, i - 1);
    }
  }

  lemma {:induction false} FlattenLength(groups: seq<Group>)
    ensures |Flatten(groups)| == Prefix(groups, |groups|)
  {
    if groups != [] {
      FlattenLength(groups[..|groups| - 1]);
      PrefixOfFront(groups, |groups| - 1, |groups| - 1);
    }
  }

  lemma {:induction false} PrefixMonotone(groups: seq<Group>, i: nat, j: nat)
    requires i <= j <= |groups|
    ensures Prefix(groups, i) <= Prefix(groups, j)
  {
    if i < j {
      PrefixMonotone(groups, i, j - 1);
    }
  }

  /** Position `k` of the flat list belongs to the group whose prefix range holds `k`. */
  lemma {:induction false} FlattenAt(groups: seq<Group>, i: nat, k: nat)
    requires i < |groups| && Prefix(groups, i) <= k < Prefix(groups, i + 1)
    ensures k < |Flatten(groups)| && Flatten(groups)[k] == groups[i]
  {
    var n := |groups| - 1;
    var front := groups[..n];
    FlattenLength(groups);
    FlattenLength(front);
    PrefixOfFront(groups, n, n);
    PrefixMonotone(groups, i + 1, |groups|);
    if i < n {
      PrefixOfFront(groups, n, i);
      PrefixOfFront(groups, n, i + 1);
      FlattenAt(front, i, k);
    }
  }

  /** Every flat position belongs to some group. */
  lemma {:induction false} FlattenMember(groups: seq<Group>, k: nat) returns (i: nat)
    requires k < |Flatten(groups)|
    ensures i < |groups| && Prefix(groups, i) <= k < Prefix(groups, i + 1) && Flatten(groups)[k] == groups[i]
  {
    FlattenLength(groups);
    i := 0;
    while Prefix(groups, i + 1) <= k
      invariant i < |groups| && Prefix(groups, i) <= k
      decreases |groups| - i
    {
      i := i + 1;
    }
    FlattenAt(groups, i, k);
  }

  /**
   An accepted profile never asks for more GPUs than are usable, even when its
   skip list repeats an id, and it uses all of them exactly when no id repeats.
   */
  lemma AllocationFits(p: Profile, total: nat)
    requires Validate(p, total) == Accepted
    ensures |Flatten(p.groups)| + |Skips(p)| == total
    ensures |Flatten(p.groups)| <= |UsableGpus(Skips(p), total)|
    ensures |Flatten(p.groups)| == |UsableGpus(Skips(p), total)| <==> Distinct(Skips(p))
  {
    var skips := Skips(p);
    ValidateExact(p, total);
    FlattenLength(p.groups);
    UsableCount(skips, total);
    ElementCount(skips);
    assert (set s: uint32 | s in skips && s < total) == Elements(skips);
  }

  /**
   Allocation refines the flat specification: the k-th usable GPU gets the group
   whose prefix range holds k, and that GPU exists on the node and is not skipped.
   */
  lemma AllocationIsFlat(p: Profile, total: nat, i: nat, k: nat)
    requires Validate(p, total) == Accepted
    requires i < |p.groups| && Prefix(p.groups, i) <= k < Prefix(p.groups, i + 1)
    ensures k < |Flatten(p.groups)| <= |UsableGpus(Skips(p), total)|
    ensures Flatten(p.groups)[k] == p.groups[i]
    ensures UsableGpus(Skips(p), total)[k] < total && UsableGpus(Skips(p), total)[k] !in Skips(p)
  {
    FlattenAt(p.groups, i, k);
    AllocationFits(p, total);
    UsableIsComplement(Skips(p), total);
    assert UsableGpus(Skips(p), total)[k] in UsableGpus(Skips(p), total);
  }

  /** `g` is the GPU of some flat position of the profile. */
  ghost predicate Assigned(p: Profile, total: nat, g: nat) {
    exists k :: 0 <= k < |Flatten(p.groups)| && k < |UsableGpus(Skips(p), total)| && UsableGpus(Skips(p), total)[k] == g
  }

  /**
   Different positions get different GPUs, and every usable GPU is assigned
   exactly when the ids of the skip list are distinct.
   */
  lemma AllocationBijective(p: Profile, total: nat)
    requires Validate(p, total) == Accepted
    ensures Distinct(UsableGpus(Skips(p), total))
    ensures (forall g: nat :: g < total && g !in Skips(p) ==> Assigned(p, total, g)) <==> Distinct(Skips(p))
  {
    var usable := UsableGpus(Skips(p), total);
    var n := |Flatten(p.groups)|;
    AllocationFits(p, total);
    UsableIsComplement(Skips(p), total);
    if Distinct(Skips(p)) {
      forall g: nat | g < total && g !in Skips(p) ensures Assigned(p, total, g) {
        assert g in usable;
        var k :| 0 <= k < |usable| && usable[k] == g;
      }
    } else {
      assert usable[n] in usable;
      assert !Assigned(p, total, usable[n]);
    }
  }
}
