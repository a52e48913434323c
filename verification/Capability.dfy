/**
 Decoding of the memory-partition capability mask, and the conversion of mode
 names to AMD SMI constants.
 */
module Capability {
  import opened Profiles
  import opened Wrappers

  const MEMORY_PARTITION_UNKNOWN := 0

  /** The descriptor table in bit order: AMD SMI constant and name. */
  datatype Part = Part(mode: int, name: string)

  const PARTS := [Part(1, "NPS1"), Part(2, "NPS2"), Part(4, "NPS4"), Part(8, "NPS8")]

  /** What `amdsmi_get_gpu_memory_partition_config` answers: a status failure or a mask and a mode. */
  datatype Config = Unavailable | Config(mask: bv32, mode: int)

  /** Whether each of the four descriptor bits is set. */
  function Bits(mask: bv32): (bits: seq<bool>)
    ensures |bits| == |PARTS|
  {
    [mask & 0x1 != 0, mask & 0x2 != 0, mask & 0x4 != 0, mask & 0x8 != 0]
  }

  /** The set bits among the first `n`, in ascending order. */
  function SetBits(bits: seq<bool>, n: nat): (ranks: seq<nat>)
    requires n <= |bits|
    ensures forall r <- ranks :: r < n
  {
    if n == 0 then []
    else SetBits(bits, n - 1) + (if bits[n - 1] then [n - 1] else [])
  }

  /** The name at a position of the descriptor table. */
  function NameAt(i: nat): string {
    if i == 0 then "NPS1" else if i == 1 then "NPS2" else if i == 2 then "NPS4" else "NPS8"
  }

  function NamesOf(ranks: seq<nat>): (names: seq<string>)
    ensures |names| == |ranks|
    ensures forall i :: 0 <= i < |ranks| ==> names[i] == NameAt(ranks[i])
  {
    seq(|ranks|, i requires 0 <= i < |ranks| => NameAt(ranks[i]))
  }

  function ByMask(bits: seq<bool>): seq<string>
    requires |bits| == |PARTS|
  {
    NamesOf(SetBits(bits, |PARTS|))
  }

  function ByMode(mode: int): seq<string> {
    if mode == 1 then ["NPS1"]
    else if mode == 2 then ["NPS2"]
    else if mode == 4 then ["NPS4"]
    else if mode == 8 then ["NPS8"]
    else []
  }

  /** The supported modes; the empty list stands for the error return. */
  function Supported(c: Config): seq<string> {
    match c
    case Unavailable => []
    case Config(mask, mode) =>
      var names := ByMask(Bits(mask));
      if names != [] then names else ByMode(mode)
  }

  lemma PartAt(i: nat)
    requires i < |PARTS|
    ensures PARTS[i].name == NameAt(i) && NameAt(i) in VALID_MEMORY && Rank(NameAt(i)) == i
    ensures ByMode(PARTS[i].mode) == [NameAt(i)]
    ensures PARTS[i].mode != MEMORY_PARTITION_UNKNOWN
  {
    assert i == 0 || i == 1 || i == 2 || i == 3;
  }

  lemma ModeInTable(mode: int)
    requires ByMode(mode) != []
    ensures exists i: nat :: i < |PARTS| && PARTS[i].mode == mode
  {
    assert PARTS[0].mode == 1 && PARTS[1].mode == 2 && PARTS[2].mode == 4 && PARTS[3].mode == 8;
  }

  method GetSupportedMemoryPartitionType(c: Config) returns (supported: Option<seq<string>>)
    ensures supported == if Supported(c) == [] then None else Some(Supported(c))
    ensures supported != Some([]) && Decodes(c, if supported.Some? then supported.value else [])
  {
    hide NameAt, ByMode, Decodes, Bits, SetBits, NamesOf;
    SupportedDecodes(c);
    if c.Unavailable? {
      return None;
    }
    var bits := Bits(c.mask);
    var names: seq<string> := [];
    NoName(bits);
    for i := 0 to |PARTS|
      invariant names == NamesOf(SetBits(bits, i))
    {
      NextName(bits, i);
      if bits[i] {
        names := names + [PARTS[i].name];
      }
    }
    assert names == ByMask(bits);
    if |names| == 0 && c.mode != MEMORY_PARTITION_UNKNOWN {
      names := CurrentMode(c.mode);
    } else if |names| == 0 {
      assert ByMode(MEMORY_PARTITION_UNKNOWN) == [] by { UnknownMode(); }
    }
    if |names| == 0 {
      return None;
    }
    return Some(names);
  }

  lemma NoName(bits: seq<bool>)
    ensures NamesOf(SetBits(bits, 0)) == []
  {
  }

  lemma NextName(bits: seq<bool>, i: nat)
    requires i < |bits| == |PARTS|
    ensures NamesOf(SetBits(bits, i + 1)) == NamesOf(SetBits(bits, i)) + if bits[i] then [PARTS[i].name] else []
  {
    hide NameAt;
    PartAt(i);
  }

  lemma UnknownMode()
    ensures ByMode(MEMORY_PARTITION_UNKNOWN) == []
  {
  }

  /** The fallback of the mask decoding: the name of the current mode, if it has one. */
  method CurrentMode(mode: int) returns (names: seq<string>)
    ensures names == ByMode(mode)
  {
    hide ByMode, NameAt;
    for i := 0 to |PARTS|
      invariant forall k :: 0 <= k < i ==> PARTS[k].mode != mode
    {
      if mode == PARTS[i].mode {
        PartAt(i);
        return [PARTS[i].name];
      }
    }
    if ByMode(mode) != [] {
      ModeInTable(mode);
    }
    return [];
  }

  /** Position of a valid memory mode in NPS order. */
  function Rank(name: string): nat {
    if name == "NPS1" then 0 else if name == "NPS2" then 1 else if name == "NPS4" then 2 else 3
  }

  ghost predicate InNpsOrder(names: seq<string>) {
    forall i, j :: 0 <= i < j < |names| ==> Rank(names[i]) < Rank(names[j])
  }

  lemma {:induction false} SetBitsExact(bits: seq<bool>, n: nat)
    requires n <= |bits|
    ensures Ascending(SetBits(bits, n))
    ensures forall i: nat :: i in SetBits(bits, n) <==> i < n && bits[i]
  {
    if n > 0 {
      SetBitsExact(bits, n - 1);
      var before := SetBits(bits, n - 1);
      assert forall i :: 0 <= i < |before| ==> before[i] in before;
    }
  }

  lemma NamesOfExact(ranks: seq<nat>, i: nat)
    requires (forall r <- ranks :: r < |PARTS|) && i < |PARTS|
    ensures NameAt(i) in NamesOf(ranks) <==> i in ranks
    ensures forall name <- NamesOf(ranks) :: name in VALID_MEMORY
    ensures Ascending(ranks) ==> InNpsOrder(NamesOf(ranks))
  {
    hide NameAt, Rank;
    var names := NamesOf(ranks);
    PartAt(i);
    forall k | 0 <= k < |ranks| ensures Rank(names[k]) == ranks[k] && names[k] in VALID_MEMORY {
      assert ranks[k] in ranks;
      PartAt(ranks[k]);
    }
    if i in ranks {
      var k :| 0 <= k < |ranks| && ranks[k] == i;
      assert names[k] in names;
    }
  }

  lemma ByModeExact(mode: int, i: nat)
    requires i < |PARTS|
    ensures NameAt(i) in ByMode(mode) <==> mode == PARTS[i].mode
    ensures |ByMode(mode)| <= 1 && forall name <- ByMode(mode) :: name in VALID_MEMORY
  {
    assert i == 0 || i == 1 || i == 2 || i == 3;
  }

  /** The low four bits are clear exactly when no descriptor bit is set. */
  lemma LowBits(mask: bv32)
    ensures mask & 0xF == 0 <==> forall i: nat :: i < |PARTS| ==> !Bits(mask)[i]
  {
    assert Bits(mask)[0] == (mask & 0x1 != 0) && Bits(mask)[1] == (mask & 0x2 != 0);
    assert Bits(mask)[2] == (mask & 0x4 != 0) && Bits(mask)[3] == (mask & 0x8 != 0);
    assert mask & 0xF == 0 <==> mask & 0x1 == 0 && mask & 0x2 == 0 && mask & 0x4 == 0 && mask & 0x8 == 0;
  }

  lemma SupportedByBits(mask: bv32, mode: int, i: nat)
    requires i < |PARTS|
    ensures InNpsOrder(Supported(Config(mask, mode)))
    ensures Distinct(Supported(Config(mask, mode)))
    ensures forall name <- Supported(Config(mask, mode)) :: name in VALID_MEMORY
    ensures NameAt(i) in Supported(Config(mask, mode)) <==>
            Bits(mask)[i] || (mask & 0xF == 0 && mode == PARTS[i].mode)
  {
    hide Bits, NameAt, ByMode, Rank, VALID_MEMORY, SetBits;
    var bits := Bits(mask);
    var ranks := SetBits(bits, |PARTS|);
    SetBitsExact(bits, |PARTS|);
    NamesOfExact(ranks, i);
    ByModeExact(mode, i);
    LowBits(mask);
    if ranks != [] {
      assert ranks[0] in ranks;
    } else {
      assert forall k: nat :: k < |PARTS| ==> k !in ranks;
    }
  }

  /** The bit of each position, as a mask. */
  lemma BitMasks(mask: bv32)
    ensures Bits(mask)[0] == (mask & 0x1 != 0) && Bits(mask)[1] == (mask & 0x2 != 0)
    ensures Bits(mask)[2] == (mask & 0x4 != 0) && Bits(mask)[3] == (mask & 0x8 != 0)
    ensures mask & 0xF == 0 ==> mask & 0x1 == 0 && mask & 0x2 == 0 && mask & 0x4 == 0 && mask & 0x8 == 0
  {
  }

  /**
   For every mask and mode: the list is in NPS order without repetition. If one of
   the low four bits is set, a mode is listed exactly when its bit is; otherwise the
   list is the current mode, or empty if that is none of the four.
   */
  lemma SupportedExact(mask: bv32, mode: int)
    ensures InNpsOrder(Supported(Config(mask, mode)))
    ensures Distinct(Supported(Config(mask, mode)))
    ensures forall name <- Supported(Config(mask, mode)) :: name in ["NPS1", "NPS2", "NPS4", "NPS8"]
    ensures mask & 0xF != 0 ==> ListsBits(Supported(Config(mask, mode)), mask)
    ensures mask & 0xF == 0 ==> ListsMode(Supported(Config(mask, mode)), mode)
  {
    hide Bits, ByMode, Supported, Rank;
    forall i: nat | i < 4
      ensures NameAt(i) in Supported(Config(mask, mode)) <==>
              Bits(mask)[i] || (mask & 0xF == 0 && mode == PARTS[i].mode)
    {
      SupportedByBits(mask, mode, i);
    }
    SupportedByBits(mask, mode, 0);
    BitMasks(mask);
    assert NameAt(0) == "NPS1" && NameAt(1) == "NPS2" && NameAt(2) == "NPS4" && NameAt(3) == "NPS8";
    if mask & 0xF == 0 {
      NoBitSet(mask, mode);
    }
  }

  /** The list names exactly the modes whose bit is set. */
  predicate ListsBits(names: seq<string>, mask: bv32) {
    && ("NPS1" in names <==> mask & 0x1 != 0)
    && ("NPS2" in names <==> mask & 0x2 != 0)
    && ("NPS4" in names <==> mask & 0x4 != 0)
    && ("NPS8" in names <==> mask & 0x8 != 0)
  }

  /** The list is the one mode of this AMD SMI constant, if there is one. */
  predicate ListsMode(names: seq<string>, mode: int) {
    && (mode == 1 ==> names == ["NPS1"])
    && (mode == 2 ==> names == ["NPS2"])
    && (mode == 4 ==> names == ["NPS4"])
    && (mode == 8 ==> names == ["NPS8"])
    && (mode != 1 && mode != 2 && mode != 4 && mode != 8 ==> names == [])
  }

  /** What the error return, or the empty list, and every other list mean. */
  predicate Decodes(c: Config, names: seq<string>) {
    match c
    case Unavailable => names == []
    case Config(mask, mode) => if mask & 0xF != 0 then ListsBits(names, mask) else ListsMode(names, mode)
  }

  lemma SupportedDecodes(c: Config)
    ensures Decodes(c, Supported(c))
  {
    hide ListsBits, ListsMode;
    if c.Config? {
      SupportedExact(c.mask, c.mode);
    }
  }

  lemma NoBitSet(mask: bv32, mode: int)
    requires mask & 0xF == 0
    ensures ListsMode(Supported(Config(mask, mode)), mode)
  {
    hide Bits, SetBits, NameAt, ByMode;
    LowBits(mask);
    NoneSet(Bits(mask), |PARTS|);
    assert Supported(Config(mask, mode)) == ByMode(mode);
    ModeListed(mode);
  }

  lemma {:induction false} NoneSet(bits: seq<bool>, n: nat)
    requires n <= |bits| && forall i :: 0 <= i < n ==> !bits[i]
    ensures SetBits(bits, n) == []
  {
    if n > 0 {
      NoneSet(bits, n - 1);
    }
  }

  lemma ModeListed(mode: int)
    ensures ListsMode(ByMode(mode), mode)
  {
  }

  // ----- conversion of names -----

  function ConvertCompute(name: string): int {
    if name == "CPX" then 5
    else if name == "SPX" then 1
    else if name == "DPX" then 2
    else if name == "QPX" then 4
    else 1
  }

  function ConvertMemory(name: string): int {
    if name == "NPS1" then 1
    else if name == "NPS2" then 2
    else if name == "NPS4" then 4
    else if name == "NPS8" then 8
    else 1
  }

  /** The mode a device reports after it was set to an AMD SMI constant. */
  function ComputeName(mode: int): string {
    if mode == 5 then "CPX"
    else if mode == 1 then "SPX"
    else if mode == 2 then "DPX"
    else if mode == 4 then "QPX"
    else "TPX"
  }

  function MemoryName(mode: int): string {
    if mode == 1 then "NPS1"
    else if mode == 2 then "NPS2"
    else if mode == 4 then "NPS4"
    else if mode == 8 then "NPS8"
    else "UNKNOWN"
  }

  /**
   On validated groups the converters never fall into their default branch, and
   every valid name is converted to its AMD SMI constant.
   */
  lemma ConvertersExact(g: Group)
    ensures ConvertCompute("SPX") == 1 && ConvertCompute("DPX") == 2
    ensures ConvertCompute("QPX") == 4 && ConvertCompute("CPX") == 5
    ensures ConvertMemory("NPS1") == 1 && ConvertMemory("NPS2") == 2
    ensures ConvertMemory("NPS4") == 4 && ConvertMemory("NPS8") == 8
    ensures g.compute in VALID_COMPUTE <==> ComputeName(ConvertCompute(g.compute)) == g.compute
    ensures g.memory in VALID_MEMORY <==> MemoryName(ConvertMemory(g.memory)) == g.memory
  {
  }
}
