// The version table of error-correction level M, versions 1 to 10, and what it implies.
module Version {
  import opened Prelude

  datatype Version = Version(
    ecPerBlock: nat, group1Blocks: nat, group1Data: nat, group2Blocks: nat, group2Data: nat, align: seq<nat>)

  predicate Built(ver: nat) {
    1 <= ver <= 10
  }

  function Of(ver: nat): Version
    requires Built(ver)
  {
    if ver == 1 then Version(10, 1, 16, 0, 0, [])
    else if ver == 2 then Version(16, 1, 28, 0, 0, [6, 18])
    else if ver == 3 then Version(26, 1, 44, 0, 0, [6, 22])
    else if ver == 4 then Version(18, 2, 32, 0, 0, [6, 26])
    else if ver == 5 then Version(24, 2, 43, 0, 0, [6, 30])
    else if ver == 6 then Version(16, 4, 27, 0, 0, [6, 34])
    else if ver == 7 then Version(18, 4, 31, 0, 0, [6, 22, 38])
    else if ver == 8 then Version(22, 2, 38, 2, 39, [6, 24, 42])
    else if ver == 9 then Version(22, 3, 36, 2, 37, [6, 26, 46])
    else Version(26, 4, 43, 1, 44, [6, 28, 50])
  }

  function DataCount(v: Version): nat {
    v.group1Blocks * v.group1Data + v.group2Blocks * v.group2Data
  }

  function Blocks(v: Version): nat {
    v.group1Blocks + v.group2Blocks
  }

  function TotalCount(v: Version): nat {
    DataCount(v) + Blocks(v) * v.ecPerBlock
  }

  function Size(ver: nat): nat {
    17 + 4 * ver
  }

  function CountBits(ver: nat): nat {
    if ver < 10 then 8 else 16
  }

  // The payload bytes a version holds: a nibble of mode and the count field cost whole codewords.
  function Capacity(ver: nat): int
    requires Built(ver)
  {
    DataCount(Of(ver)) - 1 - CountBits(ver) / 8
  }

  function FirstFit(n: nat, ver: nat): (r: Option<nat>)
    requires Built(ver)
    ensures r.Some? ==> ver <= r.value <= 10 && n <= Capacity(r.value)
    ensures r.Some? ==> forall u :: ver <= u < r.value ==> n > Capacity(u)
    ensures r.None? ==> forall u :: ver <= u <= 10 ==> n > Capacity(u)
    decreases 10 - ver
  {
    if n <= Capacity(ver) then Some(ver)
    else if ver == 10 then None
    else FirstFit(n, ver + 1)
  }

  // The smallest version that holds n bytes; none when n is over what version 10 holds.
  function SmallestVersion(n: nat): (r: Option<nat>)
    ensures r.Some? ==> Built(r.value) && n <= Capacity(r.value) && forall u :: 1 <= u < r.value ==> n > Capacity(u)
    ensures r.None? <==> n > 213
  {
    assert Capacity(10) == 213;
    FirstFit(n, 1)
  }

  // Every block of every version fits the field: no more than 255 codewords.
  lemma BlocksFitTheField(ver: nat)
    requires Built(ver)
    ensures var v := Of(ver);
            && v.group1Data + v.ecPerBlock <= 255 && v.group2Data + v.ecPerBlock <= 255
            && v.group1Blocks > 0 && v.group1Data > 0
            && (v.group2Blocks > 0 ==> v.group2Data == v.group1Data + 1) && (v.group2Blocks == 0 ==> v.group2Data == 0)
  {
  }
}
