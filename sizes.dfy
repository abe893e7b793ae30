/** `Drive.human_size` of src/disks/disks.py: the capacity in bytes divided
    by 1024 once per unit until Python's `round` of the quotient is at most
    999. Python computes on binary floats; dividing by 1024 is exact there,
    and so is the first division for byte counts below 2^53, so the quotients
    are modelled as exact reals. */
module HumanSizes {
  import opened Wrappers

  const UnitNames: seq<string> := ["Kb", "Mb", "Gb", "Tb", "Pb"]

  /** Python's `round(x)`: the nearest integer, ties to the even one. */
  function RoundHalfEven(x: real): (r: int)
    ensures x - 0.5 <= r as real <= x + 0.5
    ensures (r as real == x - 0.5 || r as real == x + 0.5) ==> r % 2 == 0
  {
    var f := x.Floor;
    var d := x - f as real;
    if d < 0.5 then f
    else if d > 0.5 then f + 1
    else if f % 2 == 0 then f
    else f + 1
  }

  /** A rounded value is at most 999 exactly when the value is below 999.5:
      999.5 itself rounds to the even 1000. */
  lemma RoundedAtMost999(x: real)
    ensures RoundHalfEven(x) <= 999 <==> x < 999.5
  {
    var r := RoundHalfEven(x);
    if x >= 999.5 {
      assert r >= 999;
      assert 999 % 2 != 0;
    }
  }

  lemma RoundHalfEvenMonotonic(x: real, y: real)
    requires x <= y
    ensures RoundHalfEven(x) <= RoundHalfEven(y)
  {
    var rx, ry := RoundHalfEven(x), RoundHalfEven(y);
    assert rx > ry ==> rx as real == y + 0.5 && ry as real == y - 0.5;
  }

  /** 1024 to the power n. */
  function Power1024(n: nat): (r: real)
    ensures r >= 1.0
  {
    if n == 0 then 1.0 else 1024.0 * Power1024(n - 1)
  }

  /** The byte count expressed in unit k (Kb is 0, Pb is 4). */
  function Scaled(bytes: int, k: nat): real {
    bytes as real / Power1024(k + 1)
  }

  /** Unit k is acceptable for the byte count. */
  predicate Fits(bytes: int, k: nat) {
    RoundHalfEven(Scaled(bytes, k)) <= 999
  }

  /** A size in one of the units: `value` in unit `UnitNames[unit]`. */
  datatype HumanSize = HumanSize(value: real, unit: nat)

  /** The first acceptable unit from k on, with the value in that unit. */
  function FirstFit(bytes: int, k: nat): (r: Option<HumanSize>)
    requires k <= |UnitNames|
    ensures r.Some? ==> k <= r.value.unit < |UnitNames| && Fits(bytes, r.value.unit)
    ensures r.Some? ==> r.value.value == Scaled(bytes, r.value.unit)
    ensures r.Some? ==> forall j :: k <= j < r.value.unit ==> !Fits(bytes, j)
    ensures r.None? <==> forall j :: k <= j < |UnitNames| ==> !Fits(bytes, j)
    decreases |UnitNames| - k
  {
    if k == |UnitNames| then None
    else if Fits(bytes, k) then Some(HumanSize(Scaled(bytes, k), k))
    else FirstFit(bytes, k + 1)
  }

  /** What `human_size` chooses for a byte count: the first of Kb, Mb, Gb,
      Tb, Pb whose rounded value is at most 999, or None (the function falls
      off its loop and returns None) when there is none. */
  function HumanSizeOf(bytes: int): (r: Option<HumanSize>)
    ensures r.Some? ==> r.value.unit < |UnitNames| && Fits(bytes, r.value.unit)
    ensures r.Some? ==> r.value.value == Scaled(bytes, r.value.unit)
    ensures r.Some? ==> forall j :: 0 <= j < r.value.unit ==> !Fits(bytes, j)
    ensures r.None? <==> forall j :: 0 <= j < |UnitNames| ==> !Fits(bytes, j)
  {
    FirstFit(bytes, 0)
  }

  /** `human_size(logical_block_size, origin_bytes)`, without the final
      formatting to three decimals. */
  method HumanSizeFor(logicalBlockSize: int, originBytes: int) returns (r: Option<HumanSize>)
    ensures r == HumanSizeOf(originBytes * logicalBlockSize)
  {
    var bytes := originBytes * logicalBlockSize;
    var size: real := bytes as real;
    for k := 0 to |UnitNames|
      invariant size == bytes as real / Power1024(k)
      invariant forall j :: 0 <= j < k ==> !Fits(bytes, j)
    {
      DivideOnce(bytes as real, Power1024(k));
      size := size / 1024.0;
      assert size == Scaled(bytes, k);
      if RoundHalfEven(size) > 999 {
        continue;
      }
      FirstFitting(bytes, k);
      return Some(HumanSize(size, k));
    }
    return None;
  }

  /** The unit that fits first is the one HumanSizeOf picks. */
  lemma FirstFitting(bytes: int, k: nat)
    requires k < |UnitNames| && Fits(bytes, k)
    requires forall j :: 0 <= j < k ==> !Fits(bytes, j)
    ensures HumanSizeOf(bytes) == Some(HumanSize(Scaled(bytes, k), k))
  {
    var r := HumanSizeOf(bytes);
    assert r.Some?;
    assert !(r.value.unit < k);
    assert !(k < r.value.unit);
  }

  lemma DivideOnce(x: real, p: real)
    requires p >= 1.0
    ensures (x / p) / 1024.0 == x / (1024.0 * p)
  {
  }

  lemma DivideMonotonic(a: real, b: real, p: real)
    requires a <= b && p >= 1.0
    ensures a / p <= b / p
  {
  }

  /** Once a unit fits a non-negative size, every larger unit fits too. */
  lemma FitsUpward(bytes: int, k: nat)
    requires bytes >= 0
    requires Fits(bytes, k)
    ensures Fits(bytes, k + 1)
  {
    var x := bytes as real;
    var p := Power1024(k + 1);
    DivideOnce(x, p);
    assert Scaled(bytes, k + 1) == Scaled(bytes, k) / 1024.0;
    RoundHalfEvenMonotonic(Scaled(bytes, k + 1), Scaled(bytes, k));
  }

  /** A larger non-negative size never gets a smaller unit. */
  lemma UnitMonotonic(small: int, large: int)
    requires 0 <= small <= large
    requires HumanSizeOf(large).Some?
    ensures HumanSizeOf(small).Some?
    ensures HumanSizeOf(small).value.unit <= HumanSizeOf(large).value.unit
  {
    var k := HumanSizeOf(large).value.unit;
    DivideMonotonic(small as real, large as real, Power1024(k + 1));
    RoundHalfEvenMonotonic(Scaled(small, k), Scaled(large, k));
    assert Fits(small, k);
    var r := HumanSizeOf(small);
    assert r.Some?;
    assert !(k < r.value.unit);
  }

  /** A non-negative size gets no unit exactly when it is at least 999.5 Pb. */
  lemma NoUnitIffHuge(bytes: int)
    requires bytes >= 0
    ensures HumanSizeOf(bytes).None? <==> Scaled(bytes, 4) >= 999.5
  {
    RoundedAtMost999(Scaled(bytes, 4));
    if Scaled(bytes, 4) < 999.5 {
      assert Fits(bytes, 4);
    } else {
      forall j | 0 <= j < |UnitNames| ensures !Fits(bytes, j) {
        if j < 4 {
          NoFitBelow(bytes, j);
        }
      }
    }
  }

  /** If Pb does not fit a non-negative size, no smaller unit does. */
  lemma {:induction false} NoFitBelow(bytes: int, j: nat)
    requires bytes >= 0 && j <= 4
    requires !Fits(bytes, 4)
    ensures !Fits(bytes, j)
    decreases 4 - j
  {
    if j < 4 {
      NoFitBelow(bytes, j + 1);
      if Fits(bytes, j) {
        FitsUpward(bytes, j);
      }
    }
  }

  /** Zero bytes shows as 0 Kb. */
  lemma ZeroIsKb()
    ensures HumanSizeOf(0) == Some(HumanSize(0.0, 0))
  {
    assert Fits(0, 0);
  }

  /** 999.499 Kb stays in Kb. */
  lemma JustUnder999KbIsKb()
    ensures HumanSizeOf(1023487) == Some(HumanSize(1023487.0 / 1024.0, 0))
  {
    assert Scaled(1023487, 0) == 1023487.0 / 1024.0;
    RoundedAtMost999(Scaled(1023487, 0));
    FirstFitting(1023487, 0);
  }

  /** 999.5 Kb rounds to the even 1000 and moves to Mb. */
  lemma HalfwayKbIsMb()
    ensures HumanSizeOf(1023488) == Some(HumanSize(1023488.0 / 1048576.0, 1))
  {
    assert Scaled(1023488, 0) == 999.5;
    RoundedAtMost999(Scaled(1023488, 0));
    assert Scaled(1023488, 1) == 1023488.0 / 1048576.0;
    RoundedAtMost999(Scaled(1023488, 1));
    FirstFitting(1023488, 1);
  }

  /** 1,024,000 bytes, exactly 1000 Kb, is shown in Mb. */
  lemma ThousandKbIsMb()
    ensures HumanSizeOf(1024000) == Some(HumanSize(1024000.0 / 1048576.0, 1))
  {
    assert Scaled(1024000, 0) == 1000.0;
    RoundedAtMost999(Scaled(1024000, 0));
    assert Scaled(1024000, 1) == 1024000.0 / 1048576.0;
    RoundedAtMost999(Scaled(1024000, 1));
    FirstFitting(1024000, 1);
  }
}
