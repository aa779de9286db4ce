/** The unit-group classifier of the trading-metrics engine: a generating unit's group
    (机组维度) is decided by the first run of digits in its name (机组名称). */
module UnitGroup {
  import opened Wrappers
  import opened Decimal

  const Group13: string := "机组1&3组"
  const Group24: string := "机组2&4组"
  const OtherUnits: string := "其他机组"
  const Unknown: string := "未知"

  /** The position of the first digit at or after i (|s| when there is none). */
  function FirstDigitFrom(s: string, i: nat): (k: nat)
    requires i <= |s|
    ensures i <= k <= |s|
    ensures forall j :: i <= j < k ==> !IsDigit(s[j])
    ensures k < |s| ==> IsDigit(s[k])
    decreases |s| - i
  {
    if i == |s| || IsDigit(s[i]) then i else FirstDigitFrom(s, i + 1)
  }

  /** `re.search(r'(\d+)', s)` read with `int(...)`: the value of the leftmost maximal
      run of digits, or None when s has no digit. */
  function FirstDigitRun(s: string): (r: Option<nat>)
    ensures r.None? <==> NoDigit(s)
    ensures r.Some? ==> exists k :: 0 <= k < |s| && NoDigit(s[..k]) && IsDigit(s[k])
                                  && r.value == DigitsValue(s[k..DigitRunEnd(s, k)])
  {
    var k := FirstDigitFrom(s, 0);
    if k == |s| then None
    else
      assert NoDigit(s[..k]);
      Some(DigitsValue(s[k..DigitRunEnd(s, k)]))
  }

  /** The group a unit number belongs to. */
  function GroupOf(n: nat): string
  {
    if n == 1 || n == 3 then Group13
    else if n == 2 || n == 4 then Group24
    else OtherUnits
  }

  /** `determine_dimension`: a missing name or one without a digit is 未知; otherwise the
      first digit run decides the group. */
  function DetermineDimension(name: Option<string>): (g: string)
    ensures g == Group13 || g == Group24 || g == OtherUnits || g == Unknown
    ensures g == Unknown <==> name.None? || NoDigit(name.value)
  {
    match name
    case None => Unknown
    case Some(s) =>
      match FirstDigitRun(s)
      case None => Unknown
      case Some(n) => GroupOf(n)
  }

  /** The first digit run of `p + d + t`, where p has no digit, d is a run of digits and
      t does not continue it, is d; so d alone decides the group. */
  lemma LeadingRunDecides(p: string, d: string, t: string)
    requires NoDigit(p) && |d| > 0 && IsDigits(d)
    requires t == [] || !IsDigit(t[0])
    ensures FirstDigitRun(p + d + t) == Some(DigitsValue(d))
    ensures DetermineDimension(Some(p + d + t)) == GroupOf(DigitsValue(d))
  {
    var s := p + d + t;
    assert s[|p|] == d[0];
    FirstDigitAt(s, 0, |p|);
    assert s[|p|..|p| + |d|] == d;
    DigitRunEndAt(s, |p|, |p| + |d|);
  }

  lemma {:induction false} FirstDigitAt(s: string, i: nat, k: nat)
    requires i <= k < |s| && IsDigit(s[k])
    requires forall j :: i <= j < k ==> !IsDigit(s[j])
    ensures FirstDigitFrom(s, i) == k
    decreases k - i
  {
    if i < k {
      FirstDigitAt(s, i + 1, k);
    }
  }

  /** Units 1 and 3 share a group. */
  lemma UnitsOneAndThree()
    ensures DetermineDimension(Some("1号机组")) == DetermineDimension(Some("3号机组")) == Group13
  {
    UnitOne();
    UnitThree();
  }

  lemma UnitOne()
    ensures DetermineDimension(Some("1号机组")) == Group13
  {
    assert "" + "1" + "号机组" == "1号机组";
    LeadingRunDecides("", "1", "号机组");
  }

  lemma UnitThree()
    ensures DetermineDimension(Some("3号机组")) == Group13
  {
    assert "" + "3" + "号机组" == "3号机组";
    LeadingRunDecides("", "3", "号机组");
  }

  /** Units 2 and 4 share the other group; leading zeros do not matter. */
  lemma UnitsTwoAndFour()
    ensures DetermineDimension(Some("#2机")) == DetermineDimension(Some("04机组")) == Group24
  {
    UnitTwo();
    UnitFour();
  }

  lemma UnitTwo()
    ensures DetermineDimension(Some("#2机")) == Group24
  {
    assert "#" + "2" + "机" == "#2机";
    LeadingRunDecides("#", "2", "机");
  }

  lemma UnitFour()
    ensures DetermineDimension(Some("04机组")) == Group24
  {
    assert "" + "04" + "机组" == "04机组";
    assert DigitsValue("04") == 4 by { assert "04"[..1] == "0"; }
    LeadingRunDecides("", "04", "机组");
  }

  /** The digit run is read whole, so unit 10 is not unit 1; a name without a digit
      and a missing name have no group. */
  lemma UnitTenAndUnknown()
    ensures DetermineDimension(Some("10号机组")) == OtherUnits
    ensures DetermineDimension(Some("机组")) == Unknown
    ensures DetermineDimension(None) == Unknown
  {
    UnitTen();
    assert NoDigit("机组");
  }

  lemma UnitTen()
    ensures DetermineDimension(Some("10号机组")) == OtherUnits
  {
    assert "" + "10" + "号机组" == "10号机组";
    assert DigitsValue("10") == 10 by { assert "10"[..1] == "1"; }
    LeadingRunDecides("", "10", "号机组");
  }
}
