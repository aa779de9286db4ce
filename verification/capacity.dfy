/** `extract_online_capacity`: the online unit capacity written in the clearing
    summary, read by the search `运行机组容量(\d+\.?\d*)\s*MW`. */
module Capacity {
  import opened Wrappers
  import opened Decimal
  import opened Sheets

  const Marker: string := "运行机组容量"
  const Unit: string := "MW"

  /** `\s` on the ASCII range. */
  predicate IsSpace(c: char)
  {
    c == ' ' || c == '\t' || c == '\n' || c == '\r' || c == '\U{0B}' || c == '\U{0C}'
  }

  /** The end of the run of spaces that starts at i. */
  function SpaceRunEnd(s: string, i: nat): (e: nat)
    requires i <= |s|
    ensures i <= e <= |s|
    ensures forall j :: i <= j < e ==> IsSpace(s[j])
    ensures e == |s| || !IsSpace(s[e])
    decreases |s| - i
  {
    if i < |s| && IsSpace(s[i]) then SpaceRunEnd(s, i + 1) else i
  }

  /** The marker is written at position p of s. */
  predicate MarkerAt(s: string, p: nat)
  {
    p + |Marker| <= |s| && s[p..p + |Marker|] == Marker
  }

  /** The end of the number that follows the marker at p: a digit run, then a point and
      a second digit run when a point follows (greedy, as the pattern reads it). */
  function NumberEnd(s: string, a: nat): (f: nat)
    requires a <= |s|
    ensures a <= f <= |s|
  {
    var e := DigitRunEnd(s, a);
    if e < |s| && s[e] == '.' then DigitRunEnd(s, e + 1) else e
  }

  /** The pattern matched with its start at p: the captured number read as `float(...)`,
      or None when the pattern does not match there. A failed greedy match cannot be
      rescued by backtracking: giving back digits, the point or spaces leaves a digit,
      the point or a space where `MW` must be. */
  function MatchAt(s: string, p: nat): (r: Option<real>)
    requires p <= |s|
    ensures r.Some? ==> MarkerAt(s, p)
  {
    if !MarkerAt(s, p) then None
    else
      var a := p + |Marker|;
      var e := DigitRunEnd(s, a);
      if e == a then None
      else
        var f := NumberEnd(s, a);
        var g := SpaceRunEnd(s, f);
        if g + 2 <= |s| && s[g..g + 2] == Unit then
          if f == e then Some(DigitsValue(s[a..e]) as real)
          else Some(DigitsValue(s[a..e]) as real + FracValue(s[e + 1..f]))
        else None
  }

  /** `re.search`: the match at the leftmost position from p on where the pattern
      matches (see SearchFindsNothing and SearchFindsLeftmost), or None when it matches nowhere. */
  function SearchFrom(s: string, p: nat): (r: Option<real>)
    requires p <= |s|
    decreases |s| - p
  {
    if MatchAt(s, p).Some? then MatchAt(s, p)
    else if p == |s| then None
    else SearchFrom(s, p + 1)
  }

  /** The search finds nothing exactly when the pattern matches at no position. */
  lemma {:induction false} SearchFindsNothing(s: string, p: nat)
    requires p <= |s|
    ensures SearchFrom(s, p).None? <==> forall k :: p <= k <= |s| ==> MatchAt(s, k).None?
    decreases |s| - p
  {
    if MatchAt(s, p).Some? {
      assert SearchFrom(s, p) == MatchAt(s, p);
    } else if p == |s| {
      assert SearchFrom(s, p).None?;
    } else {
      assert SearchFrom(s, p) == SearchFrom(s, p + 1);
      SearchFindsNothing(s, p + 1);
    }
  }

  /** Otherwise the search returns the match at the leftmost position where it matches. */
  lemma {:induction false} SearchFindsLeftmost(s: string, p: nat)
    requires p <= |s| && SearchFrom(s, p).Some?
    ensures exists k :: p <= k <= |s| && MatchAt(s, k) == SearchFrom(s, p)
                        && forall j :: p <= j < k ==> MatchAt(s, j).None?
    decreases |s| - p
  {
    if MatchAt(s, p).Some? {
      assert MatchAt(s, p) == SearchFrom(s, p);
    } else {
      SearchFindsLeftmost(s, p + 1);
      var k :| p + 1 <= k <= |s| && MatchAt(s, k) == SearchFrom(s, p + 1)
               && forall j :: p + 1 <= j < k ==> MatchAt(s, j).None?;
      assert forall j :: p <= j < k ==> MatchAt(s, j).None?;
    }
  }

  /** `extract_online_capacity(cell)`: None for a blank cell, otherwise the search on
      the cell's text. The text of a number or a date has no marker, so it yields None. */
  function ExtractOnlineCapacity(c: Cell): (r: Option<real>)
    ensures c.Blank? || c.Number? || c.Day? ==> r.None?
    ensures c.Text? ==> r == SearchFrom(c.t, 0)
  {
    match c
    case Text(t) => SearchFrom(t, 0)
    case _ => None
  }

  /** A captured number is never negative: the pattern has no sign. */
  lemma MatchIsNonNegative(s: string, p: nat)
    requires p <= |s| && MatchAt(s, p).Some?
    ensures MatchAt(s, p).value >= 0.0
  {
  }

  /** The text a clearing summary writes: some prefix, the marker, the integer digits,
      optionally a point and fraction digits, spaces, `MW`, and any suffix. */
  function SummaryText(pre: string, d: string, frac: Option<string>, sp: string, post: string): string
  {
    pre + Marker + d + (if frac.Some? then "." + frac.value else "") + sp + Unit + post
  }

  /** The value such a summary states. */
  function StatedValue(d: string, frac: Option<string>): real
    requires IsDigits(d)
    requires frac.Some? ==> IsDigits(frac.value)
  {
    DigitsValue(d) as real + (if frac.Some? then FracValue(frac.value) else 0.0)
  }

  /** Reading back a written summary: when the marker first occurs where it was
      written, the extracted capacity is the stated value. */
  lemma ReadsStatedCapacity(pre: string, d: string, frac: Option<string>, sp: string, post: string)
    requires |d| > 0 && IsDigits(d)
    requires frac.Some? ==> IsDigits(frac.value)
    requires forall k :: 0 <= k < |pre| ==> !MarkerAt(SummaryText(pre, d, frac, sp, post), k)
    requires forall i :: 0 <= i < |sp| ==> IsSpace(sp[i])
    ensures ExtractOnlineCapacity(Text(SummaryText(pre, d, frac, sp, post))) == Some(StatedValue(d, frac))
  {
    var s := SummaryText(pre, d, frac, sp, post);
    var p := |pre|;
    var e := p + |Marker| + |d|;
    var f := e + if frac.Some? then 1 + |frac.value| else 0;
    var g := f + |sp|;
    SummaryParts(s, pre, d, frac, sp, post, e, f, g);
    MatchAtParts(s, p, d, frac, e, f, g);
    FirstMatch(s, 0, p);
  }

  /** Where the parts of a written summary sit in its text. */
  lemma SummaryParts(s: string, pre: string, d: string, frac: Option<string>, sp: string, post: string,
                     e: nat, f: nat, g: nat)
    requires s == SummaryText(pre, d, frac, sp, post)
    requires e == |pre| + |Marker| + |d|
    requires f == e + if frac.Some? then 1 + |frac.value| else 0
    requires g == f + |sp|
    ensures g + 2 <= |s| && MarkerAt(s, |pre|) && s[|pre| + |Marker|..e] == d
    ensures frac.Some? ==> s[e] == '.' && s[e + 1..f] == frac.value
    ensures s[f..g] == sp && s[g..g + 2] == Unit
  {
    var fracText := if frac.Some? then "." + frac.value else "";
    var x := pre + Marker;
    var y := x + d + fracText;
    assert s == pre + Marker + (d + fracText + sp + Unit + post);
    Middle(pre, Marker, d + fracText + sp + Unit + post);
    assert s == x + d + (fracText + sp + Unit + post);
    Middle(x, d, fracText + sp + Unit + post);
    if frac.Some? {
      assert s == x + d + "." + frac.value + (sp + Unit + post);
      Middle(x + d + ".", frac.value, sp + Unit + post);
      Middle(x + d, ".", frac.value + sp + Unit + post);
    }
    assert s == y + sp + (Unit + post);
    Middle(y, sp, Unit + post);
    assert s == y + sp + Unit + post;
    Middle(y + sp, Unit, post);
  }

  /** The middle part of a concatenation sits after the first. */
  lemma Middle(x: string, m: string, y: string)
    ensures (x + m + y)[|x|..|x| + |m|] == m
  {
  }

  /** The match at p when the marker is followed by the digits d, optionally a point
      and the fraction digits, the spaces s[f..g] and `MW`. */
  lemma MatchAtParts(s: string, p: nat, d: string, frac: Option<string>, e: nat, f: nat, g: nat)
    requires MarkerAt(s, p) && |d| > 0 && IsDigits(d)
    requires e == p + |Marker| + |d| && e <= f <= g && g + 2 <= |s|
    requires s[p + |Marker|..e] == d
    requires frac.Some? ==> IsDigits(frac.value) && f == e + 1 + |frac.value| && s[e] == '.' && s[e + 1..f] == frac.value
    requires frac.None? ==> f == e
    requires forall k :: f <= k < g ==> IsSpace(s[k])
    requires s[g..g + 2] == Unit
    ensures MatchAt(s, p) == Some(StatedValue(d, frac))
  {
    var a := p + |Marker|;
    assert s[g] == s[g..g + 2][0] == 'M';
    assert !IsDigit(s[f]) && s[f] != '.' by {
      if f < g {
        assert IsSpace(s[f]);
      }
    }
    DigitRunEndAt(s, a, e);
    if frac.Some? {
      DigitRunEndAt(s, e + 1, f);
    }
    assert NumberEnd(s, a) == f;
    SpaceRunEndAt(s, f, g);
  }

  lemma {:induction false} SpaceRunEndAt(s: string, i: nat, j: nat)
    requires i <= j < |s|
    requires forall k :: i <= k < j ==> IsSpace(s[k])
    requires !IsSpace(s[j])
    ensures SpaceRunEnd(s, i) == j
    decreases j - i
  {
    if i < j {
      SpaceRunEndAt(s, i + 1, j);
    }
  }

  /** The search returns the match at p when no position between q and p matches. */
  lemma {:induction false} FirstMatch(s: string, q: nat, p: nat)
    requires q <= p <= |s| && MatchAt(s, p).Some?
    requires forall k :: q <= k < p ==> !MarkerAt(s, k)
    ensures SearchFrom(s, q) == MatchAt(s, p)
    decreases p - q
  {
    if q < p {
      FirstMatch(s, q + 1, p);
    }
  }

  /** The clearing summary of the reference data: `运行机组容量42340.00MW` gives 42340. */
  lemma ReferenceSummary()
    ensures ExtractOnlineCapacity(Text("运行机组容量42340.00MW")) == Some(42340.0)
  {
    ReadsStatedCapacity("", "42340", Some("00"), "", "");
    ReferenceValue();
    ReferenceText();
  }

  lemma ReferenceText()
    ensures SummaryText("", "42340", Some("00"), "", "") == "运行机组容量42340.00MW"
  {
  }

  lemma ReferenceValue()
    ensures StatedValue("42340", Some("00")) == 42340.0
  {
    assert DigitsValue("42340") == 42340 by {
      assert "42340"[..4] == "4234";
      assert "4234"[..3] == "423";
      assert "423"[..2] == "42";
      assert "42"[..1] == "4";
      assert "4"[..0] == "";
    }
    assert FracValue("00") == 0.0 by {
      assert "00"[1..] == "0";
      assert "0"[1..] == "";
    }
  }

  /** Text without the marker yields no capacity. */
  lemma NoMarkerNoCapacity(t: string)
    requires forall k :: 0 <= k <= |t| ==> !MarkerAt(t, k)
    ensures ExtractOnlineCapacity(Text(t)).None?
  {
    SearchFindsNothing(t, 0);
  }
}
