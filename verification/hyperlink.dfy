/**
 * The spreadsheet formula the tool writes into every `Plugin ID` cell: a
 * HYPERLINK to the plugin's page on Tenable's site, displaying the plugin id.
 */
module Hyperlink {

  import opened Wrappers
  import opened Text

  /** The fixed base of every plugin page. */
  const TenableUrl := "https://tenable.com/plugins/nessus/"

  /** The three fixed pieces around the two string arguments of the formula. */
  const Opening := "=HYPERLINK(\""
  const Separator := "\",\""
  const Closing := "\")"

  /**
   * `make_hyperlink(value)`: the formula `=HYPERLINK("<target>","<display>")` with
   * link target `TenableUrl + v` and display text `v`.
   */
  function MakeHyperlink(v: string): (r: string)
    ensures |r| == |Opening| + |TenableUrl| + 2 * |v| + |Separator| + |Closing|
    ensures r[..|Opening|] == Opening && r[|r| - |Closing|..] == Closing
    ensures r[|Opening|..|Opening| + |TenableUrl| + |v|] == TenableUrl + v
    ensures OccursAt(r, Separator, |Opening| + |TenableUrl| + |v|)
    ensures r[|r| - |Closing| - |v|..|r| - |Closing|] == v
  {
    var r := Opening + TenableUrl + v + Separator + v + Closing;
    assert r[|Opening|..|Opening| + |TenableUrl| + |v|] == TenableUrl + v;
    assert r[|Opening| + |TenableUrl| + |v|..|Opening| + |TenableUrl| + |v| + |Separator|] == Separator;
    assert r[|r| - |Closing| - |v|..|r| - |Closing|] == v;
    r
  }

  /**
   * `s` split at the last occurrence of `","`: the display part holds no `","` at
   * all, and the result is `None` exactly when `s` holds none.
   */
  function SplitAtLastSeparator(s: string): (r: Option<(string, string)>)
    ensures r.Some? ==> r.value.0 + Separator + r.value.1 == s
    ensures r.Some? ==> forall j: nat :: !OccursAt(r.value.1, Separator, j)
    ensures r.None? <==> forall j: nat :: !OccursAt(s, Separator, j)
  {
    match LastIndexOf(s, Separator)
    case None => None
    case Some(k) =>
      var target := s[..k];
      var display := s[k + |Separator|..];
      assert s[k..k + |Separator|] == Separator;
      assert target + Separator + display == s;
      forall j: nat
        ensures !OccursAt(display, Separator, j)
      {
        if j + |Separator| <= |display| {
          assert display[j..j + |Separator|] == s[k + |Separator| + j..k + 2 * |Separator| + j];
          assert !OccursAt(s, Separator, k + |Separator| + j);
        }
      }
      Some((target, display))
  }

  /** The cell starts with `=HYPERLINK("` and ends with `")`. */
  predicate Wrapped(cell: string)
  {
    |Opening| + |Closing| <= |cell| && cell[..|Opening|] == Opening && cell[|cell| - |Closing|..] == Closing
  }

  /** What lies between the opening and the closing of a wrapped cell. */
  function Inner(cell: string): string
    requires Wrapped(cell)
  {
    cell[|Opening|..|cell| - |Closing|]
  }

  /**
   * The two string arguments of a cell of the shape `=HYPERLINK("<target>","<display>")`,
   * split at the last `","`; `None` when the cell lacks the opening or the closing,
   * or holds no `","` between them.
   */
  function ParseHyperlink(cell: string): (r: Option<(string, string)>)
    ensures r.Some? ==> Opening + r.value.0 + Separator + r.value.1 + Closing == cell
    ensures r.Some? ==> forall j: nat :: !OccursAt(r.value.1, Separator, j)
    ensures r.None? <==> !Wrapped(cell) || forall j: nat :: !OccursAt(Inner(cell), Separator, j)
  {
    if !Wrapped(cell) then None
    else
      var inner := Inner(cell);
      assert cell == cell[..|Opening|] + inner + cell[|cell| - |Closing|..];
      SplitAtLastSeparator(inner)
  }

  /** Display text of a hyperlink cell. */
  function DisplayText(cell: string): (r: Option<string>)
  {
    match ParseHyperlink(cell)
    case None => None
    case Some(args) => Some(args.1)
  }

  /** Distinct plugin ids never give the same formula. */
  lemma MakeHyperlinkInjective(a: string, b: string)
    requires MakeHyperlink(a) == MakeHyperlink(b)
    ensures a == b
  {
    var off := |Opening| + |TenableUrl|;
    var ha, hb := MakeHyperlink(a), MakeHyperlink(b);
    assert |ha| == off + 2 * |a| + |Separator| + |Closing|;
    assert |a| == |b|;
    assert ha[off..off + |a|] == a;
    assert hb[off..off + |b|] == b;
  }

  /** Parsing strips the fixed opening and closing and splits what lies between them. */
  lemma ParseWrapped(inner: string)
    ensures ParseHyperlink(Opening + inner + Closing) == SplitAtLastSeparator(inner)
  {
    var cell := Opening + inner + Closing;
    assert cell[..|Opening|] == Opening;
    assert cell[|cell| - |Closing|..] == Closing;
    assert cell[|Opening|..|cell| - |Closing|] == inner;
  }

  /**
   * An id holding `","` is not recovered: the parser splits at the last `","`,
   * which then lies inside the display text.
   */
  lemma IdWithSeparatorNotRecovered(v: string, j: nat)
    requires OccursAt(v, Separator, j)
    ensures DisplayText(MakeHyperlink(v)) != Some(v)
  {
  }

  /** A display text without a double quote holds no `","`, so the split falls just before it. */
  lemma SplitAtLastSeparatorJoin(target: string, display: string)
    requires '"' !in display
    ensures SplitAtLastSeparator(target + Separator + display) == Some((target, display))
  {
    var inner := target + Separator + display;
    var n := |target|;
    assert OccursAt(inner, Separator, n) by {
      assert inner[n..n + |Separator|] == Separator;
    }
    forall j: nat | n < j
      ensures !OccursAt(inner, Separator, j)
    {
      if j + |Separator| <= |inner| {
        var w := inner[j..j + 3];
        if j == n + 1 {
          assert w[0] == inner[n + 1] == ',';
        } else if j == n + 2 {
          assert display[1] in display;
          assert w[2] == inner[n + 4] == display[1];
        } else {
          assert display[j - n - 3] in display;
          assert w[0] == inner[j] == display[j - n - 3];
        }
        assert w != Separator;
      }
    }
    assert LastIndexOf(inner, Separator) == Some(n);
    assert inner[..n] == target;
    assert inner[n + |Separator|..] == display;
  }

  /**
   * Round trip: for a plugin id without a double quote, parsing the formula gives
   * back the link target `TenableUrl + v` and the display text `v`.
   */
  lemma HyperlinkRoundTrip(v: string)
    requires '"' !in v
    ensures ParseHyperlink(MakeHyperlink(v)) == Some((TenableUrl + v, v))
    ensures DisplayText(MakeHyperlink(v)) == Some(v)
  {
    var inner := TenableUrl + v + Separator + v;
    assert MakeHyperlink(v) == Opening + inner + Closing;
    ParseWrapped(inner);
    SplitAtLastSeparatorJoin(TenableUrl + v, v);
  }
}
