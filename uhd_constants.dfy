/**
 * Anchor geometry of the ultra-lightweight human detector: the four constant
 * tables and the selection of a table pair from the model's name.
 * A C string is modelled by its characters before the terminating NUL, and a
 * null pointer by `None`.
 */
module UhdConstants {
  import opened Common

  /** `UhdAnchorSet`: two table pointers (null = `None`) and the anchor count. */
  datatype AnchorSet = AnchorSet(anchors: Option<seq<real>>, whScale: Option<seq<real>>, count: int)

  /** The `{nullptr, nullptr, 0}` value the detector installs when no table matches. */
  const NullAnchorSet := AnchorSet(None, None, 0)

  const AnchorsW32: seq<real> := [
    2.1544415e-06, 4.8916531e-06,
    4.3464302e-06, 7.8658741e-06,
    5.0172557e-06, 1.5973144e-05,
    1.0519245e-05, 1.4973825e-05,
    9.8587534e-06, 3.3517914e-05,
    1.8386805e-05, 5.0171810e-05,
    3.2672662e-05, 7.2077630e-05,
    6.5735781e-05, 8.7482200e-05
  ]

  const WhScaleW32: seq<real> := [
    1.1018596, 1.1018785,
    1.1399714, 1.1158636,
    1.1602806, 1.1600958,
    1.1953557, 1.1898705,
    1.0877644, 1.0939205,
    1.1106393, 1.2792205,
    1.2914679, 1.2122172,
    14.072575, 16.930525
  ]

  const AnchorsW40: seq<real> := [
    2.1553853e-06, 4.8937904e-06,
    4.3483524e-06, 7.8692810e-06,
    5.0194476e-06, 1.5980148e-05,
    1.0523835e-05, 1.4980503e-05,
    9.8630517e-06, 3.3532524e-05,
    1.8394810e-05, 5.0193834e-05,
    3.2686890e-05, 7.2109266e-05,
    6.5764492e-05, 8.7520377e-05
  ]

  const WhScaleW40: seq<real> := [
    1.1052004, 0.7689974,
    1.1248873, 1.1524976,
    1.1474544, 1.1747091,
    1.1839403, 1.1782105,
    1.1877522, 1.2349045,
    0.9627373, 1.1769345,
    1.1073434, 1.1735326,
    13.743571, 16.26899
  ]

  /** The anchor count written next to both table pairs. */
  const TableAnchorCount := 8

  const W32Set := AnchorSet(Some(AnchorsW32), Some(WhScaleW32), TableAnchorCount)
  const W40Set := AnchorSet(Some(AnchorsW40), Some(WhScaleW40), TableAnchorCount)

  /** `std::strstr(s, p) != nullptr`: `p` occurs in `s` at some position. */
  predicate HasSubstring(s: string, p: string)
    decreases |s|
  {
    |p| <= |s| && (s[..|p|] == p || HasSubstring(s[1..], p))
  }

  /** `p` occurs in `s` starting at position `i`. */
  predicate OccursAt(s: string, p: string, i: int) {
    0 <= i && i + |p| <= |s| && s[i..i + |p|] == p
  }

  /** The recursive search agrees with "`p` occurs at some position of `s`". */
  lemma {:induction false} HasSubstringAt(s: string, p: string)
    ensures HasSubstring(s, p) <==> exists i :: OccursAt(s, p, i)
    decreases |s|
  {
    if |p| <= |s| && s[..|p|] != p {
      assert !OccursAt(s, p, 0);
      HasSubstringAt(s[1..], p);
      if HasSubstring(s[1..], p) {
        var i :| OccursAt(s[1..], p, i);
        assert s[i + 1..i + 1 + |p|] == s[1..][i..i + |p|];
        assert OccursAt(s, p, i + 1);
      }
      if exists i :: OccursAt(s, p, i) {
        var i :| OccursAt(s, p, i);
        assert s[1..][i - 1..i - 1 + |p|] == s[i..i + |p|];
        assert OccursAt(s[1..], p, i - 1);
      }
    } else if |p| <= |s| {
      assert OccursAt(s, p, 0);
    }
  }

  /** A well-formed anchor set: both tables null with count 0, or both present with 2 entries per anchor. */
  predicate WellFormedAnchorSet(s: AnchorSet) {
    || (s.anchors.None? && s.whScale.None? && s.count == 0)
    || (s.anchors.Some? && s.whScale.Some? && s.count >= 0
        && |s.anchors.value| == 2 * s.count && |s.whScale.value| == 2 * s.count)
  }

  /**
   * `get_uhd_anchor_set(model_name, out)`: the first component is the return
   * value, the second the record `out` points to afterwards (`None` when `out`
   * is null).  "w40" is checked before "w32".
   */
  function GetUhdAnchorSet(modelName: Option<string>, out: Option<AnchorSet>): (r: (bool, Option<AnchorSet>))
    ensures r.0 ==> modelName.Some? && out.Some? && r.1.Some? && WellFormedAnchorSet(r.1.value)
    ensures r.0 ==> r.1.value.count == 8 && r.1.value.anchors.Some?
    ensures !r.0 ==> r.1 == out
    ensures r.1.Some? <==> out.Some?
  {
    if modelName.None? || out.None? then (false, out)
    else if HasSubstring(modelName.value, "w40") then (true, Some(W40Set))
    else if HasSubstring(modelName.value, "w32") then (true, Some(W32Set))
    else (false, out)
  }

  /** Each table holds exactly two entries (width, height) per anchor. */
  lemma TableSizes()
    ensures |AnchorsW32| == |WhScaleW32| == |AnchorsW40| == |WhScaleW40| == 2 * TableAnchorCount == 16
    ensures WellFormedAnchorSet(W32Set) && WellFormedAnchorSet(W40Set)
  {
  }

  /** With the tables' count, the reads at `2a` and `2a + 1` stay inside every table. */
  lemma AnchorIndicesInRange(s: AnchorSet, a: int)
    requires WellFormedAnchorSet(s) && s.anchors.Some?
    requires 0 <= a < s.count
    ensures 2 * a + 1 < |s.anchors.value| && 2 * a + 1 < |s.whScale.value|
  {
  }

  /** A null name or a null `out` fails and leaves `out` as it was. */
  lemma NullArgumentsFail(modelName: Option<string>, out: Option<AnchorSet>)
    requires modelName.None? || out.None?
    ensures GetUhdAnchorSet(modelName, out) == (false, out)
  {
  }

  /** A name containing "w40" selects the W40 tables, whatever else it contains. */
  lemma W40Selected(name: string, out: AnchorSet)
    requires exists i :: OccursAt(name, "w40", i)
    ensures GetUhdAnchorSet(Some(name), Some(out)) == (true, Some(W40Set))
  {
    HasSubstringAt(name, "w40");
  }

  /** A name containing "w32" but not "w40" selects the W32 tables. */
  lemma W32Selected(name: string, out: AnchorSet)
    requires exists i :: OccursAt(name, "w32", i)
    requires !exists i :: OccursAt(name, "w40", i)
    ensures GetUhdAnchorSet(Some(name), Some(out)) == (true, Some(W32Set))
  {
    HasSubstringAt(name, "w32");
    HasSubstringAt(name, "w40");
  }

  /** A name containing neither tag fails and leaves `out` untouched. */
  lemma UnknownNameFails(name: string, out: AnchorSet)
    requires !exists i :: OccursAt(name, "w32", i)
    requires !exists i :: OccursAt(name, "w40", i)
    ensures GetUhdAnchorSet(Some(name), Some(out)) == (false, Some(out))
  {
    HasSubstringAt(name, "w32");
    HasSubstringAt(name, "w40");
  }

  /** The default model name "uhd_model" carries neither tag. */
  lemma DefaultNameHasNoTables(out: AnchorSet)
    ensures GetUhdAnchorSet(Some("uhd_model"), Some(out)) == (false, Some(out))
  {
    var name := "uhd_model";
    forall i | 0 <= i <= |name| - 3
      ensures !OccursAt(name, "w32", i) && !OccursAt(name, "w40", i)
    {
      assert name[i..i + 3][0] == name[i] != 'w';
    }
    UnknownNameFails(name, out);
  }

}
