/**
 * Shape validation and flat-offset arithmetic of the detector's two output
 * heads, the `box` tensor (4 fields per anchor) and the `quality` tensor
 * (1 logit per anchor), in channel-minor (NHWC) or channel-major (NCHW) layout.
 */
module UhdLayout {
  import opened Common
  import opened DlTypes
  import UhdConstants

  datatype Layout = Nhwc | Nchw

  /** The channel-minor test: the box's last extent is a multiple of 4 and a quarter of it is the quality's last extent. */
  predicate NhwcMatches(b: seq<nat>, q: seq<nat>)
    requires |b| == 4 && |q| == 4
  {
    b[3] % 4 == 0 && q[3] == b[3] / 4
  }

  /** The same test on extent 1, for the channel-major layout. */
  predicate NchwMatches(b: seq<nat>, q: seq<nat>)
    requires |b| == 4 && |q| == 4
  {
    b[1] % 4 == 0 && q[1] == b[1] / 4
  }

  /** Grid height, grid width, anchor count and box channels as `parse_maps` reads them. */
  function Height(b: seq<nat>, l: Layout): nat requires |b| == 4 { if l == Nhwc then b[1] else b[2] }
  function Width(b: seq<nat>, l: Layout): nat requires |b| == 4 { if l == Nhwc then b[2] else b[3] }
  function AnchorCount(q: seq<nat>, l: Layout): nat requires |q| == 4 { if l == Nhwc then q[3] else q[1] }
  function BoxChannels(b: seq<nat>, l: Layout): nat requires |b| == 4 { if l == Nhwc then b[3] else b[1] }

  /**
   * The layout `postprocess` decodes with: NHWC when its test holds (even if
   * the NCHW test holds too), NCHW when only that test holds, none otherwise.
   * Whichever is chosen, the box head has exactly four channels per anchor.
   */
  function SelectLayout(b: seq<nat>, q: seq<nat>): (r: Option<Layout>)
    requires |b| == 4 && |q| == 4
    ensures r == Some(Nhwc) <==> NhwcMatches(b, q)
    ensures r == Some(Nchw) <==> !NhwcMatches(b, q) && NchwMatches(b, q)
    ensures r == None <==> !NhwcMatches(b, q) && !NchwMatches(b, q)
    ensures r.Some? ==> BoxChannels(b, r.value) == 4 * AnchorCount(q, r.value)
  {
    if NhwcMatches(b, q) then Some(Nhwc)
    else if NchwMatches(b, q) then Some(Nchw)
    else None
  }

  // ---------------------------------------------------------------------------
  // Mixed-radix arithmetic behind every offset.

  lemma MulMonotone(a: nat, b: nat, c: nat)
    ensures a <= b ==> a * c <= b * c
  {
  }

  /** A digit below its base keeps a mixed-radix number below the next power. */
  lemma DigitBound(hi: nat, lo: nat, n: nat, base: nat)
    requires hi < n && lo < base
    ensures hi * base + lo < n * base
  {
    MulMonotone(hi + 1, n, base);
  }

  /** A mixed-radix representation is unique. */
  lemma DigitUnique(hi1: nat, lo1: nat, hi2: nat, lo2: nat, base: nat)
    requires lo1 < base && lo2 < base
    requires hi1 * base + lo1 == hi2 * base + lo2
    ensures hi1 == hi2 && lo1 == lo2
  {
    MulMonotone(hi1 + 1, hi2, base);
    MulMonotone(hi2 + 1, hi1, base);
  }

  // ---------------------------------------------------------------------------
  // Offsets.

  /** `idx_q`: the position of anchor `a`'s quality logit at cell (y, x); below H*W*na. */
  function QualityOffset(l: Layout, h: nat, w: nat, na: nat, y: nat, x: nat, a: nat): (off: nat)
    requires y < h && x < w && a < na
    ensures off < h * w * na
  {
    if l == Nhwc then
      NhwcQualityBound(h, w, na, y, x, a);
      (y * w + x) * na + a
    else
      NchwQualityBound(h, w, na, y, x, a);
      (a * h + y) * w + x
  }

  lemma NhwcQualityBound(h: nat, w: nat, na: nat, y: nat, x: nat, a: nat)
    requires y < h && x < w && a < na
    ensures (y * w + x) * na + a < h * w * na
  {
    DigitBound(y, x, h, w);
    DigitBound(y * w + x, a, h * w, na);
  }

  lemma NchwQualityBound(h: nat, w: nat, na: nat, y: nat, x: nat, a: nat)
    requires y < h && x < w && a < na
    ensures (a * h + y) * w + x < h * w * na
  {
    DigitBound(a, y, na, h);
    DigitBound(a * h + y, x, na * h, w);
    assert (na * h) * w == h * w * na;
  }

  /** Distinct (y, x, a) give distinct quality offsets, in both layouts. */
  lemma QualityOffsetInjective(l: Layout, h: nat, w: nat, na: nat, y1: nat, x1: nat, a1: nat, y2: nat, x2: nat, a2: nat)
    requires y1 < h && x1 < w && a1 < na && y2 < h && x2 < w && a2 < na
    requires QualityOffset(l, h, w, na, y1, x1, a1) == QualityOffset(l, h, w, na, y2, x2, a2)
    ensures y1 == y2 && x1 == x2 && a1 == a2
  {
    if l == Nhwc {
      ThreeDigitsUnique(y1, x1, a1, y2, x2, a2, w, na);
    } else {
      ThreeDigitsUnique(a1, y1, x1, a2, y2, x2, h, w);
    }
  }

  /** A three-digit mixed-radix representation is unique. */
  lemma ThreeDigitsUnique(hi1: nat, mid1: nat, lo1: nat, hi2: nat, mid2: nat, lo2: nat, midBase: nat, loBase: nat)
    requires mid1 < midBase && mid2 < midBase && lo1 < loBase && lo2 < loBase
    requires (hi1 * midBase + mid1) * loBase + lo1 == (hi2 * midBase + mid2) * loBase + lo2
    ensures hi1 == hi2 && mid1 == mid2 && lo1 == lo2
  {
    DigitUnique(hi1 * midBase + mid1, lo1, hi2 * midBase + mid2, lo2, loBase);
    DigitUnique(hi1, mid1, hi2, mid2, midBase);
  }

  /**
   * The position of box field `k` (tx, ty, tw, th for k = 0..3) of anchor `a`
   * at cell (y, x): `idx_b + k` in NHWC, `idx_b + k*H*W` in NCHW; below 4*na*H*W.
   */
  function BoxFieldOffset(l: Layout, h: nat, w: nat, na: nat, y: nat, x: nat, a: nat, k: nat): (off: nat)
    requires y < h && x < w && a < na && k < 4
    ensures off < 4 * na * h * w
  {
    if l == Nhwc then
      NhwcBoxBound(h, w, na, y, x, a, k);
      (y * w + x) * na * 4 + a * 4 + k
    else
      NchwBoxBound(h, w, na, y, x, a, k);
      (a * 4) * h * w + (y * w + x) + k * h * w
  }

  /** In NHWC the box offset is the mixed-radix number with digits (y, x, a, k). */
  lemma NhwcBoxRadix(h: nat, w: nat, na: nat, y: nat, x: nat, a: nat, k: nat)
    ensures (y * w + x) * na * 4 + a * 4 + k == ((y * w + x) * na + a) * 4 + k
  {
  }

  lemma NhwcBoxBound(h: nat, w: nat, na: nat, y: nat, x: nat, a: nat, k: nat)
    requires y < h && x < w && a < na && k < 4
    ensures (y * w + x) * na * 4 + a * 4 + k < 4 * na * h * w
  {
    NhwcBoxRadix(h, w, na, y, x, a, k);
    NhwcQualityBound(h, w, na, y, x, a);
    DigitBound((y * w + x) * na + a, k, h * w * na, 4);
    assert (h * w * na) * 4 == 4 * na * h * w;
  }

  /** In NCHW the box offset is the mixed-radix number with digits (a, k, y, x). */
  lemma NchwBoxRadix(h: nat, w: nat, na: nat, y: nat, x: nat, a: nat, k: nat)
    ensures (a * 4) * h * w + (y * w + x) + k * h * w == ((a * 4 + k) * h + y) * w + x
  {
  }

  lemma NchwBoxBound(h: nat, w: nat, na: nat, y: nat, x: nat, a: nat, k: nat)
    requires y < h && x < w && a < na && k < 4
    ensures (a * 4) * h * w + (y * w + x) + k * h * w < 4 * na * h * w
  {
    NchwBoxRadix(h, w, na, y, x, a, k);
    DigitBound(a, k, na, 4);
    DigitBound(a * 4 + k, y, na * 4, h);
    DigitBound((a * 4 + k) * h + y, x, na * 4 * h, w);
    assert (na * 4 * h) * w == 4 * na * h * w;
  }

  /** Distinct (y, x, a, k) give distinct box offsets; in particular an anchor's four fields are pairwise distinct. */
  lemma BoxFieldOffsetInjective(l: Layout, h: nat, w: nat, na: nat,
                                y1: nat, x1: nat, a1: nat, k1: nat, y2: nat, x2: nat, a2: nat, k2: nat)
    requires y1 < h && x1 < w && a1 < na && k1 < 4 && y2 < h && x2 < w && a2 < na && k2 < 4
    requires BoxFieldOffset(l, h, w, na, y1, x1, a1, k1) == BoxFieldOffset(l, h, w, na, y2, x2, a2, k2)
    ensures y1 == y2 && x1 == x2 && a1 == a2 && k1 == k2
  {
    if l == Nhwc {
      NhwcBoxRadix(h, w, na, y1, x1, a1, k1);
      NhwcBoxRadix(h, w, na, y2, x2, a2, k2);
      DigitUnique(QualityOffset(l, h, w, na, y1, x1, a1), k1, QualityOffset(l, h, w, na, y2, x2, a2), k2, 4);
      QualityOffsetInjective(l, h, w, na, y1, x1, a1, y2, x2, a2);
    } else {
      NchwBoxRadix(h, w, na, y1, x1, a1, k1);
      NchwBoxRadix(h, w, na, y2, x2, a2, k2);
      ThreeDigitsUnique(a1 * 4 + k1, y1, x1, a2 * 4 + k2, y2, x2, h, w);
      DigitUnique(a1, k1, a2, k2, 4);
    }
  }

  // ---------------------------------------------------------------------------
  // The guard in front of the decode loop.

  /**
   * The checks `postprocess` and `parse_maps` make before reading either tensor: rank 4 for both,
   * a layout, both anchor tables present with a positive count, and
   * `box_c == na * 4`.  The quality head's grid extents and the number of
   * anchors against the table's count are not checked (the count only warns).
   */
  predicate ParseGuardAsWritten(b: seq<nat>, q: seq<nat>, tablesPresent: bool, count: int) {
    && |b| == 4 && |q| == 4
    && SelectLayout(b, q).Some?
    && tablesPresent && count > 0
    && BoxChannels(b, SelectLayout(b, q).value) == 4 * AnchorCount(q, SelectLayout(b, q).value)
  }

  /** The quality head covers the same grid as the box head. */
  predicate QualityGridMatches(b: seq<nat>, q: seq<nat>, l: Layout)
    requires |b| == 4 && |q| == 4
  {
    if l == Nhwc then q[1] == b[1] && q[2] == b[2] else q[2] == b[2] && q[3] == b[3]
  }

  /**
   * The guard this model decodes under: the checks as written, plus the quality
   * grid matching the box grid, plus no more anchors than the table holds.
   */
  predicate ParseGuard(b: seq<nat>, q: seq<nat>, tablesPresent: bool, count: int) {
    && ParseGuardAsWritten(b, q, tablesPresent, count)
    && QualityGridMatches(b, q, SelectLayout(b, q).value)
    && AnchorCount(q, SelectLayout(b, q).value) <= count
  }

  lemma Product4(s: seq<nat>)
    requires |s| == 4
    ensures Product(s) == s[0] * (s[1] * (s[2] * s[3]))
  {
    var t := s[1..];
    var u := t[1..];
    var v := u[1..];
    assert v[1..] == [];
    assert Product(v) == s[3];
    assert Product(u) == s[2] * s[3];
    assert Product(t) == s[1] * (s[2] * s[3]);
  }

  /** A leading extent of at least one only enlarges the element count. */
  lemma LeadingExtent(n: nat, rest: nat)
    requires n >= 1
    ensures rest <= n * rest
  {
    MulMonotone(1, n, rest);
  }

  /** Under the corrected guard the quality tensor holds at least H*W*na elements. */
  lemma QualityLengthCovers(b: seq<nat>, q: seq<nat>, l: Layout)
    requires |b| == 4 && |q| == 4 && q[0] >= 1
    requires QualityGridMatches(b, q, l)
    ensures Height(b, l) * Width(b, l) * AnchorCount(q, l) <= Product(q)
  {
    Product4(q);
    if l == Nhwc {
      assert Height(b, l) * Width(b, l) * AnchorCount(q, l) == q[1] * (q[2] * q[3]);
      LeadingExtent(q[0], q[1] * (q[2] * q[3]));
    } else {
      assert Height(b, l) * Width(b, l) * AnchorCount(q, l) == q[1] * (q[2] * q[3]);
      LeadingExtent(q[0], q[1] * (q[2] * q[3]));
    }
  }

  /** Once the box head has four channels per anchor, it holds at least 4*na*H*W elements. */
  lemma BoxLengthCovers(b: seq<nat>, q: seq<nat>, l: Layout)
    requires |b| == 4 && |q| == 4 && b[0] >= 1
    requires BoxChannels(b, l) == 4 * AnchorCount(q, l)
    ensures 4 * AnchorCount(q, l) * Height(b, l) * Width(b, l) <= Product(b)
  {
    Product4(b);
    if l == Nhwc {
      assert 4 * AnchorCount(q, l) * Height(b, l) * Width(b, l) == b[1] * (b[2] * b[3]);
      LeadingExtent(b[0], b[1] * (b[2] * b[3]));
    } else {
      assert 4 * AnchorCount(q, l) * Height(b, l) * Width(b, l) == b[1] * (b[2] * b[3]);
      LeadingExtent(b[0], b[1] * (b[2] * b[3]));
    }
  }

  /**
   * Under the corrected guard every read of the decode loop is in bounds: the
   * quality offset, the four box offsets and the anchor-table entries 2a, 2a+1.
   */
  lemma ParseGuardReadsInBounds(b: seq<nat>, q: seq<nat>, tablesPresent: bool, count: int,
                                y: nat, x: nat, a: nat, k: nat)
    requires ParseGuard(b, q, tablesPresent, count) && b[0] >= 1 && q[0] >= 1
    requires var l := SelectLayout(b, q).value;
      y < Height(b, l) && x < Width(b, l) && a < AnchorCount(q, l) && k < 4
    ensures var l := SelectLayout(b, q).value;
      var h, w, na := Height(b, l), Width(b, l), AnchorCount(q, l);
      && QualityOffset(l, h, w, na, y, x, a) < Product(q)
      && BoxFieldOffset(l, h, w, na, y, x, a, k) < Product(b)
      && 2 * a + 1 < 2 * count
  {
    var l := SelectLayout(b, q).value;
    QualityLengthCovers(b, q, l);
    BoxLengthCovers(b, q, l);
  }

  /**
   * As written, the guard admits a quality head smaller than the box grid: with
   * box shape [1, 2, 2, 4] and quality shape [1, 1, 1, 1] the loop reads quality
   * element 3 of a one-element tensor.
   */
  lemma QualityReadEscapesAsWritten()
    ensures var b, q := [1, 2, 2, 4], [1, 1, 1, 1];
      && ParseGuardAsWritten(b, q, true, 8)
      && SelectLayout(b, q) == Some(Nhwc)
      && QualityOffset(Nhwc, Height(b, Nhwc), Width(b, Nhwc), AnchorCount(q, Nhwc), 1, 1, 0) == 3
      && Product(q) == 1
      && !ParseGuard(b, q, true, 8)
  {
    Product4([1, 1, 1, 1]);
  }

  /**
   * As written, the guard admits more anchors than the table holds: with box
   * shape [1, 1, 1, 36], quality shape [1, 1, 1, 9] and the 8-anchor tables,
   * anchor 8 reads entry 17 of a 16-entry table.
   */
  lemma AnchorReadEscapesAsWritten()
    ensures var b, q := [1, 1, 1, 36], [1, 1, 1, 9];
      && ParseGuardAsWritten(b, q, true, 8)
      && AnchorCount(q, SelectLayout(b, q).value) == 9
      && 2 * 8 + 1 >= |UhdConstants.AnchorsW32|
      && 2 * 8 + 1 >= |UhdConstants.AnchorsW40|
      && !ParseGuard(b, q, true, 8)
  {
  }

}
