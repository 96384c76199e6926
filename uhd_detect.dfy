/**
 * The ultra-lightweight human detector's post-processor: it validates the
 * `box` and `quality` output heads, walks every grid cell and anchor, gates
 * each on its score, rebuilds the box and inserts the survivors into the
 * sorted candidate list.  Non-maximum suppression and the final result list
 * belong to the esp-dl base class and are not part of this model.
 */
module UhdDetect {
  import opened Common
  import opened DlTypes
  import opened UhdConstants
  import opened UhdLayout
  import opened BoxList

  /** What the image preprocessor reports: inverse resize scales, crop origin and the model input extents. */
  datatype Preproc = Preproc(invResizeScaleX: Float, invResizeScaleY: Float,
                             topLeftX: int, topLeftY: int, inputH: int, inputW: int)

  /** Everything the box geometry of one cell and anchor is computed from. */
  datatype Geometry = Geometry(tx: Float, ty: Float, tw: Float, th: Float,
                               x: nat, y: nat, w: nat, h: nat,
                               anchorW: real, scaleW: real, anchorH: real, scaleH: real,
                               pre: Preproc)

  /** The box corners in image pixels, before the integer cast. */
  datatype Corners = Corners(x1: Float, y1: Float, x2: Float, y2: Float)

  /**
   * The floating-point side of decoding, left uninterpreted:
   * `load(dtype, exponent, raw)` is the cast of a float element or the
   * dequantization of an integer one with scale 2^exponent; `sigmoid` is
   * `sigmoid_f`; `corners` is the geometry (sigmoid_f and softplus_f of the box
   * fields, anchor sizes, grid position, resize scale and crop offset).
   */
  datatype Numerics<!E> = Numerics(load: (DType, int, E) -> Float,
                                  sigmoid: Float -> Float,
                                  corners: Geometry -> Corners)

  /** The state one decode pass reads. */
  datatype DecodeContext<!E> = DecodeContext(box: Tensor<E>, quality: Tensor<E>, layout: Layout,
                                            h: nat, w: nat, na: nat,
                                            anchors: seq<real>, whScale: seq<real>,
                                            thr: Float, pre: Preproc, num: Numerics<E>)

  /** Every read the decode loop makes lies inside its tensor or table. */
  predicate ContextValid<E>(ctx: DecodeContext<E>) {
    && ctx.h * ctx.w * ctx.na <= |ctx.quality.data|
    && 4 * ctx.na * ctx.h * ctx.w <= |ctx.box.data|
    && 2 * ctx.na <= |ctx.anchors| && 2 * ctx.na <= |ctx.whScale|
  }

  /** The score of anchor `a` at cell (y, x): sigmoid of its quality logit, read with the box head's element type. */
  function CellScore<E>(ctx: DecodeContext<E>, y: nat, x: nat, a: nat): Float
    requires ContextValid(ctx) && y < ctx.h && x < ctx.w && a < ctx.na
  {
    var idxQ := QualityOffset(ctx.layout, ctx.h, ctx.w, ctx.na, y, x, a);
    ctx.num.sigmoid(ctx.num.load(ctx.box.dtype, ctx.quality.exponent, ctx.quality.data[idxQ]))
  }

  /** Box field `k` (tx, ty, tw, th) of anchor `a` at cell (y, x). */
  function BoxField<E>(ctx: DecodeContext<E>, y: nat, x: nat, a: nat, k: nat): Float
    requires ContextValid(ctx) && y < ctx.h && x < ctx.w && a < ctx.na && k < 4
  {
    var idx := BoxFieldOffset(ctx.layout, ctx.h, ctx.w, ctx.na, y, x, a, k);
    ctx.num.load(ctx.box.dtype, ctx.box.exponent, ctx.box.data[idx])
  }

  /** The corners rebuilt from the four box fields and anchor `a`'s table entries. */
  function CellCorners<E>(ctx: DecodeContext<E>, y: nat, x: nat, a: nat): Corners
    requires ContextValid(ctx) && y < ctx.h && x < ctx.w && a < ctx.na
  {
    ctx.num.corners(Geometry(BoxField(ctx, y, x, a, 0), BoxField(ctx, y, x, a, 1),
                             BoxField(ctx, y, x, a, 2), BoxField(ctx, y, x, a, 3),
                             x, y, ctx.w, ctx.h,
                             ctx.anchors[a * 2], ctx.whScale[a * 2],
                             ctx.anchors[a * 2 + 1], ctx.whScale[a * 2 + 1], ctx.pre))
  }

  /** Finite corners spanning a box of positive width and height. */
  predicate CornersAccepted(c: Corners) {
    IsFinite(c.x1) && IsFinite(c.y1) && IsFinite(c.x2) && IsFinite(c.y2)
    && Lt(c.x1, c.x2) && Lt(c.y1, c.y2)
  }

  lemma TruncMonotone(a: Float, b: Float)
    requires IsFinite(a) && IsFinite(b) && Lt(a, b)
    ensures TruncToInt(a) <= TruncToInt(b)
  {
  }

  /**
   * The candidate anchor `a` at cell (y, x) contributes, if any.  A score
   * strictly below the threshold is dropped; so are non-finite corners and
   * boxes with x2 <= x1 or y2 <= y1.  A survivor has category 0, the cell's
   * score, four integer corners that are not inverted, and no key points.
   */
  function Candidate<E>(ctx: DecodeContext<E>, y: nat, x: nat, a: nat): (r: Option<DetBox>)
    requires ContextValid(ctx) && y < ctx.h && x < ctx.w && a < ctx.na
    ensures r.Some? <==> !Lt(CellScore(ctx, y, x, a), ctx.thr) && CornersAccepted(CellCorners(ctx, y, x, a))
    ensures r.Some? ==> && r.value.category == 0
                        && r.value.score == CellScore(ctx, y, x, a)
                        && !Lt(r.value.score, ctx.thr)
                        && |r.value.box| == 4 && r.value.keypoint == []
                        && r.value.box[0] <= r.value.box[2] && r.value.box[1] <= r.value.box[3]
  {
    var score := CellScore(ctx, y, x, a);
    if Lt(score, ctx.thr) then None
    else
      var c := CellCorners(ctx, y, x, a);
      if !IsFinite(c.x1) || !IsFinite(c.y1) || !IsFinite(c.x2) || !IsFinite(c.y2) then None
      else if Le(c.x2, c.x1) || Le(c.y2, c.y1) then None
      else
        NotLeIsLt(c.x1, c.x2);
        NotLeIsLt(c.y1, c.y2);
        TruncMonotone(c.x1, c.x2);
        TruncMonotone(c.y1, c.y2);
        Some(DetBox(0, score, [TruncToInt(c.x1), TruncToInt(c.y1), TruncToInt(c.x2), TruncToInt(c.y2)], []))
  }

  function OptionSeq(c: Option<DetBox>): seq<DetBox> {
    if c.Some? then [c.value] else []
  }

  /** Candidates of anchors 0 .. a-1 at cell (y, x), in loop order. */
  function AnchorCands<E>(ctx: DecodeContext<E>, y: nat, x: nat, a: nat): seq<DetBox>
    requires ContextValid(ctx) && y < ctx.h && x < ctx.w && a <= ctx.na
  {
    if a == 0 then [] else AnchorCands(ctx, y, x, a - 1) + OptionSeq(Candidate(ctx, y, x, a - 1))
  }

  /** Candidates of cells (y, 0) .. (y, x-1), in loop order. */
  function RowCands<E>(ctx: DecodeContext<E>, y: nat, x: nat): seq<DetBox>
    requires ContextValid(ctx) && y < ctx.h && x <= ctx.w
  {
    if x == 0 then [] else RowCands(ctx, y, x - 1) + AnchorCands(ctx, y, x - 1, ctx.na)
  }

  /** Candidates of rows 0 .. y-1, in loop order. */
  function GridCands<E>(ctx: DecodeContext<E>, y: nat): seq<DetBox>
    requires ContextValid(ctx) && y <= ctx.h
  {
    if y == 0 then [] else GridCands(ctx, y - 1) + RowCands(ctx, y - 1, ctx.w)
  }

  /** `b` is what some in-range cell and anchor contributes. */
  ghost predicate FromSomeCell<E>(ctx: DecodeContext<E>, b: DetBox)
    requires ContextValid(ctx)
  {
    exists y: nat, x: nat, a: nat :: y < ctx.h && x < ctx.w && a < ctx.na && Candidate(ctx, y, x, a) == Some(b)
  }

  lemma {:induction false} AnchorCandsFromCells<E>(ctx: DecodeContext<E>, y: nat, x: nat, a: nat)
    requires ContextValid(ctx) && y < ctx.h && x < ctx.w && a <= ctx.na
    ensures forall b :: b in AnchorCands(ctx, y, x, a) ==> FromSomeCell(ctx, b)
  {
    if a > 0 {
      AnchorCandsFromCells(ctx, y, x, a - 1);
      var c := Candidate(ctx, y, x, a - 1);
      forall b | b in AnchorCands(ctx, y, x, a)
        ensures FromSomeCell(ctx, b)
      {
        if b !in AnchorCands(ctx, y, x, a - 1) {
          assert c == Some(b);
        }
      }
    }
  }

  lemma {:induction false} RowCandsFromCells<E>(ctx: DecodeContext<E>, y: nat, x: nat)
    requires ContextValid(ctx) && y < ctx.h && x <= ctx.w
    ensures forall b :: b in RowCands(ctx, y, x) ==> FromSomeCell(ctx, b)
  {
    if x > 0 {
      var prev := x - 1;
      RowCandsFromCells(ctx, y, prev);
      AnchorCandsFromCells(ctx, y, prev, ctx.na);
      RowFromParts(ctx, y, prev, x);
    }
  }

  /** Cells (y, 0) .. (y, prev-1) and cell (y, prev) together make up the row prefix up to x. */
  lemma RowFromParts<E>(ctx: DecodeContext<E>, y: nat, prev: nat, x: nat)
    requires ContextValid(ctx) && y < ctx.h && prev < ctx.w && x == prev + 1
    requires forall c :: c in RowCands(ctx, y, prev) ==> FromSomeCell(ctx, c)
    requires forall c :: c in AnchorCands(ctx, y, prev, ctx.na) ==> FromSomeCell(ctx, c)
    ensures forall c :: c in RowCands(ctx, y, x) ==> FromSomeCell(ctx, c)
  {
    ConcatFromCells(ctx, RowCands(ctx, y, prev), AnchorCands(ctx, y, prev, ctx.na));
  }

  lemma ConcatFromCells<E>(ctx: DecodeContext<E>, a: seq<DetBox>, b: seq<DetBox>)
    requires ContextValid(ctx)
    requires forall c :: c in a ==> FromSomeCell(ctx, c)
    requires forall c :: c in b ==> FromSomeCell(ctx, c)
    ensures forall c :: c in a + b ==> FromSomeCell(ctx, c)
  {
  }

  /** Every candidate of the whole grid comes from an in-range cell and anchor. */
  lemma {:induction false} GridCandsFromCells<E>(ctx: DecodeContext<E>, y: nat)
    requires ContextValid(ctx) && y <= ctx.h
    ensures forall b :: b in GridCands(ctx, y) ==> FromSomeCell(ctx, b)
  {
    if y > 0 {
      GridCandsFromCells(ctx, y - 1);
      RowCandsFromCells(ctx, y - 1, ctx.w);
      ConcatFromCells(ctx, GridCands(ctx, y - 1), RowCands(ctx, y - 1, ctx.w));
    }
  }

  /**
   * Every box a decode pass adds has category 0, a score not below the
   * threshold, and finite, non-degenerate corners at the cell it came from.
   */
  lemma DecodedBoxesAccepted<E>(ctx: DecodeContext<E>, b: DetBox)
    requires ContextValid(ctx) && b in GridCands(ctx, ctx.h)
    ensures b.category == 0 && !Lt(b.score, ctx.thr) && |b.box| == 4 && b.keypoint == []
    ensures exists y: nat, x: nat, a: nat :: y < ctx.h && x < ctx.w && a < ctx.na
              && b.score == CellScore(ctx, y, x, a) && CornersAccepted(CellCorners(ctx, y, x, a))
  {
    GridCandsFromCells(ctx, ctx.h);
    var y: nat, x: nat, a: nat :| y < ctx.h && x < ctx.w && a < ctx.na && Candidate(ctx, y, x, a) == Some(b);
  }

  /** The anchor set the post-processor installs for a model name: the matching tables, or the null set. */
  function InstalledAnchorSet(modelName: string): (s: AnchorSet)
    ensures WellFormedAnchorSet(s)
    ensures s.anchors.Some? <==> GetUhdAnchorSet(Some(modelName), Some(NullAnchorSet)).0
  {
    var r := GetUhdAnchorSet(Some(modelName), Some(NullAnchorSet));
    if r.0 then r.1.value else NullAnchorSet
  }

  /** How `postprocess` ends: an early return, or decoding followed by `nms()`. */
  datatype PostOutcome = MissingOutput | BadRank | ShapeMismatch | MissingAnchors | UnsupportedDType | Decoded

  /** The element types `postprocess` instantiates `parse_maps` for. */
  predicate DecodableDType(t: DType) {
    t == Int8 || t == Int16 || t == Float32
  }

  /**
   * The chain of checks in `postprocess`.  Whenever it reaches decoding, the
   * box-channel check inside `parse_maps` is already satisfied.
   */
  function Classify<E>(box: Option<Tensor<E>>, quality: Option<Tensor<E>>, s: AnchorSet): (r: PostOutcome)
    ensures r == Decoded ==> box.Some? && quality.Some? && DecodableDType(box.value.dtype)
    ensures r == Decoded ==> ParseGuardAsWritten(box.value.shape, quality.value.shape, true, s.count)
    ensures s.anchors.None? ==> r != Decoded
  {
    if box.None? || quality.None? then MissingOutput
    else if |box.value.shape| != 4 || |quality.value.shape| != 4 then BadRank
    else if SelectLayout(box.value.shape, quality.value.shape).None? then ShapeMismatch
    else if s.anchors.None? || s.whScale.None? || s.count <= 0 then MissingAnchors
    else if !DecodableDType(box.value.dtype) then UnsupportedDType
    else Decoded
  }

  /** The default model name installs no tables, so no pass ever decodes. */
  lemma DefaultModelNeverDecodes<E>(box: Option<Tensor<E>>, quality: Option<Tensor<E>>)
    ensures InstalledAnchorSet("uhd_model") == NullAnchorSet
    ensures Classify(box, quality, InstalledAnchorSet("uhd_model")) != Decoded
  {
    DefaultNameHasNoTables(NullAnchorSet);
  }

  /** The checks `parse_maps` makes before its loop, with the two corrections of this model. */
  predicate DecodeGuard(b: seq<nat>, q: seq<nat>, l: Layout, count: int)
    requires |b| == 4 && |q| == 4
  {
    && BoxChannels(b, l) == 4 * AnchorCount(q, l)
    && AnchorCount(q, l) <= count
    && QualityGridMatches(b, q, l)
  }

  /**
   * Once `postprocess` decides to decode, the checks of `parse_maps` with the
   * two corrections hold exactly when the corrected guard of the layout model does.
   */
  lemma DecodeGuardCompletesParseGuard(b: seq<nat>, q: seq<nat>, count: int)
    requires ParseGuardAsWritten(b, q, true, count)
    ensures ParseGuard(b, q, true, count) <==> DecodeGuard(b, q, SelectLayout(b, q).value, count)
  {
  }

  function MakeContext<E>(box: Tensor<E>, quality: Tensor<E>, l: Layout, s: AnchorSet,
                          thr: Float, pre: Preproc, num: Numerics<E>): DecodeContext<E>
    requires |box.shape| == 4 && |quality.shape| == 4 && s.anchors.Some? && s.whScale.Some?
  {
    DecodeContext(box, quality, l, Height(box.shape, l), Width(box.shape, l), AnchorCount(quality.shape, l),
                  s.anchors.value, s.whScale.value, thr, pre, num)
  }

  /** Under the guard, with well-formed tensors and tables, every read of the loop is in bounds. */
  lemma GuardedContextValid<E>(box: Tensor<E>, quality: Tensor<E>, l: Layout, s: AnchorSet,
                               thr: Float, pre: Preproc, num: Numerics<E>)
    requires WellFormedTensor(box) && WellFormedTensor(quality) && WellFormedAnchorSet(s)
    requires |box.shape| == 4 && |quality.shape| == 4 && s.anchors.Some?
    requires DecodeGuard(box.shape, quality.shape, l, s.count)
    ensures ContextValid(MakeContext(box, quality, l, s, thr, pre, num))
  {
    QualityLengthCovers(box.shape, quality.shape, l);
    BoxLengthCovers(box.shape, quality.shape, l);
  }

  class UhdLitePostprocessor {
    /** `m_anchor_set`, fixed by the constructor. */
    const anchorSet: AnchorSet
    /** `dl::detect::greater_box`. */
    const greater: (DetBox, DetBox) -> bool
    /** `m_score_thr`. */
    var scoreThr: Float
    /** `m_box_list`. */
    var boxList: seq<DetBox>

    ghost predicate Valid()
      reads this
    {
      WellFormedAnchorSet(anchorSet) && StrictWeakOrder(greater) && SortedBy(greater, boxList)
    }

    /** Installs the tables matching the model name, or the null set when none matches. */
    constructor (modelName: string, scoreThr: Float, greater: (DetBox, DetBox) -> bool)
      requires StrictWeakOrder(greater)
      ensures Valid()
      ensures anchorSet == InstalledAnchorSet(modelName)
      ensures this.scoreThr == scoreThr && this.greater == greater && boxList == []
    {
      var r := GetUhdAnchorSet(Some(modelName), Some(NullAnchorSet));
      if !r.0 {
        anchorSet := NullAnchorSet;
      } else {
        anchorSet := r.1.value;
      }
      this.scoreThr := scoreThr;
      this.greater := greater;
      boxList := [];
    }

    /**
     * One decode pass up to the `nms()` call, which is not modelled.  Only
     * `Decoded` changes the candidate list: the list handed to `nms()` is then
     * `DecodedList` of the old one.  Early returns skip `nms()` and keep the list.
     */
    method Postprocess<E>(box: Option<Tensor<E>>, quality: Option<Tensor<E>>, num: Numerics<E>, pre: Preproc)
      returns (outcome: PostOutcome)
      requires Valid()
      requires box.Some? ==> WellFormedTensor(box.value)
      requires quality.Some? ==> WellFormedTensor(quality.value)
      modifies this`boxList
      ensures Valid()
      ensures outcome == Classify(box, quality, anchorSet)
      ensures outcome != Decoded ==> boxList == old(boxList)
      ensures outcome == Decoded ==>
        boxList == DecodedList(old(boxList), box.value, quality.value,
                               SelectLayout(box.value.shape, quality.value.shape).value,
                               anchorSet, scoreThr, pre, num, greater)
    {
      if box.None? || quality.None? {
        return MissingOutput;
      }
      var b, q := box.value, quality.value;
      if |b.shape| != 4 || |q.shape| != 4 {
        return BadRank;
      }
      var nhwc := NhwcMatches(b.shape, q.shape);
      var nchw := NchwMatches(b.shape, q.shape);
      if !nhwc && !nchw {
        return ShapeMismatch;
      }
      if anchorSet.anchors.None? || anchorSet.whScale.None? || anchorSet.count <= 0 {
        return MissingAnchors;
      }
      if !DecodableDType(b.dtype) {
        return UnsupportedDType;
      }
      ParseMaps(b, q, if nhwc then Nhwc else Nchw, num, pre);
      outcome := Decoded;
    }

    /**
     * `parse_maps`: give up when the box head does not carry four channels per
     * anchor, and (the corrections of this model) when there are more anchors
     * than table entries or the quality grid differs from the box grid;
     * otherwise visit the cells row by row, anchors innermost, and insert every
     * accepted candidate at its upper bound.
     */
    method ParseMaps<E>(box: Tensor<E>, quality: Tensor<E>, l: Layout, num: Numerics<E>, pre: Preproc)
      requires Valid() && WellFormedTensor(box) && WellFormedTensor(quality)
      requires |box.shape| == 4 && |quality.shape| == 4
      requires anchorSet.anchors.Some?
      modifies this`boxList
      ensures Valid()
      ensures boxList == DecodedList(old(boxList), box, quality, l, anchorSet, scoreThr, pre, num, greater)
    {
      var na, boxC := AnchorCount(quality.shape, l), BoxChannels(box.shape, l);
      if boxC != na * 4 {
        return;
      }
      if na > anchorSet.count || !QualityGridMatches(box.shape, quality.shape, l) {
        return;
      }
      var ctx := MakeContext(box, quality, l, anchorSet, scoreThr, pre, num);
      GuardedContextValid(box, quality, l, anchorSet, scoreThr, pre, num);
      DecodeGrid(ctx);
    }

    /** The outer loop of `parse_maps`: every row in turn. */
    method DecodeGrid<E>(ctx: DecodeContext<E>)
      requires Valid() && ContextValid(ctx)
      modifies this`boxList
      ensures Valid()
      ensures boxList == InsertAll(old(boxList), GridCands(ctx, ctx.h), greater)
    {
      ghost var start := boxList;
      assert GridCands(ctx, 0) == [];
      var y := 0;
      while y < ctx.h
        invariant y <= ctx.h && Valid()
        invariant boxList == InsertAll(start, GridCands(ctx, y), greater)
      {
        DecodeRow(ctx, y, start, GridCands(ctx, y));
        GridStep(ctx, y);
        y := y + 1;
      }
    }

    /** The middle loop of `parse_maps`: every cell of row y in turn. */
    method DecodeRow<E>(ctx: DecodeContext<E>, y: nat, ghost start: seq<DetBox>, ghost row: seq<DetBox>)
      requires Valid() && ContextValid(ctx) && y < ctx.h
      requires boxList == InsertAll(start, row, greater)
      modifies this`boxList
      ensures Valid()
      ensures boxList == InsertAll(start, row + RowCands(ctx, y, ctx.w), greater)
    {
      assert row + RowCands(ctx, y, 0) == row;
      var x := 0;
      while x < ctx.w
        invariant x <= ctx.w && Valid()
        invariant boxList == InsertAll(start, row + RowCands(ctx, y, x), greater)
      {
        DecodeCell(ctx, y, x, start, row + RowCands(ctx, y, x));
        RowStep(row, ctx, y, x);
        x := x + 1;
      }
    }

    /** The innermost loop of `parse_maps`: every anchor of cell (y, x) in turn. */
    method DecodeCell<E>(ctx: DecodeContext<E>, y: nat, x: nat, ghost start: seq<DetBox>, ghost cell: seq<DetBox>)
      requires Valid() && ContextValid(ctx) && y < ctx.h && x < ctx.w
      requires boxList == InsertAll(start, cell, greater)
      modifies this`boxList
      ensures Valid()
      ensures boxList == InsertAll(start, cell + AnchorCands(ctx, y, x, ctx.na), greater)
    {
      assert cell + AnchorCands(ctx, y, x, 0) == cell;
      var a := 0;
      while a < ctx.na
        invariant a <= ctx.na && Valid()
        invariant boxList == InsertAll(start, cell + AnchorCands(ctx, y, x, a), greater)
      {
        DecodeAnchor(ctx, y, x, a);
        AnchorStep(start, cell, ctx, y, x, a, greater);
        a := a + 1;
      }
    }

    /**
     * The body of the innermost loop of `parse_maps`: gate anchor `a` of cell
     * (y, x) and, when it survives, insert its box at its upper bound.
     */
    method DecodeAnchor<E>(ctx: DecodeContext<E>, y: nat, x: nat, a: nat)
      requires Valid() && ContextValid(ctx) && y < ctx.h && x < ctx.w && a < ctx.na
      modifies this`boxList
      ensures Valid()
      ensures boxList == if Candidate(ctx, y, x, a).Some?
                         then Insert(old(boxList), Candidate(ctx, y, x, a).value, greater)
                         else old(boxList)
    {
      var num, l, h, w, na := ctx.num, ctx.layout, ctx.h, ctx.w, ctx.na;
      var idxQ := QualityOffset(l, h, w, na, y, x, a);
      var qRaw := num.load(ctx.box.dtype, ctx.quality.exponent, ctx.quality.data[idxQ]);
      var score := num.sigmoid(qRaw);
      if Lt(score, ctx.thr) {
        return;
      }
      var box := ctx.box;
      var tx := num.load(box.dtype, box.exponent, box.data[BoxFieldOffset(l, h, w, na, y, x, a, 0)]);
      var ty := num.load(box.dtype, box.exponent, box.data[BoxFieldOffset(l, h, w, na, y, x, a, 1)]);
      var tw := num.load(box.dtype, box.exponent, box.data[BoxFieldOffset(l, h, w, na, y, x, a, 2)]);
      var th := num.load(box.dtype, box.exponent, box.data[BoxFieldOffset(l, h, w, na, y, x, a, 3)]);
      var c := num.corners(Geometry(tx, ty, tw, th, x, y, w, h,
                                    ctx.anchors[a * 2], ctx.whScale[a * 2],
                                    ctx.anchors[a * 2 + 1], ctx.whScale[a * 2 + 1], ctx.pre));
      assert c == CellCorners(ctx, y, x, a);
      if !IsFinite(c.x1) || !IsFinite(c.y1) || !IsFinite(c.x2) || !IsFinite(c.y2) {
        return;
      }
      if Le(c.x2, c.x1) || Le(c.y2, c.y1) {
        return;
      }
      var newBox := DetBox(0, score, [TruncToInt(c.x1), TruncToInt(c.y1), TruncToInt(c.x2), TruncToInt(c.y2)], []);
      var p := UpperBound(boxList, newBox, greater);
      InsertSorted(boxList, newBox, greater);
      boxList := boxList[..p] + [newBox] + boxList[p..];
    }
  }

  /**
   * The candidate list after one `parse_maps` call: when the guard holds, the
   * grid's candidates inserted one by one in loop order; otherwise unchanged.
   */
  function DecodedList<E>(start: seq<DetBox>, box: Tensor<E>, quality: Tensor<E>, l: Layout, s: AnchorSet,
                          thr: Float, pre: Preproc, num: Numerics<E>, greater: (DetBox, DetBox) -> bool): seq<DetBox>
    requires WellFormedTensor(box) && WellFormedTensor(quality) && WellFormedAnchorSet(s)
    requires |box.shape| == 4 && |quality.shape| == 4 && s.anchors.Some?
  {
    if DecodeGuard(box.shape, quality.shape, l, s.count) then
      GuardedContextValid(box, quality, l, s, thr, pre, num);
      InsertAll(start, GridCands(MakeContext(box, quality, l, s, thr, pre, num), Height(box.shape, l)), greater)
    else start
  }

  lemma RowStep<E>(row: seq<DetBox>, ctx: DecodeContext<E>, y: nat, x: nat)
    requires ContextValid(ctx) && y < ctx.h && x < ctx.w
    ensures row + RowCands(ctx, y, x) + AnchorCands(ctx, y, x, ctx.na) == row + RowCands(ctx, y, x + 1)
  {
    SeqAssoc(row, RowCands(ctx, y, x), AnchorCands(ctx, y, x, ctx.na));
  }

  lemma GridStep<E>(ctx: DecodeContext<E>, y: nat)
    requires ContextValid(ctx) && y < ctx.h
    ensures GridCands(ctx, y) + RowCands(ctx, y, ctx.w) == GridCands(ctx, y + 1)
  {
  }

  lemma SeqAssoc<T>(a: seq<T>, b: seq<T>, c: seq<T>)
    ensures a + b + c == a + (b + c)
  {
  }

  lemma AnchorStep<E>(start: seq<DetBox>, cell: seq<DetBox>, ctx: DecodeContext<E>, y: nat, x: nat, a: nat,
                      greater: (DetBox, DetBox) -> bool)
    requires ContextValid(ctx) && y < ctx.h && x < ctx.w && a < ctx.na
    ensures var before := InsertAll(start, cell + AnchorCands(ctx, y, x, a), greater);
            var c := Candidate(ctx, y, x, a);
            InsertAll(start, cell + AnchorCands(ctx, y, x, a + 1), greater)
              == if c.Some? then Insert(before, c.value, greater) else before
  {
    var c := Candidate(ctx, y, x, a);
    if c.Some? {
      assert cell + AnchorCands(ctx, y, x, a + 1) == cell + AnchorCands(ctx, y, x, a) + [c.value];
      InsertAllSnoc(start, cell + AnchorCands(ctx, y, x, a), c.value, greater);
    } else {
      assert cell + AnchorCands(ctx, y, x, a + 1) == cell + AnchorCands(ctx, y, x, a);
    }
  }

  /**
   * After a decode pass the list is still sorted, holds the old candidates
   * plus exactly the grid's accepted candidates, and grew by their number.
   */
  lemma DecodePassContents<E>(before: seq<DetBox>, ctx: DecodeContext<E>, greater: (DetBox, DetBox) -> bool)
    requires ContextValid(ctx) && StrictWeakOrder(greater) && SortedBy(greater, before)
    ensures var r := InsertAll(before, GridCands(ctx, ctx.h), greater);
      && SortedBy(greater, r)
      && |r| == |before| + |GridCands(ctx, ctx.h)|
      && multiset(r) == multiset(before) + multiset(GridCands(ctx, ctx.h))
  {
    InsertAllSorted(before, GridCands(ctx, ctx.h), greater);
    InsertAllContents(before, GridCands(ctx, ctx.h), greater);
  }

}
