/**
 * The model benchmark tool: it sizes and zero-fills an input buffer for the
 * model's input tensor, times repeated inferences, and summarises the
 * latencies (minimum, maximum, median and 90th percentile).
 */
module BenchmarkTool {
  import opened Common
  import opened DlTypes

  /** `Stats` without `avg_us`, a floating-point quotient of the returned sum. */
  datatype Stats = Stats(minUs: int, maxUs: int, p50Us: int, p90Us: int)

  /** The value-initialised `Stats{}`. */
  const ZeroStats := Stats(0, 0, 0, 0)

  function Sum(s: seq<int>): int
    decreases |s|
  {
    if s == [] then 0 else Sum(s[..|s| - 1]) + s[|s| - 1]
  }

  /** A sum of values that all lie in [lo, hi] lies in [lo * n, hi * n]. */
  lemma {:induction false} SumBounds(s: seq<int>, lo: int, hi: int)
    requires forall i :: 0 <= i < |s| ==> lo <= s[i] <= hi
    ensures lo * |s| <= Sum(s) <= hi * |s|
    decreases |s|
  {
    if s != [] {
      SumBounds(s[..|s| - 1], lo, hi);
      assert lo * |s| == lo * (|s| - 1) + lo;
      assert hi * |s| == hi * (|s| - 1) + hi;
    }
  }

  predicate Ascending(s: seq<int>) {
    forall i, j :: 0 <= i < j < |s| ==> s[i] <= s[j]
  }

  /** `x` placed into ascending `s` before the first larger element. */
  function InsertAscending(x: int, s: seq<int>): (r: seq<int>)
    requires Ascending(s)
    ensures Ascending(r) && multiset(r) == multiset(s) + multiset{x} && |r| == |s| + 1
    decreases |s|
  {
    if s == [] || x <= s[0] then
      [x] + s
    else
      var rest := InsertAscending(x, s[1..]);
      assert s == [s[0]] + s[1..];
      HeadBelowInserted(s, x, rest);
      [s[0]] + rest
  }

  lemma HeadBelowInserted(s: seq<int>, x: int, rest: seq<int>)
    requires s != [] && Ascending(s) && s[0] < x
    requires Ascending(rest) && multiset(rest) == multiset(s[1..]) + multiset{x}
    ensures Ascending([s[0]] + rest)
  {
    forall k | 0 <= k < |rest| ensures s[0] <= rest[k] {
      assert rest[k] in multiset(rest);
      if rest[k] != x {
        assert rest[k] in s[1..];
      }
    }
  }

  /** `std::sort` on the copy of the samples: an ascending permutation. */
  function SortAscending(s: seq<int>): (r: seq<int>)
    ensures Ascending(r) && multiset(r) == multiset(s) && |r| == |s|
    decreases |s|
  {
    if s == [] then []
    else
      assert s == s[..|s| - 1] + [s[|s| - 1]];
      InsertAscending(s[|s| - 1], SortAscending(s[..|s| - 1]))
  }

  /** `0.50 * last` and `0.90 * last` truncated: both in range, the median index first. */
  function PercentileIndices(last: nat): (r: (nat, nat))
    ensures r.0 <= r.1 <= last
    ensures r.0 * 2 <= last < r.0 * 2 + 2
    ensures r.1 * 10 <= 9 * last < r.1 * 10 + 10
  {
    (last / 2, 9 * last / 10)
  }

  /** Reads at two ordered positions of a sorted copy lie between the least and the greatest sample, in order. */
  lemma PercentilesBetween(samples: seq<int>, sorted: seq<int>, i: nat, j: nat, lo: int, hi: int)
    requires Ascending(sorted) && multiset(sorted) == multiset(samples)
    requires i <= j < |sorted|
    requires forall k :: 0 <= k < |samples| ==> lo <= samples[k] <= hi
    ensures lo <= sorted[i] <= sorted[j] <= hi
  {
    assert sorted[i] in multiset(samples) && sorted[j] in multiset(samples);
  }

  /**
   * `compute_stats`: an all-zero record for no samples; otherwise the least
   * and greatest sample, the integer sum, and the samples at the median and
   * 90th-percentile positions of the sorted copy.
   */
  method ComputeStats(samples: seq<int>) returns (stats: Stats, sum: int)
    ensures samples == [] ==> stats == ZeroStats && sum == 0
    ensures samples != [] ==>
      && stats.minUs in samples && stats.maxUs in samples
      && (forall i :: 0 <= i < |samples| ==> stats.minUs <= samples[i] <= stats.maxUs)
      && sum == Sum(samples)
      && stats.minUs * |samples| <= sum <= stats.maxUs * |samples|
      && var sorted, idx := SortAscending(samples), PercentileIndices(|samples| - 1);
         stats.p50Us == sorted[idx.0] && stats.p90Us == sorted[idx.1]
    ensures samples != [] ==> stats.minUs <= stats.p50Us <= stats.p90Us <= stats.maxUs
  {
    if samples == [] {
      return ZeroStats, 0;
    }
    sum := 0;
    var minUs, maxUs := samples[0], samples[0];
    for i := 0 to |samples|
      invariant sum == Sum(samples[..i])
      invariant minUs in samples && maxUs in samples
      invariant forall k :: 0 <= k < i ==> minUs <= samples[k] <= maxUs
      invariant minUs <= samples[0] <= maxUs
    {
      var value := samples[i];
      assert samples[..i + 1][..i] == samples[..i];
      sum := sum + value;
      if value < minUs {
        minUs := value;
      }
      if value > maxUs {
        maxUs := value;
      }
    }
    assert samples[..|samples|] == samples;
    SumBounds(samples, minUs, maxUs);
    var sorted := SortAscending(samples);
    var last := |sorted| - 1;
    var idx := PercentileIndices(last);
    PercentilesBetween(samples, sorted, idx.0, idx.1, minUs, maxUs);
    stats := Stats(minUs, maxUs, sorted[idx.0], sorted[idx.1]);
  }

  /** `{1, MODEL_INPUT_H, MODEL_INPUT_W, MODEL_INPUT_C}` with the default 64 x 64 x 3 input. */
  const DefaultInputShape: seq<int> := [1, 64, 64, 3]

  /** The shape the benchmark sizes its input by: the model's, or the default when it is empty. */
  function EffectiveShape(shape: seq<int>): (r: seq<int>)
    ensures r != []
  {
    if shape == [] then DefaultInputShape else shape
  }

  function DimProduct(s: seq<int>): (p: int)
    ensures (forall i :: 0 <= i < |s| ==> s[i] > 0) ==> p >= 1
    decreases |s|
  {
    if s == [] then 1 else DimProduct(s[..|s| - 1]) * s[|s| - 1]
  }

  /**
   * The element-count loop: abort (`None`) as soon as a dimension is not
   * positive, otherwise the product of all dimensions, which is positive.
   */
  method ElementCount(shape: seq<int>) returns (count: Option<nat>)
    ensures count.None? <==> exists i :: 0 <= i < |shape| && shape[i] <= 0
    ensures count.Some? ==> count.value == DimProduct(shape) && count.value >= 1
  {
    var n: nat := 1;
    for i := 0 to |shape|
      invariant forall k :: 0 <= k < i ==> shape[k] > 0
      invariant n == DimProduct(shape[..i]) && n >= 1
    {
      var dim := shape[i];
      if dim <= 0 {
        return None;
      }
      assert shape[..i + 1][..i] == shape[..i];
      n := n * dim;
    }
    assert shape[..|shape|] == shape;
    return Some(n);
  }

  /** The zero-filled input buffers, by element type. */
  datatype InputBuffer = I8Buffer(i8: seq<int>) | I16Buffer(i16: seq<int>) | F32Buffer(f32: seq<real>)

  /**
   * The dtype switch: 8-bit types get an int8 buffer, 16-bit types an int16
   * buffer and FLOAT a float buffer, each of `count` zeros; any other type
   * aborts.
   */
  function SelectInputBuffer(dtype: DType, count: nat): (r: Option<InputBuffer>)
    ensures r.Some? <==> dtype in {Int8, UInt8, Int16, UInt16, Float32}
    ensures r.Some? && r.value.I8Buffer? <==> dtype == Int8 || dtype == UInt8
    ensures r.Some? && r.value.I16Buffer? <==> dtype == Int16 || dtype == UInt16
    ensures r.Some? && r.value.F32Buffer? <==> dtype == Float32
    ensures r.Some? && r.value.I8Buffer? ==> |r.value.i8| == count && forall k :: 0 <= k < count ==> r.value.i8[k] == 0
    ensures r.Some? && r.value.I16Buffer? ==> |r.value.i16| == count && forall k :: 0 <= k < count ==> r.value.i16[k] == 0
    ensures r.Some? && r.value.F32Buffer? ==> |r.value.f32| == count && forall k :: 0 <= k < count ==> r.value.f32[k] == 0.0
  {
    match dtype
    case Int8 => Some(I8Buffer(seq(count, _ => 0)))
    case UInt8 => Some(I8Buffer(seq(count, _ => 0)))
    case Int16 => Some(I16Buffer(seq(count, _ => 0)))
    case UInt16 => Some(I16Buffer(seq(count, _ => 0)))
    case Float32 => Some(F32Buffer(seq(count, _ => 0.0)))
    case OtherType(_) => None
  }

  /**
   * The input preparation of `app_main`: default an empty shape, count the
   * elements, and pick the buffer; `None` where `app_main` aborts.
   */
  method PrepareInput(shape: seq<int>, dtype: DType) returns (input: Option<(seq<int>, InputBuffer)>)
    ensures input.Some? <==> (forall i :: 0 <= i < |EffectiveShape(shape)| ==> EffectiveShape(shape)[i] > 0)
                             && dtype in {Int8, UInt8, Int16, UInt16, Float32}
    ensures input.Some? ==> input.value.0 == EffectiveShape(shape)
                            && Some(input.value.1) == SelectInputBuffer(dtype, DimProduct(EffectiveShape(shape)))
  {
    var s := EffectiveShape(shape);
    var count := ElementCount(s);
    if count.None? {
      return None;
    }
    var buffer := SelectInputBuffer(dtype, count.value);
    if buffer.None? {
      return None;
    }
    return Some((s, buffer.value));
  }

  /** `ModelBlob`: the model bytes, `None` for a null pointer, and whether the tool owns them. */
  class ModelBlob {
    var data: Option<seq<bv8>>
    var size: nat
    var owned: bool

    constructor (data: Option<seq<bv8>>, size: nat, owned: bool)
      ensures this.data == data && this.size == size && this.owned == owned
    {
      this.data := data;
      this.size := size;
      this.owned := owned;
    }
  }

  /**
   * `free_model_blob`: the buffer is released (`freed`) exactly when it is
   * owned and non-null; the blob always ends null, empty and not owned.
   */
  method FreeModelBlob(blob: ModelBlob) returns (freed: bool)
    modifies blob
    ensures freed <==> old(blob.owned) && old(blob.data).Some?
    ensures blob.data.None? && blob.size == 0 && !blob.owned
  {
    freed := blob.owned && blob.data.Some?;
    blob.data := None;
    blob.size := 0;
    blob.owned := false;
  }

  /** The element count of a shape is the product of the counts of any split of it. */
  lemma {:induction false} DimProductAppend(a: seq<int>, b: seq<int>)
    ensures DimProduct(a + b) == DimProduct(a) * DimProduct(b)
    decreases |b|
  {
    if b == [] {
      assert a + b == a;
    } else {
      var front, last := b[..|b| - 1], b[|b| - 1];
      assert (a + b)[..|a + b| - 1] == a + front;
      DimProductAppend(a, front);
      MulAssoc(DimProduct(a), DimProduct(front), last);
    }
  }

  lemma MulAssoc(x: int, y: int, z: int)
    ensures x * y * z == x * (y * z)
  {
  }

  /** A dimension of extent 1, wherever it sits, does not change the element count. */
  lemma UnitDimensionNeutral(a: seq<int>, b: seq<int>)
    ensures DimProduct(a + [1] + b) == DimProduct(a + b)
  {
    DimProductAppend(a + [1], b);
    DimProductAppend(a, [1]);
    DimProductAppend(a, b);
    assert [1][..0] == [];
  }

  /** The default shape holds 1 * 64 * 64 * 3 elements. */
  lemma DefaultShapeCount()
    ensures EffectiveShape([]) == DefaultInputShape && DimProduct(DefaultInputShape) == 12288
  {
    assert DefaultInputShape[..3] == [1, 64, 64];
    assert [1, 64, 64][..2] == [1, 64];
    assert [1, 64][..1] == [1];
    assert [1][..0] == [];
    assert DimProduct([1]) == 1;
    assert DimProduct([1, 64]) == 64;
    assert DimProduct([1, 64, 64]) == 4096;
  }
}
