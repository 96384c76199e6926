/**
 * Types of the esp-dl library that the detector and the benchmark consume:
 * element data types, single-precision values and the detection record
 * `dl::detect::result_t`.  The arithmetic of floats is not modelled; only
 * their ordering and finiteness, which steer control flow, are.
 */
module DlTypes {

  /** `dl::dtype_t`; every other library code is collapsed into `OtherType`. */
  datatype DType = Int8 | UInt8 | Int16 | UInt16 | Float32 | OtherType(code: int)

  /** A single-precision value: a finite real, an infinity, or NaN. */
  datatype Float = Finite(v: real) | PosInf | NegInf | NaN

  predicate IsFinite(f: Float) {
    f.Finite?
  }

  /** IEEE `a < b`: false whenever either side is NaN. */
  predicate Lt(a: Float, b: Float) {
    match (a, b)
    case (NaN, _) => false
    case (_, NaN) => false
    case (Finite(u), Finite(w)) => u < w
    case (NegInf, NegInf) => false
    case (NegInf, _) => true
    case (Finite(_), PosInf) => true
    case (_, _) => false
  }

  /** IEEE `a <= b`: false whenever either side is NaN. */
  predicate Le(a: Float, b: Float) {
    !a.NaN? && !b.NaN? && !Lt(b, a)
  }

  /** Two finite values: `b <= a` fails exactly when `a < b`. */
  lemma NotLeIsLt(a: Float, b: Float)
    requires IsFinite(a) && IsFinite(b)
    ensures !Le(b, a) <==> Lt(a, b)
  {
  }

  /** The C cast `(int)f` of a finite value: truncation toward zero. */
  function TruncToInt(f: Float): (r: int)
    requires IsFinite(f)
    ensures f.v >= 0.0 ==> r as real <= f.v < r as real + 1.0
    ensures f.v < 0.0 ==> r as real - 1.0 < f.v <= r as real
  {
    if f.v >= 0.0 then f.v.Floor else -((-f.v).Floor)
  }

  /** `dl::TensorBase`: shape, element type, quantization exponent and the flat element buffer. */
  datatype Tensor<E> = Tensor(shape: seq<nat>, dtype: DType, exponent: int, data: seq<E>)

  /** The number of elements a shape describes. */
  function Product(shape: seq<nat>): nat {
    if shape == [] then 1 else shape[0] * Product(shape[1..])
  }

  /** What the inference engine guarantees of every tensor it hands out: positive extents and a buffer of matching length. */
  predicate WellFormedTensor<E>(t: Tensor<E>) {
    (forall i :: 0 <= i < |t.shape| ==> t.shape[i] > 0) && |t.data| == Product(t.shape)
  }

  /** `dl::detect::result_t`: category, score, box corners and key points. */
  datatype DetBox = DetBox(category: int, score: Float, box: seq<int>, keypoint: seq<int>)

}
