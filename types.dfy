/** Value types shared by the decoding pipeline: `Size`, the quantization pair of
    `Rknn::Quantization`, and the fields of the runtime's tensor attribute record that
    the post-processing code reads. */
module Types {

  type uint8 = x: int | 0 <= x < 0x100
  type int8 = x: int | -0x80 <= x < 0x80
  type uint32 = x: int | 0 <= x < 0x1_0000_0000

  /** `static_cast<int>` of a `uint32_t` on a two's-complement target. */
  function AsInt32(d: uint32): (r: int)
    ensures -0x8000_0000 <= r < 0x8000_0000
    ensures (r as int) % 0x1_0000_0000 == d
    ensures d < 0x8000_0000 ==> r == d
  {
    if d < 0x8000_0000 then d else d - 0x1_0000_0000
  }

  // ----- Size -----

  /** A width/height pair; the default is 0 x 0. */
  datatype Size = Size(width: int, height: int) {
    /** `size()`: the number of pixels. */
    function Area(): int { width * height }
  }

  /** `Size()`. */
  function DefaultSize(): (s: Size)
    ensures s.width == 0 && s.height == 0 && s.Area() == 0
  {
    Size(0, 0)
  }

  /** `Size(int size)`: a square. */
  function SquareSize(n: int): (s: Size)
    ensures s.width == s.height == n
    ensures s.Area() == n * n
  {
    Size(n, n)
  }

  // ----- truncating cast -----

  /** Conversion of a real to an integer with truncation toward zero, as C++ does. */
  function Trunc(x: real): (r: int)
    ensures x >= 0.0 ==> r as real <= x < r as real + 1.0
    ensures x < 0.0 ==> r as real - 1.0 < x <= r as real
  {
    if x >= 0.0 then x.Floor else -((-x).Floor)
  }

  /** The element type `T` a decoding routine is instantiated with. */
  datatype SampleType = I8 | U8 | F32

  /** Whether an integer value fits the sample type (every real value fits a float, here). */
  predicate Fits(t: SampleType, v: int)
  {
    match t
    case I8 => -0x80 <= v < 0x80
    case U8 => 0 <= v < 0x100
    case F32 => true
  }

  /** Whether a real is a value of the sample type: an integer in range for I8/U8. */
  predicate IsSample(t: SampleType, v: real)
  {
    t.F32? || (v == v.Floor as real && Fits(t, v.Floor))
  }

  // ----- quantization -----

  /** `Rknn::Quantization`: the affine map `real = (sample - zp) * scale`. */
  datatype Quantization = Quantization(scale: real, zp: int) {

    /** Member `Dequantize<T>(val)`. */
    function Dequantize(v: real): real
    {
      (v - zp as real) * scale
    }

    /** The value `val / scale + zp` before the cast to `T`. */
    function PreCast(x: real): real
      requires scale != 0.0
    {
      x / scale + zp as real
    }

    /** Member `Quantize<T>(val)`: `static_cast<T>(val / scale + zp)`. For an integer `T`
        the cast truncates toward zero; it is undefined in C++ when the truncated value
        does not fit `T`, so that is required. For `float` the value is kept. */
    function Quantize(t: SampleType, x: real): (r: real)
      requires scale != 0.0
      requires Fits(t, Trunc(PreCast(x)))
      ensures IsSample(t, r)
      ensures t.F32? ==> r == x / scale + zp as real
      ensures !t.F32? ==> r == Trunc(x / scale + zp as real) as real
    {
      if t.F32? then PreCast(x) else Trunc(PreCast(x)) as real
    }
  }

  /** `Quantization()`: scale 1 and zero point 0. */
  function DefaultQuantization(): (q: Quantization)
    ensures q.scale == 1.0 && q.zp == 0
    ensures forall v :: q.Dequantize(v) == v
  {
    Quantization(1.0, 0)
  }

  /** Static `Dequantize<T>(val, scale, zp)`. */
  function DequantizeWith(v: real, scale: real, zp: int): (r: real)
    ensures r == Quantization(scale, zp).Dequantize(v)
    ensures scale > 0.0 ==> (r > 0.0 <==> v > zp as real)
  {
    (v - zp as real) * scale
  }

  /** Static `Quantize<T>(val, scale, zp)`. */
  function QuantizeWith(t: SampleType, x: real, scale: real, zp: int): (r: real)
    requires scale != 0.0
    requires Fits(t, Trunc(x / scale + zp as real))
    ensures r == Quantization(scale, zp).Quantize(t, x)
  {
    if t.F32? then x / scale + zp as real else Trunc(x / scale + zp as real) as real
  }

  /** With a positive scale, dequantization is strictly increasing in the sample. */
  lemma DequantizeStrictlyIncreasing(q: Quantization, a: real, b: real)
    requires q.scale > 0.0 && a < b
    ensures q.Dequantize(a) < q.Dequantize(b)
  {
    assert q.Dequantize(b) - q.Dequantize(a) == (b - a) * q.scale;
  }

  /** Quantization undoes dequantization for every sample value of the type. */
  lemma QuantizeDequantize(q: Quantization, t: SampleType, v: real)
    requires q.scale != 0.0 && IsSample(t, v)
    ensures q.PreCast(q.Dequantize(v)) == v
    ensures Fits(t, Trunc(q.PreCast(q.Dequantize(v))))
    ensures q.Quantize(t, q.Dequantize(v)) == v
  {
    var d := v - q.zp as real;
    assert q.Dequantize(v) == d * q.scale;
    assert d * q.scale / q.scale == d;
    assert q.PreCast(q.Dequantize(v)) == d + q.zp as real;
    if !t.F32? {
      assert v == v.Floor as real;
      assert Trunc(v) == v.Floor;
    }
  }

  /** The threshold test of the grid decoder, `raw > Quantize<T>(thr)`, agrees with the
      test on the dequantized value, `Dequantize(raw) > thr`, for every sample of an
      integer type provided the pre-cast value `thr / scale + zp` is not negative (where
      truncation is the floor). For `float` samples they always agree. */
  lemma QuantizedThresholdAgrees(q: Quantization, t: SampleType, thr: real, raw: real)
    requires q.scale > 0.0 && IsSample(t, raw)
    requires Fits(t, Trunc(q.PreCast(thr)))
    requires !t.F32? ==> q.PreCast(thr) >= 0.0
    ensures raw > q.Quantize(t, thr) <==> q.Dequantize(raw) > thr
  {
    var p := q.PreCast(thr);
    assert raw - q.zp as real > thr / q.scale <==> (raw - q.zp as real) * q.scale > thr / q.scale * q.scale;
    assert thr / q.scale * q.scale == thr;
    if !t.F32? {
      var n := raw.Floor;
      assert raw == n as real;
      assert Trunc(p) == p.Floor;
      assert n > p.Floor <==> n as real > p;
    }
  }

  /** Without that proviso the two tests differ. An `int8` score tensor with zero point
      -128 and scale 1/255 and a threshold of 0.25 give the pre-cast value -64.25, which
      the cast truncates to -64; the raw sample -64 is then rejected although it
      dequantizes to 64/255 > 0.25. */
  lemma QuantizedThresholdDisagreesWhenNegative()
    ensures var q := Quantization(1.0 / 255.0, -128);
      && q.PreCast(0.25) == -64.25
      && q.Quantize(I8, 0.25) == -64.0
      && !(-64.0 > q.Quantize(I8, 0.25))
      && q.Dequantize(-64.0) > 0.25
  {
    var q := Quantization(1.0 / 255.0, -128);
    assert q.PreCast(0.25) == -64.25;
    assert Trunc(-64.25) == -64;
  }

  // ----- tensor attributes -----

  /** Element type tags of the runtime that the post-processing code distinguishes. */
  datatype DType = Int8 | UInt8 | Float16 | Float32 | OtherType

  /** Memory layout tags of the runtime. */
  datatype Format = NCHW | NHWC | NC1HWC2 | OtherFormat

  /** The fields of `rknn_tensor_attr` the core reads: shape, element type, layout and
      the quantization pair. */
  datatype TensorAttr = TensorAttr(dims: seq<uint32>, dtype: DType, fmt: Format, quant: Quantization) {
    /** Dimension `i`, as an unbounded number. */
    function Dim(i: nat): nat
      requires i < |dims|
    {
      dims[i] as nat
    }
  }

  /** The template argument a runtime element type selects in the detector, if any. */
  function SampleTypeOf(d: DType): (r: Option<SampleType>)
    ensures r.Some? <==> d in {Int8, UInt8, Float32}
  {
    match d
    case Int8 => Some(I8)
    case UInt8 => Some(U8)
    case Float32 => Some(F32)
    case _ => None
  }

  datatype Option<+T> = None | Some(value: T)
}
