/** The two pieces of `Engine` that are not calls into the runtime: the input copy,
    which shifts unsigned image bytes into the signed range the model expects, and the
    input size read off the input tensor's shape. */
module Engine {
  import opened Types

  /** `sp[i] - 128`: the byte promoted to `int`, shifted, and stored into an `int8_t`
      (always in range, so the store keeps the value). */
  function Shift(b: uint8): (r: int8)
  {
    (b as int - 128) as int8
  }

  /** The inverse map, from a signed sample back to the byte. */
  function Unshift(x: int8): (r: uint8)
  {
    (x as int + 128) as uint8
  }

  /** The shift is strictly increasing and a bijection between bytes and signed
      samples: 0 goes to -128, 255 to 127, and `Unshift` undoes it both ways. */
  lemma ShiftBijection(a: uint8, b: uint8, x: int8)
    ensures a < b ==> Shift(a) < Shift(b)
    ensures Shift(a) == Shift(b) ==> a == b
    ensures Unshift(Shift(a)) == a && Shift(Unshift(x)) == x
    ensures Shift(0) == -128 && Shift(255) == 127
  {
  }

  /** `vsubq_u8(x, vdupq_n_u8(128))`: one lane of the vector subtraction, modulo 256. */
  function LaneSub(b: uint8): (r: uint8)
  {
    ((b as int - 128) % 256) as uint8
  }

  /** The bits of a byte read as an `int8_t`. */
  function AsInt8(u: uint8): (r: int8)
  {
    if u < 128 then u as int8 else (u as int - 256) as int8
  }

  /** The vector path stores the same bit pattern as the scalar path. */
  lemma LaneSubSameBits(b: uint8)
    ensures AsInt8(LaneSub(b)) == Shift(b)
  {
  }

  /** The size of the model input: width and height from the shape `(n, c, h, w)` of an
      NCHW tensor or `(n, h, w, c)` of an NHWC tensor, 0 x 0 for any other layout; each
      dimension goes through `static_cast<int>`. */
  function InputSize(attr: TensorAttr): (s: Size)
    requires |attr.dims| >= 4
  {
    if attr.fmt == NCHW then Size(AsInt32(attr.dims[3]), AsInt32(attr.dims[2]))
    else if attr.fmt == NHWC then Size(AsInt32(attr.dims[2]), AsInt32(attr.dims[1]))
    else DefaultSize()
  }

  /** The input size is the spatial extent of the tensor whichever of the two layouts
      holds it: an NCHW tensor of shape `(n, c, h, w)` and an NHWC tensor of shape
      `(n, h, w, c)` both give `w` x `h`, and any other layout gives 0 x 0. */
  lemma InputSizeOfShape(n: uint32, c: uint32, h: uint32, w: uint32, attr: TensorAttr)
    requires h < 0x8000_0000 && w < 0x8000_0000
    ensures var nchw := attr.(dims := [n, c, h, w], fmt := NCHW);
      InputSize(nchw) == Size(w, h) && InputSize(nchw).Area() == w * h
    ensures InputSize(attr.(dims := [n, h, w, c], fmt := NHWC)) == Size(w, h)
    ensures InputSize(attr.(dims := [n, c, h, w], fmt := NC1HWC2)).Area() == 0
    ensures InputSize(attr.(dims := [n, c, h, w], fmt := OtherFormat)) == DefaultSize()
  {
  }

  /** The engine's input buffer `_inputMem[0]`, viewed as `int8_t` elements. */
  class Engine {
    var input: array<int8>

    constructor(buffer: array<int8>)
      ensures input == buffer
    {
      input := buffer;
    }

    /** `AssignInput(data, len)`, scalar path: byte `i` of the image becomes input
        element `i`, shifted by -128. The buffer must hold `len` elements (the code does
        not check); elements from `len` on are left as they are. */
    method AssignInput(data: seq<uint8>, len: nat)
      requires len <= |data| && len <= input.Length
      modifies input
      ensures forall i :: 0 <= i < len ==> input[i] == Shift(data[i])
      ensures forall i :: len <= i < input.Length ==> input[i] == old(input[i])
      ensures ShiftedInto(old(input[..]), data, len, input[..])
    {
      var i := 0;
      while i < len
        invariant i <= len
        invariant forall k :: 0 <= k < i ==> input[k] == Shift(data[k])
        invariant forall k :: i <= k < input.Length ==> input[k] == old(input[k])
      {
        input[i] := (data[i] as int - 128) as int8;
        i := i + 1;
      }
      ShiftedCopy(old(input[..]), data, len, input[..]);
    }

    /** `AssignInput(data, len)`, NEON path: `len / 16` blocks of 16 lanes, each lane
        `vsubq_u8` of the byte, stored through a `uint8_t` view of the buffer. The last
        `len % 16` bytes are not written. */
    method AssignInputNeon(data: seq<uint8>, len: nat)
      requires len <= |data| && len <= input.Length
      modifies input
      ensures forall i :: 0 <= i < len / 16 * 16 ==> input[i] == AsInt8(LaneSub(data[i]))
      ensures forall i :: 0 <= i < len / 16 * 16 ==> input[i] == Shift(data[i])
      ensures forall i :: len / 16 * 16 <= i < input.Length ==> input[i] == old(input[i])
    {
      var blocks := len / 16;
      var b := 0;
      while b < blocks
        invariant b <= blocks && b * 16 <= len
        invariant forall k :: 0 <= k < b * 16 ==> input[k] == AsInt8(LaneSub(data[k]))
        invariant forall k :: b * 16 <= k < input.Length ==> input[k] == old(input[k])
      {
        var lane := 0;
        while lane < 16
          invariant lane <= 16
          invariant forall k :: 0 <= k < b * 16 + lane ==> input[k] == AsInt8(LaneSub(data[k]))
          invariant forall k :: b * 16 + lane <= k < input.Length ==> input[k] == old(input[k])
        {
          input[b * 16 + lane] := AsInt8(LaneSub(data[b * 16 + lane]));
          lane := lane + 1;
        }
        b := b + 1;
      }
      forall i | 0 <= i < len / 16 * 16
        ensures input[i] == Shift(data[i])
      {
        LaneSubSameBits(data[i]);
      }
    }
  }

  /** The buffer `after` is `before` with its first `len` elements replaced by the
      shifted bytes of `data`. */
  predicate ShiftedInto(before: seq<int8>, data: seq<uint8>, len: nat, after: seq<int8>)
    requires len <= |data|
  {
    |after| == |before| && len <= |after|
      && after[..len] == seq(len, i requires 0 <= i < len => Shift(data[i]))
      && after[len..] == before[len..]
  }

  /** The element-wise facts of a copy give its whole-buffer form. */
  lemma ShiftedCopy(before: seq<int8>, data: seq<uint8>, len: nat, after: seq<int8>)
    requires len <= |data| && len <= |before| == |after|
    requires forall i :: 0 <= i < len ==> after[i] == Shift(data[i])
    requires forall i :: len <= i < |after| ==> after[i] == before[i]
    ensures ShiftedInto(before, data, len, after)
  {
    assert after[..len] == seq(len, i requires 0 <= i < len => Shift(data[i]));
    assert after[len..] == before[len..];
  }

  /** Copying with the shift loses nothing: the bytes come back from the buffer. */
  lemma ValidRestores(before: seq<int8>, data: seq<uint8>, len: nat, after: seq<int8>)
    requires len <= |data|
    requires ShiftedInto(before, data, len, after)
    ensures forall i :: 0 <= i < len ==> Unshift(after[i]) == data[i]
  {
    forall i | 0 <= i < len
      ensures Unshift(after[i]) == data[i]
    {
      assert after[i] == after[..len][i];
    }
  }
}
