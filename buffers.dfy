/** Initial GPU buffer contents and the 16-byte uniform header
    (two little-endian u32 grid sizes, then two little-endian f32 constants). */
module Buffers {

  newtype byte = x: int | 0 <= x < 256

  const TWO_32: nat := 0x1_0000_0000

  /** Size of the uniform header in bytes. */
  const HEADER_BYTES: nat := 16

  /** Byte offsets of the header fields: gridSizeX, gridSizeY, diagonal, inverse diagonal. */
  const GRID_SIZE_X_OFFSET: nat := 0
  const GRID_SIZE_Y_OFFSET: nat := 4
  const DIAGONAL_OFFSET: nat := 8
  const INV_DIAGONAL_OFFSET: nat := 12

  /** IEEE-754 single-precision bit patterns that `setFloat32` stores for
      `Math.sqrt(2)` and `1/Math.sqrt(2)`. */
  const F32_SQRT2_BITS: nat := 0x3FB5_04F3
  const F32_INV_SQRT2_BITS: nat := 0x3F35_04F3

  /** The little-endian encoding `DataView.setUint32(_, v, true)` writes;
      like `ToUint32`, it reduces `v` modulo 2^32. */
  function U32LE(v: int): (b: seq<byte>)
    ensures |b| == 4
  {
    var w0 := v % TWO_32;
    var w1 := w0 / 256;
    var w2 := w1 / 256;
    var w3 := w2 / 256;
    [(w0 % 256) as byte, (w1 % 256) as byte, (w2 % 256) as byte, (w3 % 256) as byte]
  }

  /** `DataView.getUint32(_, true)`. */
  function DecodeU32LE(b: seq<byte>): (v: nat)
    requires |b| == 4
    ensures v < TWO_32
  {
    b[0] as nat + 256 * (b[1] as nat + 256 * (b[2] as nat + 256 * (b[3] as nat)))
  }

  lemma DivMod256(a: int, q: int, r: int)
    requires a == 256 * q + r && 0 <= r < 256
    ensures a / 256 == q && a % 256 == r
  {
  }

  lemma {:induction false} DecodeEncode(v: int)
    ensures DecodeU32LE(U32LE(v)) == v % TWO_32
  {
    var w0 := v % TWO_32;
    var w1 := w0 / 256;
    var w2 := w1 / 256;
    var w3 := w2 / 256;
    DivMod256(w0, w1, w0 % 256);
    DivMod256(w1, w2, w1 % 256);
    DivMod256(w2, w3, w2 % 256);
    assert w3 < 256;
    assert w3 % 256 == w3;
  }

  lemma {:induction false} EncodeDecode(b: seq<byte>)
    requires |b| == 4
    ensures U32LE(DecodeU32LE(b)) == b
  {
    var b0, b1, b2, b3 := b[0] as int, b[1] as int, b[2] as int, b[3] as int;
    var v := DecodeU32LE(b);
    assert v % TWO_32 == v;
    var w2 := b2 + 256 * b3;
    var w1 := b1 + 256 * w2;
    DivMod256(v, w1, b0);
    DivMod256(w1, w2, b1);
    DivMod256(w2, b3, b2);
    assert b3 % 256 == b3;
    var e := U32LE(v);
    assert e[0] == b[0] && e[1] == b[1] && e[2] == b[2] && e[3] == b[3];
  }

  /** `dataView.setUint32(offset, v, true)` on a byte view. */
  method SetUint32(view: array<byte>, offset: nat, v: int)
    requires offset + 4 <= view.Length
    modifies view
    ensures view[..] == old(view[..offset]) + U32LE(v) + old(view[offset + 4..])
  {
    var b := U32LE(v);
    view[offset] := b[0];
    view[offset + 1] := b[1];
    view[offset + 2] := b[2];
    view[offset + 3] := b[3];
  }

  /** The header as a value: field `k` occupies bytes 4k..4k+3. */
  function HeaderBytes(gridSize: int): (h: seq<byte>)
    ensures |h| == HEADER_BYTES
  {
    U32LE(gridSize) + U32LE(gridSize) + U32LE(F32_SQRT2_BITS) + U32LE(F32_INV_SQRT2_BITS)
  }

  /** The four header fields sit at 0, 4, 8, 12 without overlapping, and
      reading them back gives gridSize (mod 2^32) twice and the two float patterns. */
  lemma HeaderFields(gridSize: int)
    ensures GRID_SIZE_X_OFFSET + 4 <= GRID_SIZE_Y_OFFSET && GRID_SIZE_Y_OFFSET + 4 <= DIAGONAL_OFFSET
    ensures DIAGONAL_OFFSET + 4 <= INV_DIAGONAL_OFFSET && INV_DIAGONAL_OFFSET + 4 == HEADER_BYTES
    ensures DecodeU32LE(HeaderBytes(gridSize)[GRID_SIZE_X_OFFSET..GRID_SIZE_X_OFFSET + 4]) == gridSize % TWO_32
    ensures DecodeU32LE(HeaderBytes(gridSize)[GRID_SIZE_Y_OFFSET..GRID_SIZE_Y_OFFSET + 4]) == gridSize % TWO_32
    ensures DecodeU32LE(HeaderBytes(gridSize)[DIAGONAL_OFFSET..DIAGONAL_OFFSET + 4]) == F32_SQRT2_BITS
    ensures DecodeU32LE(HeaderBytes(gridSize)[INV_DIAGONAL_OFFSET..INV_DIAGONAL_OFFSET + 4]) == F32_INV_SQRT2_BITS
  {
    var h := HeaderBytes(gridSize);
    assert h[0..4] == U32LE(gridSize);
    assert h[4..8] == U32LE(gridSize);
    assert h[8..12] == U32LE(F32_SQRT2_BITS);
    assert h[12..16] == U32LE(F32_INV_SQRT2_BITS);
    DecodeEncode(gridSize);
    DecodeEncode(F32_SQRT2_BITS);
    DecodeEncode(F32_INV_SQRT2_BITS);
  }

  /** Value of a positive normal float32 bit pattern. */
  function Float32Value(bits: nat): real
    requires bits < 0x7F80_0000 && bits >= 0x0080_0000
  {
    var e := bits / 0x80_0000;
    var m := bits % 0x80_0000;
    (0x80_0000 + m) as real / 0x80_0000 as real * Pow2(e - 127)
  }

  function Pow2(e: int): (r: real)
    decreases if e < 0 then -e else e
    ensures r > 0.0
  {
    if e == 0 then 1.0 else if e > 0 then 2.0 * Pow2(e - 1) else Pow2(e + 1) / 2.0
  }

  /** The two stored constants are √2 and 1/√2 to float32 precision. */
  lemma DiagonalConstants()
    ensures var d := Float32Value(F32_SQRT2_BITS); 1.9999999 < d * d < 2.0000001
    ensures var d := Float32Value(F32_SQRT2_BITS); var i := Float32Value(F32_INV_SQRT2_BITS);
      0.9999999 < d * i < 1.0000001
  {
    assert Pow2(0) == 1.0;
    assert Pow2(-1) == 0.5;
  }

  /** The buffers `initBuffers` creates, with the contents written into them. */
  datatype GpuBuffers = GpuBuffers(
    uniform: seq<byte>,
    grid: seq<real>,
    distancePing: seq<real>,
    distancePong: seq<real>,
    flowfield: seq<real>)

  /** `initBuffers(device, gridSize, numberOfCells)`: the header is built by
      successive `setUint32`/`setFloat32` writes at an advancing offset. */
  method InitBuffers(gridSize: int, numberOfCells: nat) returns (b: GpuBuffers)
    ensures |b.uniform| == HEADER_BYTES && b.uniform == HeaderBytes(gridSize)
    ensures |b.grid| == numberOfCells && forall i :: 0 <= i < numberOfCells ==> b.grid[i] == 1.0
    ensures |b.distancePing| == |b.distancePong| == numberOfCells
    ensures forall i :: 0 <= i < numberOfCells ==> b.distancePing[i] == 0.0 && b.distancePong[i] == 0.0
    ensures |b.flowfield| == 2 * numberOfCells && forall i :: 0 <= i < 2 * numberOfCells ==> b.flowfield[i] == 0.0
  {
    var gridData := seq(numberOfCells, _ => 1.0);
    var distanceDataPing := seq(numberOfCells, _ => 0.0);
    var flowfieldData := seq(2 * numberOfCells, _ => 0.0);
    var uniformData := new byte[HEADER_BYTES];
    var offset := 0;
    SetUint32(uniformData, offset, gridSize); offset := offset + 4;
    SetUint32(uniformData, offset, gridSize); offset := offset + 4;
    SetUint32(uniformData, offset, F32_SQRT2_BITS); offset := offset + 4;
    SetUint32(uniformData, offset, F32_INV_SQRT2_BITS);
    assert uniformData[..] == HeaderBytes(gridSize);
    b := GpuBuffers(uniformData[..], gridData, distanceDataPing, distanceDataPing, flowfieldData);
  }
}
