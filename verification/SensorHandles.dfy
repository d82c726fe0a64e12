/** The signed 32-bit handle namespace: the top byte of a handle holds the index of its sub-HAL. */
module SensorHandles {

  type int32 = x: int | -0x8000_0000 <= x < 0x8000_0000

  const SIZE_T_LIMIT: int := 0x1_0000_0000_0000_0000

  /** A 64-bit `size_t`. */
  type size_t = x: int | 0 <= x < SIZE_T_LIMIT

  /** One unit of the top byte: two to the power kBitsAfterSubHalIndex. */
  const TOP_UNIT: int := 0x100_0000

  type byte = x: int | 0 <= x < 256

  function TopByte(handle: int32): byte {
    (handle / TOP_UNIT) % 256
  }

  function LowBits(handle: int32): nat {
    handle % TOP_UNIT
  }

  function FromBytes(top: byte, low: nat): int32
    requires low < TOP_UNIT
  {
    (if top < 128 then top else top - 256) * TOP_UNIT + low
  }

  function OrByte(a: byte, b: byte): byte {
    ((a as bv8) | (b as bv8)) as int
  }

  /** The index is cast to int32 and shifted left by 24 bits, so only its low byte survives the shift. */
  function SetSubHalIndex(handle: int32, subHalIndex: size_t): int32 {
    FromBytes(OrByte(TopByte(handle), subHalIndex % 256), LowBits(handle))
  }

  /** An arithmetic right shift (floor division) followed by a cast to `size_t`: negative values wrap. */
  function ExtractSubHalIndex(handle: int32): size_t {
    var shifted := handle / TOP_UNIT;
    if shifted < 0 then shifted + SIZE_T_LIMIT else shifted
  }

  function ClearSubHalIndex(handle: int32): int32 {
    LowBits(handle)
  }

  predicate SubHalIndexIsClear(handle: int32) {
    TopByte(handle) == 0
  }

  predicate IsSubHalIndexValid(handle: int32, subHalCount: size_t) {
    ExtractSubHalIndex(handle) < subHalCount
  }

  lemma OrByteZero(b: byte)
    ensures OrByte(0, b) == b
  {
    assert (0 as bv8) | (b as bv8) == b as bv8;
  }

  lemma OrByteIsUnion(a: byte, b: byte, c: byte)
    ensures OrByte(OrByte(a, b), c) == OrByte(OrByte(a, c), b) && OrByte(OrByte(a, b), b) == OrByte(a, b)
  {
    OrLaws(a as bv8, b as bv8, c as bv8);
    OrByteAsBits(a, b);
    OrByteAsBits(a, c);
  }

  lemma OrLaws(x: bv8, y: bv8, z: bv8)
    ensures (x | y) | z == (x | z) | y && (x | y) | y == x | y
  {
  }

  lemma OrByteAsBits(a: byte, b: byte)
    ensures OrByte(a, b) as bv8 == (a as bv8) | (b as bv8)
  {
  }

  /** For any handle, its top byte clear or not: setting indices is a union of bits. It keeps the low bits, the order
      does not matter, setting one again changes nothing, and index zero changes nothing at all. */
  lemma SettingIsUnion(handle: int32, i: size_t, j: size_t)
    ensures LowBits(SetSubHalIndex(handle, i)) == LowBits(handle)
    ensures SetSubHalIndex(SetSubHalIndex(handle, i), j) == SetSubHalIndex(SetSubHalIndex(handle, j), i)
    ensures SetSubHalIndex(SetSubHalIndex(handle, i), i) == SetSubHalIndex(handle, i)
    ensures SetSubHalIndex(handle, 0) == handle
  {
    var top, low := TopByte(handle), LowBits(handle);
    BytesDetermineHandle(handle);
    OrByteIsUnion(top, i % 256, j % 256);
    OrByteIsUnion(top, i % 256, i % 256);
    OrByteRightZero(top);
  }

  lemma OrByteRightZero(b: byte)
    ensures OrByte(b, 0) == b
  {
    assert (b as bv8) | (0 as bv8) == b as bv8;
  }

  lemma BytesDetermineHandle(handle: int32)
    ensures FromBytes(TopByte(handle), LowBits(handle)) == handle
    ensures forall top: byte, low: nat | low < TOP_UNIT ::
              TopByte(FromBytes(top, low)) == top && LowBits(FromBytes(top, low)) == low
  {
  }

  lemma ExtractReadsSignedTopByte(top: byte, low: nat)
    requires low < TOP_UNIT
    ensures ExtractSubHalIndex(FromBytes(top, low)) == if top < 128 then top else top - 256 + SIZE_T_LIMIT
  {
  }

  lemma LowByteIsIndex(subHalIndex: size_t)
    ensures (if subHalIndex % 256 < 128 then subHalIndex % 256 else subHalIndex % 256 - 256 + SIZE_T_LIMIT) == subHalIndex
       <==> subHalIndex < 128 || subHalIndex >= SIZE_T_LIMIT - 128
  {
    var q := subHalIndex / 256;
    assert subHalIndex == 256 * q + subHalIndex % 256;
  }

  /** Packing a clear handle is always undone by clearing; extracting gives the index back exactly for
      the indices whose low byte, read as a signed byte, is the index itself. */
  lemma PackThenUnpack(handle: int32, subHalIndex: size_t)
    requires SubHalIndexIsClear(handle)
    ensures ClearSubHalIndex(SetSubHalIndex(handle, subHalIndex)) == handle
    ensures ExtractSubHalIndex(SetSubHalIndex(handle, subHalIndex)) == subHalIndex
       <==> subHalIndex < 128 || subHalIndex >= SIZE_T_LIMIT - 128
  {
    OrByteZero(subHalIndex % 256);
    BytesDetermineHandle(handle);
    ExtractReadsSignedTopByte(subHalIndex % 256, LowBits(handle));
    LowByteIsIndex(subHalIndex);
  }

  lemma PackingIsInjective(h1: int32, i1: size_t, h2: int32, i2: size_t)
    requires SubHalIndexIsClear(h1) && SubHalIndexIsClear(h2) && i1 < 128 && i2 < 128
    requires SetSubHalIndex(h1, i1) == SetSubHalIndex(h2, i2)
    ensures h1 == h2 && i1 == i2
  {
    PackThenUnpack(h1, i1);
    PackThenUnpack(h2, i2);
  }

  /** With at most 128 sub-HALs, a handle is accepted exactly when it is the packing of a clear handle
      with an index in bounds; no negative handle is. */
  lemma ValidHandlesArePackings(handle: int32, subHalCount: size_t)
    requires subHalCount <= 128
    ensures IsSubHalIndexValid(handle, subHalCount)
       <==> exists h: int32, i: size_t :: SubHalIndexIsClear(h) && i < subHalCount && SetSubHalIndex(h, i) == handle
    ensures IsSubHalIndexValid(handle, subHalCount) ==>
              handle >= 0
              && SubHalIndexIsClear(ClearSubHalIndex(handle))
              && SetSubHalIndex(ClearSubHalIndex(handle), ExtractSubHalIndex(handle)) == handle
  {
    if IsSubHalIndexValid(handle, subHalCount) {
      var h, i := ClearSubHalIndex(handle), ExtractSubHalIndex(handle);
      OrByteZero(i % 256);
      BytesDetermineHandle(handle);
      assert SubHalIndexIsClear(h) && SetSubHalIndex(h, i) == handle;
    }
    forall h: int32, i: size_t | SubHalIndexIsClear(h) && i < subHalCount && SetSubHalIndex(h, i) == handle
      ensures IsSubHalIndexValid(handle, subHalCount)
    {
      PackThenUnpack(h, i);
    }
  }
}
