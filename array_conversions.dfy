/**
 * Packing of Java `short`, `int` and `long` arrays into byte arrays and back,
 * most significant byte first ("big-endian") or with each element's bytes
 * reversed. A Java `byte` is held as the unsigned value `b & 0xFF`.
 */
module ArrayConversions {
  import opened JavaInts

  const SHORT_BYTE_SIZE: int := 2
  const INTEGER_BYTE_SIZE: int := 4
  const LONG_BYTE_SIZE: int := 8

  // ---------------------------------------------------------------------
  // One element

  /** The four bytes `bytesFromInts` stores for `v`: `(byte) (v >> 24)`, ..., `(byte) v`. */
  function IntToBytes(v: int): (r: seq<Byte>)
    ensures |r| == 4
  {
    [LowByte(v / 0x100_0000), LowByte(v / 0x1_0000), LowByte(v / 0x100), LowByte(v)]
  }

  /** `(b0 << 24) | (b1 << 16) | (b2 << 8) | b3` in Java `int` arithmetic; the bit ranges are disjoint, so `|` adds. */
  function IntFromBytes(b0: Byte, b1: Byte, b2: Byte, b3: Byte): int {
    Int32(b0 as int * 0x100_0000 + b1 as int * 0x1_0000 + b2 as int * 0x100 + b3 as int)
  }

  /** The eight bytes `bytesFromLongs` stores for `v`, most significant first. */
  function LongToBytes(v: int): (r: seq<Byte>)
    ensures |r| == 8
  {
    [LowByte(v / 0x100_0000_0000_0000), LowByte(v / 0x1_0000_0000_0000),
     LowByte(v / 0x100_0000_0000), LowByte(v / 0x1_0000_0000),
     LowByte(v / 0x100_0000), LowByte(v / 0x1_0000), LowByte(v / 0x100), LowByte(v)]
  }

  /** The `long` assembled from eight bytes, `bs[0]` most significant. */
  function LongFromBytes(bs: seq<Byte>): int
    requires |bs| == 8
  {
    Int64(bs[0] as int * 0x100_0000_0000_0000 + bs[1] as int * 0x1_0000_0000_0000 +
          bs[2] as int * 0x100_0000_0000 + bs[3] as int * 0x1_0000_0000 + bs[4] as int * 0x100_0000 +
          bs[5] as int * 0x1_0000 + bs[6] as int * 0x100 + bs[7] as int)
  }

  /** The two bytes `bytesFromShorts` stores for `v`: `(byte) (v >> 8)`, `(byte) v`. */
  function ShortToBytes(v: int): (r: seq<Byte>)
    ensures |r| == 2
  {
    [LowByte(v / 0x100), LowByte(v)]
  }

  /** `(short) ((b0 << 8) | b1)`. */
  function ShortFromBytes(b0: Byte, b1: Byte): int {
    Int16(b0 as int * 0x100 + b1 as int)
  }

  /** An arithmetic shift right by `8(k+1)` bits is a shift by `8k` bits followed by one by 8 bits. */
  lemma ShiftSteps(v: int)
    ensures v / 0x1_0000 == (v / 0x100) / 0x100
    ensures v / 0x100_0000 == (v / 0x1_0000) / 0x100
    ensures v / 0x1_0000_0000 == (v / 0x100_0000) / 0x100
    ensures v / 0x100_0000_0000 == (v / 0x1_0000_0000) / 0x100
    ensures v / 0x1_0000_0000_0000 == (v / 0x100_0000_0000) / 0x100
    ensures v / 0x100_0000_0000_0000 == (v / 0x1_0000_0000_0000) / 0x100
    ensures v / 0x1_0000_0000_0000_0000 == (v / 0x100_0000_0000_0000) / 0x100
  {
  }

  /** The unsigned value of the four bytes of `v`, most significant first. */
  function UnsignedOfIntBytes(v: int): int {
    (v / 0x100_0000 % 256) * 0x100_0000 + (v / 0x1_0000 % 256) * 0x1_0000 + (v / 0x100 % 256) * 0x100 + v % 256
  }

  /** The four bytes of `v` hold `v` modulo 2^32. */
  lemma IntBytesHoldLowBits(v: int)
    ensures v == 0x1_0000_0000 * (v / 0x1_0000_0000) + UnsignedOfIntBytes(v)
    ensures 0 <= UnsignedOfIntBytes(v) < 0x1_0000_0000
  {
    ShiftSteps(v);
    var q1, q2, q3, q4 := v / 0x100, v / 0x1_0000, v / 0x100_0000, v / 0x1_0000_0000;
    assert v == 0x100 * q1 + v % 0x100;
    assert q1 == 0x100 * q2 + q1 % 0x100;
    assert q2 == 0x100 * q3 + q2 % 0x100;
    assert q3 == 0x100 * q4 + q3 % 0x100;
  }

  /** A value `s` in `0 .. 2^32` that equals the int `v` modulo 2^32 truncates to `v`. */
  lemma Int32Unwrap(v: int, s: int)
    requires IsInt32(v) && 0 <= s < 0x1_0000_0000
    requires s == v || s == v + 0x1_0000_0000
    ensures Int32(s) == v
  {
  }

  /** Every Java `int` survives the trip through its four bytes. */
  lemma IntRoundTrip(v: int)
    requires IsInt32(v)
    ensures var bs := IntToBytes(v); IntFromBytes(bs[0], bs[1], bs[2], bs[3]) == v
  {
    IntBytesHoldLowBits(v);
    var q4 := v / 0x1_0000_0000;
    assert q4 == 0 || q4 == -1;
    var bs := IntToBytes(v);
    assert IntFromBytes(bs[0], bs[1], bs[2], bs[3]) == Int32(UnsignedOfIntBytes(v));
    Int32Unwrap(v, UnsignedOfIntBytes(v));
  }

  /** The most significant byte carries the sign. */
  lemma IntTopByteSign(v: int)
    requires IsInt32(v)
    ensures v < 0 <==> IntToBytes(v)[0] >= 0x80
  {
  }

  /** Every Java `short` survives the trip through its two bytes. */
  lemma ShortRoundTrip(v: int)
    requires IsInt16(v)
    ensures var bs := ShortToBytes(v); ShortFromBytes(bs[0], bs[1]) == v
  {
    ShiftSteps(v);
    var q1, q2 := v / 0x100, v / 0x1_0000;
    assert v == 0x1_0000 * q2 + (q1 % 256) * 0x100 + v % 256;
    assert q2 == 0 || q2 == -1;
  }

  /** A value `s` in `0 .. 2^64` that equals the long `v` modulo 2^64 truncates to `v`. */
  lemma Int64Unwrap(v: int, s: int)
    requires IsInt64(v) && 0 <= s < 0x1_0000_0000_0000_0000
    requires s == v || s == v + 0x1_0000_0000_0000_0000
    ensures Int64(s) == v
  {
  }

  /** The unsigned value of the eight bytes of `v`, most significant first. */
  function UnsignedOfLongBytes(v: int): int {
    (v / 0x100_0000_0000_0000 % 256) * 0x100_0000_0000_0000 + (v / 0x1_0000_0000_0000 % 256) * 0x1_0000_0000_0000 +
    (v / 0x100_0000_0000 % 256) * 0x100_0000_0000 + (v / 0x1_0000_0000 % 256) * 0x1_0000_0000 +
    (v / 0x100_0000 % 256) * 0x100_0000 + (v / 0x1_0000 % 256) * 0x1_0000 + (v / 0x100 % 256) * 0x100 + v % 256
  }

  /** The eight bytes of `v` hold `v` modulo 2^64. */
  lemma LongBytesHoldLowBits(v: int)
    ensures v == 0x1_0000_0000_0000_0000 * (v / 0x1_0000_0000_0000_0000) + UnsignedOfLongBytes(v)
    ensures 0 <= UnsignedOfLongBytes(v) < 0x1_0000_0000_0000_0000
  {
    ShiftSteps(v);
    var q1, q2, q3, q4 := v / 0x100, v / 0x1_0000, v / 0x100_0000, v / 0x1_0000_0000;
    var q5, q6, q7, q8 := v / 0x100_0000_0000, v / 0x1_0000_0000_0000, v / 0x100_0000_0000_0000, v / 0x1_0000_0000_0000_0000;
    assert v == 0x100 * q1 + v % 0x100;
    assert q1 == 0x100 * q2 + q1 % 0x100;
    assert q2 == 0x100 * q3 + q2 % 0x100;
    assert q3 == 0x100 * q4 + q3 % 0x100;
    assert q4 == 0x100 * q5 + q4 % 0x100;
    assert q5 == 0x100 * q6 + q5 % 0x100;
    assert q6 == 0x100 * q7 + q6 % 0x100;
    assert q7 == 0x100 * q8 + q7 % 0x100;
  }

  /** Every Java `long` survives the trip through its eight bytes. */
  lemma LongRoundTrip(v: int)
    requires IsInt64(v)
    ensures LongFromBytes(LongToBytes(v)) == v
  {
    LongBytesHoldLowBits(v);
    var q8 := v / 0x1_0000_0000_0000_0000;
    assert q8 == 0 || q8 == -1;
    LongFromBytesIsTruncation(v);
    Int64Unwrap(v, UnsignedOfLongBytes(v));
  }

  /** Reassembling the eight bytes of `v` truncates their unsigned value to a `long`. */
  lemma LongFromBytesIsTruncation(v: int)
    ensures LongFromBytes(LongToBytes(v)) == Int64(UnsignedOfLongBytes(v))
  {
    var bs := LongToBytes(v);
    assert bs[0] == v / 0x100_0000_0000_0000 % 256 && bs[1] == v / 0x1_0000_0000_0000 % 256;
    assert bs[2] == v / 0x100_0000_0000 % 256 && bs[3] == v / 0x1_0000_0000 % 256;
    assert bs[4] == v / 0x100_0000 % 256 && bs[5] == v / 0x1_0000 % 256;
    assert bs[6] == v / 0x100 % 256 && bs[7] == v % 256;
  }

  // ---------------------------------------------------------------------
  // Whole arrays as values

  function BytesFromIntsOf(ints: seq<int>): (r: seq<Byte>)
    ensures |r| == 4 * |ints|
  {
    seq(4 * |ints|, j requires 0 <= j < 4 * |ints| => IntToBytes(ints[j / 4])[j % 4])
  }

  function BytesFromLongsOf(longs: seq<int>): (r: seq<Byte>)
    ensures |r| == 8 * |longs|
  {
    seq(8 * |longs|, j requires 0 <= j < 8 * |longs| => LongToBytes(longs[j / 8])[j % 8])
  }

  /** `bytesFromLongsReversed`: each long's eight bytes, least significant first. */
  function BytesFromLongsReversedOf(longs: seq<int>): (r: seq<Byte>)
    ensures |r| == 8 * |longs|
  {
    seq(8 * |longs|, j requires 0 <= j < 8 * |longs| => LongToBytes(longs[j / 8])[7 - j % 8])
  }

  function BytesFromShortsOf(shorts: seq<int>): (r: seq<Byte>)
    ensures |r| == 2 * |shorts|
  {
    seq(2 * |shorts|, j requires 0 <= j < 2 * |shorts| => ShortToBytes(shorts[j / 2])[j % 2])
  }

  function IntsFromBytesOf(bytes: seq<Byte>): (r: seq<int>)
    ensures |r| == |bytes| / 4
  {
    seq(|bytes| / 4, i requires 0 <= i < |bytes| / 4 =>
      IntFromBytes(bytes[4 * i], bytes[4 * i + 1], bytes[4 * i + 2], bytes[4 * i + 3]))
  }

  function IntsFromBytesReversedOf(bytes: seq<Byte>): (r: seq<int>)
    ensures |r| == |bytes| / 4
  {
    seq(|bytes| / 4, i requires 0 <= i < |bytes| / 4 =>
      IntFromBytes(bytes[4 * i + 3], bytes[4 * i + 2], bytes[4 * i + 1], bytes[4 * i]))
  }

  function LongsFromBytesOf(bytes: seq<Byte>): (r: seq<int>)
    ensures |r| == |bytes| / 8
  {
    seq(|bytes| / 8, i requires 0 <= i < |bytes| / 8 => LongFromBytes(bytes[8 * i .. 8 * i + 8]))
  }

  /** The eight bytes of group `i` in reverse order. */
  function ReversedGroup(bytes: seq<Byte>, i: int): (r: seq<Byte>)
    requires 0 <= i && 8 * i + 8 <= |bytes|
    ensures |r| == 8
  {
    [bytes[8 * i + 7], bytes[8 * i + 6], bytes[8 * i + 5], bytes[8 * i + 4],
     bytes[8 * i + 3], bytes[8 * i + 2], bytes[8 * i + 1], bytes[8 * i]]
  }

  function LongsFromBytesReversedOf(bytes: seq<Byte>): (r: seq<int>)
    ensures |r| == |bytes| / 8
  {
    seq(|bytes| / 8, i requires 0 <= i < |bytes| / 8 => LongFromBytes(ReversedGroup(bytes, i)))
  }

  function ShortsFromBytesOf(bytes: seq<Byte>): (r: seq<int>)
    ensures |r| == |bytes| / 2
  {
    seq(|bytes| / 2, i requires 0 <= i < |bytes| / 2 => ShortFromBytes(bytes[2 * i], bytes[2 * i + 1]))
  }

  function ShortsFromBytesReversedOf(bytes: seq<Byte>): (r: seq<int>)
    ensures |r| == |bytes| / 2
  {
    seq(|bytes| / 2, i requires 0 <= i < |bytes| / 2 => ShortFromBytes(bytes[2 * i + 1], bytes[2 * i]))
  }

  /**
   * `bytes` with each complete group of `w` bytes reversed; the incomplete
   * group at the end, if any, is kept as it is.
   */
  function ReverseGroups(bytes: seq<Byte>, w: int): (r: seq<Byte>)
    requires w in {2, 4, 8}
    ensures |r| == |bytes|
  {
    seq(|bytes|, j requires 0 <= j < |bytes| =>
      if j < |bytes| / w * w then GroupSourceInRange(j, |bytes|, w); bytes[j / w * w + (w - 1 - j % w)] else bytes[j])
  }

  /** The mirror image of an index inside a complete group lies in the same group. */
  lemma GroupSourceInRange(j: int, n: int, w: int)
    requires w in {2, 4, 8} && 0 <= j < n / w * w
    ensures 0 <= j / w * w + (w - 1 - j % w) < n
  {
    if w == 2 {
      var q, m := j / 2, n / 2;
      assert j == 2 * q + j % 2 && n >= 2 * m && j < 2 * m;
    } else if w == 4 {
      var q, m := j / 4, n / 4;
      assert j == 4 * q + j % 4 && n >= 4 * m && j < 4 * m;
    } else {
      var q, m := j / 8, n / 8;
      assert j == 8 * q + j % 8 && n >= 8 * m && j < 8 * m;
    }
  }

  // ---------------------------------------------------------------------
  // Properties of the array conversions

  /** Index `8 * i + k` lies in group `i` of eight bytes, at offset `k`. */
  lemma GroupOffset8(i: int, k: int)
    requires 0 <= k < 8
    ensures (8 * i + k) / 8 == i && (8 * i + k) % 8 == k
  {
  }

  /** Index `4 * i + k` lies in group `i` of four bytes, at offset `k`. */
  lemma GroupOffset4(i: int, k: int)
    requires 0 <= k < 4
    ensures (4 * i + k) / 4 == i && (4 * i + k) % 4 == k
  {
  }

  /** `bytesFromInts` yields four bytes per int, with int `i`'s most significant byte at `4i`. */
  lemma BytesFromIntsLayout(ints: seq<int>, i: int)
    requires 0 <= i < |ints|
    ensures |BytesFromIntsOf(ints)| == 4 * |ints|
    ensures BytesFromIntsOf(ints)[4 * i .. 4 * i + 4] == IntToBytes(ints[i])
  {
    var ib := IntToBytes(ints[i]);
    var group := BytesFromIntsOf(ints)[4 * i .. 4 * i + 4];
    forall k | 0 <= k < 4
      ensures group[k] == ib[k]
    {
      GroupOffset4(i, k);
    }
  }

  predicate AllInt32(s: seq<int>) { forall i :: 0 <= i < |s| ==> IsInt32(s[i]) }
  predicate AllInt64(s: seq<int>) { forall i :: 0 <= i < |s| ==> IsInt64(s[i]) }
  predicate AllInt16(s: seq<int>) { forall i :: 0 <= i < |s| ==> IsInt16(s[i]) }

  /** `intsFromBytes(bytesFromInts(a)) == a`. */
  lemma IntsRoundTrip(ints: seq<int>)
    requires AllInt32(ints)
    ensures IntsFromBytesOf(BytesFromIntsOf(ints)) == ints
  {
    var bytes := BytesFromIntsOf(ints);
    var back := IntsFromBytesOf(bytes);
    assert |bytes| / 4 == |ints|;
    forall i | 0 <= i < |ints|
      ensures back[i] == ints[i]
    {
      BytesFromIntsLayout(ints, i);
      assert bytes[4 * i] == IntToBytes(ints[i])[0];
      assert bytes[4 * i + 1] == IntToBytes(ints[i])[1];
      assert bytes[4 * i + 2] == IntToBytes(ints[i])[2];
      assert bytes[4 * i + 3] == IntToBytes(ints[i])[3];
      IntRoundTrip(ints[i]);
    }
  }

  lemma BytesFromLongsLayout(longs: seq<int>, i: int)
    requires 0 <= i < |longs|
    ensures BytesFromLongsOf(longs)[8 * i .. 8 * i + 8] == LongToBytes(longs[i])
  {
    var lb := LongToBytes(longs[i]);
    var group := BytesFromLongsOf(longs)[8 * i .. 8 * i + 8];
    forall k | 0 <= k < 8
      ensures group[k] == lb[k]
    {
      GroupOffset8(i, k);
    }
  }

  /** `longsFromBytes(bytesFromLongs(a)) == a`. */
  lemma LongsRoundTrip(longs: seq<int>)
    requires AllInt64(longs)
    ensures LongsFromBytesOf(BytesFromLongsOf(longs)) == longs
  {
    var bytes := BytesFromLongsOf(longs);
    var back := LongsFromBytesOf(bytes);
    assert |bytes| / 8 == |longs|;
    forall i | 0 <= i < |longs|
      ensures back[i] == longs[i]
    {
      BytesFromLongsLayout(longs, i);
      LongRoundTrip(longs[i]);
    }
  }

  lemma BytesFromShortsLayout(shorts: seq<int>, i: int)
    requires 0 <= i < |shorts|
    ensures BytesFromShortsOf(shorts)[2 * i] == ShortToBytes(shorts[i])[0]
    ensures BytesFromShortsOf(shorts)[2 * i + 1] == ShortToBytes(shorts[i])[1]
  {
    assert (2 * i) / 2 == i && (2 * i) % 2 == 0;
    assert (2 * i + 1) / 2 == i && (2 * i + 1) % 2 == 1;
  }

  /** `shortsFromBytes(bytesFromShorts(a)) == a`. */
  lemma ShortsRoundTrip(shorts: seq<int>)
    requires AllInt16(shorts)
    ensures ShortsFromBytesOf(BytesFromShortsOf(shorts)) == shorts
  {
    var bytes := BytesFromShortsOf(shorts);
    var back := ShortsFromBytesOf(bytes);
    assert |bytes| / 2 == |shorts|;
    forall i | 0 <= i < |shorts|
      ensures back[i] == shorts[i]
    {
      BytesFromShortsLayout(shorts, i);
      ShortRoundTrip(shorts[i]);
    }
  }

  /** `bytesFromLongsReversed` is `bytesFromLongs` with every 8-byte group reversed. */
  lemma LongsReversedIsGroupReversal(longs: seq<int>)
    ensures BytesFromLongsReversedOf(longs) == ReverseGroups(BytesFromLongsOf(longs), 8)
  {
    var be := BytesFromLongsOf(longs);
    var rev := ReverseGroups(be, 8);
    var le := BytesFromLongsReversedOf(longs);
    assert |be| / 8 * 8 == |be|;
    forall j | 0 <= j < |le|
      ensures le[j] == rev[j]
    {
      var i := j / 8;
      var k := j % 8;
      assert j == 8 * i + k;
      var src := i * 8 + (7 - k);
      assert src / 8 == i && src % 8 == 7 - k;
    }
  }

  /** Group `i` of `bytesFromLongsReversed`, read backwards, is long `i`'s big-endian bytes. */
  lemma ReversedGroupOfReversedBytes(longs: seq<int>, i: int)
    requires 0 <= i < |longs|
    ensures ReversedGroup(BytesFromLongsReversedOf(longs), i) == LongToBytes(longs[i])
  {
    var bytes := BytesFromLongsReversedOf(longs);
    var lb := LongToBytes(longs[i]);
    BytesFromLongsReversedLayout(longs, i);
    var group := bytes[8 * i .. 8 * i + 8];
    assert ReversedGroup(bytes, i) == ReversedGroup(group, 0);
    assert ReversedGroup(ReversedGroup(lb, 0), 0) == lb;
  }

  /** The reversed long decoder undoes the reversed long encoder. */
  lemma LongsReversedRoundTrip(longs: seq<int>)
    requires AllInt64(longs)
    ensures LongsFromBytesReversedOf(BytesFromLongsReversedOf(longs)) == longs
  {
    var bytes := BytesFromLongsReversedOf(longs);
    var back := LongsFromBytesReversedOf(bytes);
    assert |bytes| / 8 == |longs|;
    forall i | 0 <= i < |longs|
      ensures back[i] == longs[i]
    {
      ReversedGroupOfReversedBytes(longs, i);
      LongRoundTrip(longs[i]);
    }
  }

  /** `intsFromBytesReversed` reads little-endian: it is `intsFromBytes` of the 4-byte groups reversed. */
  lemma IntsReversedIsGroupReversal(bytes: seq<Byte>)
    ensures IntsFromBytesReversedOf(bytes) == IntsFromBytesOf(ReverseGroups(bytes, 4))
  {
    var rev := ReverseGroups(bytes, 4);
    var m := |bytes| / 4;
    assert m * 4 == 4 * m <= |bytes|;
    forall i | 0 <= i < m
      ensures IntsFromBytesReversedOf(bytes)[i] == IntsFromBytesOf(rev)[i]
    {
      GroupOffset4(i, 0);
      GroupOffset4(i, 1);
      GroupOffset4(i, 2);
      GroupOffset4(i, 3);
      assert rev[4 * i] == bytes[4 * i + 3] && rev[4 * i + 1] == bytes[4 * i + 2];
      assert rev[4 * i + 2] == bytes[4 * i + 1] && rev[4 * i + 3] == bytes[4 * i];
    }
  }

  /** `shortsFromBytesReversed` is `shortsFromBytes` of the 2-byte groups reversed. */
  lemma ShortsReversedIsGroupReversal(bytes: seq<Byte>)
    ensures ShortsFromBytesReversedOf(bytes) == ShortsFromBytesOf(ReverseGroups(bytes, 2))
  {
    var rev := ReverseGroups(bytes, 2);
    forall i | 0 <= i < |bytes| / 2
      ensures ShortsFromBytesReversedOf(bytes)[i] == ShortsFromBytesOf(rev)[i]
    {
      assert 2 * i + 1 < |bytes| / 2 * 2;
      assert (2 * i) / 2 == i && (2 * i) % 2 == 0;
      assert (2 * i + 1) / 2 == i && (2 * i + 1) % 2 == 1;
    }
  }

  /** `intsFromBytes` ignores up to three trailing bytes that do not fill a whole int. */
  lemma IntsIgnoreTrailingBytes(bytes: seq<Byte>, tail: seq<Byte>)
    requires |bytes| % 4 == 0 && |tail| < 4
    ensures IntsFromBytesOf(bytes + tail) == IntsFromBytesOf(bytes)
  {
    var all := bytes + tail;
    var m := |bytes| / 4;
    assert |bytes| == 4 * m && |all| / 4 == m;
    forall i | 0 <= i < m
      ensures IntsFromBytesOf(all)[i] == IntsFromBytesOf(bytes)[i]
    {
      assert all[4 * i] == bytes[4 * i] && all[4 * i + 1] == bytes[4 * i + 1];
      assert all[4 * i + 2] == bytes[4 * i + 2] && all[4 * i + 3] == bytes[4 * i + 3];
    }
  }

  /** `longsFromBytes` ignores up to seven trailing bytes that do not fill a whole long. */
  lemma LongsIgnoreTrailingBytes(bytes: seq<Byte>, tail: seq<Byte>)
    requires |bytes| % 8 == 0 && |tail| < 8
    ensures LongsFromBytesOf(bytes + tail) == LongsFromBytesOf(bytes)
  {
    var all := bytes + tail;
    var m := |bytes| / 8;
    assert |bytes| == 8 * m && |all| / 8 == m;
    forall i | 0 <= i < m
      ensures LongsFromBytesOf(all)[i] == LongsFromBytesOf(bytes)[i]
    {
      assert all[8 * i .. 8 * i + 8] == bytes[8 * i .. 8 * i + 8];
    }
  }

  /** `shortsFromBytes` ignores a trailing odd byte. */
  lemma ShortsIgnoreTrailingBytes(bytes: seq<Byte>, tail: seq<Byte>)
    requires |bytes| % 2 == 0 && |tail| < 2
    ensures ShortsFromBytesOf(bytes + tail) == ShortsFromBytesOf(bytes)
  {
    var all := bytes + tail;
    var m := |bytes| / 2;
    assert |bytes| == 2 * m && |all| / 2 == m;
    forall i | 0 <= i < m
      ensures ShortsFromBytesOf(all)[i] == ShortsFromBytesOf(bytes)[i]
    {
      assert all[2 * i] == bytes[2 * i] && all[2 * i + 1] == bytes[2 * i + 1];
    }
  }

  lemma BytesFromLongsReversedLayout(longs: seq<int>, i: int)
    requires 0 <= i < |longs|
    ensures BytesFromLongsReversedOf(longs)[8 * i .. 8 * i + 8] == ReversedGroup(LongToBytes(longs[i]), 0)
  {
    var bytes := BytesFromLongsReversedOf(longs);
    forall j | 8 * i <= j < 8 * i + 8
      ensures bytes[j] == LongToBytes(longs[i])[7 - (j - 8 * i)]
    {
      assert j / 8 == i && j % 8 == j - 8 * i;
    }
  }

  /** The eight bytes of `v`, least significant first. */
  lemma LongBytesReversed(v: int)
    ensures ReversedGroup(LongToBytes(v), 0) ==
      [LowByte(v), LowByte(v / 0x100), LowByte(v / 0x1_0000), LowByte(v / 0x100_0000),
       LowByte(v / 0x1_0000_0000), LowByte(v / 0x100_0000_0000),
       LowByte(v / 0x1_0000_0000_0000), LowByte(v / 0x100_0000_0000_0000)]
  {
  }

  /** A prefix on which two sequences agree grows by a block on which they agree. */
  lemma PrefixGrows(a: seq<Byte>, b: seq<Byte>, n: int, w: int)
    requires 0 <= n && 0 <= w && n + w <= |a| && n + w <= |b|
    requires a[..n] == b[..n] && a[n .. n + w] == b[n .. n + w]
    ensures a[..n + w] == b[..n + w]
  {
    assert a[..n + w] == a[..n] + a[n .. n + w];
    assert b[..n + w] == b[..n] + b[n .. n + w];
  }

  // ---------------------------------------------------------------------
  // The ten conversions, each filling a new array in a loop

  /** bytesFromInts. */
  method BytesFromInts(ints: array<int>) returns (bytes: array<Byte>)
    requires forall i :: 0 <= i < ints.Length ==> IsInt32(ints[i])
    ensures fresh(bytes)
    ensures bytes[..] == BytesFromIntsOf(ints[..])
  {
    var intsLength := ints.Length;
    bytes := new Byte[intsLength * INTEGER_BYTE_SIZE];
    assert bytes.Length == 4 * intsLength;
    ghost var spec := BytesFromIntsOf(ints[..]);
    var i := 0;
    while i < intsLength
      invariant 0 <= i <= intsLength
      invariant bytes[..4 * i] == spec[..4 * i]
    {
      var offset := i * INTEGER_BYTE_SIZE;
      assert offset == 4 * i;
      var intValue := ints[i];
      ghost var done := bytes[..offset];
      bytes[offset] := LowByte(intValue / 0x100_0000);
      bytes[offset + 1] := LowByte(intValue / 0x1_0000);
      bytes[offset + 2] := LowByte(intValue / 0x100);
      bytes[offset + 3] := LowByte(intValue);
      assert bytes[..offset] == done;
      assert bytes[offset .. offset + 4] == IntToBytes(intValue);
      BytesFromIntsLayout(ints[..], i);
      PrefixGrows(bytes[..], spec, offset, 4);
      i := i + 1;
    }
    assert bytes[..] == bytes[..4 * i];
  }

  /** bytesFromLongs. */
  method BytesFromLongs(longs: array<int>) returns (bytes: array<Byte>)
    requires forall i :: 0 <= i < longs.Length ==> IsInt64(longs[i])
    ensures fresh(bytes)
    ensures bytes[..] == BytesFromLongsOf(longs[..])
  {
    var longsLength := longs.Length;
    bytes := new Byte[longsLength * LONG_BYTE_SIZE];
    assert bytes.Length == 8 * longsLength;
    ghost var spec := BytesFromLongsOf(longs[..]);
    var i := 0;
    while i < longsLength
      invariant 0 <= i <= longsLength
      invariant bytes[..8 * i] == spec[..8 * i]
    {
      var offset := i * LONG_BYTE_SIZE;
      assert offset == 8 * i;
      var longValue := longs[i];
      StoreLong(bytes, offset, longValue);
      BytesFromLongsLayout(longs[..], i);
      PrefixGrows(bytes[..], spec, offset, 8);
      i := i + 1;
    }
    assert bytes[..] == bytes[..8 * i];
  }

  /** The eight stores of one iteration of `bytesFromLongs`: `v`'s bytes, most significant first, at `offset`. */
  method StoreLong(bytes: array<Byte>, offset: int, longValue: int)
    requires 0 <= offset && offset + 8 <= bytes.Length
    modifies bytes
    ensures bytes[..offset] == old(bytes[..offset]) && bytes[offset + 8..] == old(bytes[offset + 8..])
    ensures bytes[offset .. offset + 8] == LongToBytes(longValue)
  {
    bytes[offset] := LowByte(longValue / 0x100_0000_0000_0000);
    bytes[offset + 1] := LowByte(longValue / 0x1_0000_0000_0000);
    bytes[offset + 2] := LowByte(longValue / 0x100_0000_0000);
    bytes[offset + 3] := LowByte(longValue / 0x1_0000_0000);
    bytes[offset + 4] := LowByte(longValue / 0x100_0000);
    bytes[offset + 5] := LowByte(longValue / 0x1_0000);
    bytes[offset + 6] := LowByte(longValue / 0x100);
    bytes[offset + 7] := LowByte(longValue);
  }

  /** bytesFromLongsReversed. */
  method BytesFromLongsReversed(longs: array<int>) returns (bytes: array<Byte>)
    requires forall i :: 0 <= i < longs.Length ==> IsInt64(longs[i])
    ensures fresh(bytes)
    ensures bytes[..] == BytesFromLongsReversedOf(longs[..])
  {
    var longsLength := longs.Length;
    bytes := new Byte[longsLength * LONG_BYTE_SIZE];
    assert bytes.Length == 8 * longsLength;
    ghost var spec := BytesFromLongsReversedOf(longs[..]);
    var i := 0;
    while i < longsLength
      invariant 0 <= i <= longsLength
      invariant bytes[..8 * i] == spec[..8 * i]
    {
      var offset := i * LONG_BYTE_SIZE;
      assert offset == 8 * i;
      var longValue := longs[i];
      StoreLongReversed(bytes, offset, longValue);
      BytesFromLongsReversedLayout(longs[..], i);
      LongBytesReversed(longValue);
      PrefixGrows(bytes[..], spec, offset, 8);
      i := i + 1;
    }
    assert bytes[..] == bytes[..8 * i];
  }

  /** The eight stores of one iteration of `bytesFromLongsReversed`: `v`'s bytes, least significant first, at `offset`. */
  method StoreLongReversed(bytes: array<Byte>, offset: int, longValue: int)
    requires 0 <= offset && offset + 8 <= bytes.Length
    modifies bytes
    ensures bytes[..offset] == old(bytes[..offset]) && bytes[offset + 8..] == old(bytes[offset + 8..])
    ensures bytes[offset .. offset + 8] ==
      [LowByte(longValue), LowByte(longValue / 0x100), LowByte(longValue / 0x1_0000), LowByte(longValue / 0x100_0000),
       LowByte(longValue / 0x1_0000_0000), LowByte(longValue / 0x100_0000_0000),
       LowByte(longValue / 0x1_0000_0000_0000), LowByte(longValue / 0x100_0000_0000_0000)]
  {
    bytes[offset + 7] := LowByte(longValue / 0x100_0000_0000_0000);
    bytes[offset + 6] := LowByte(longValue / 0x1_0000_0000_0000);
    bytes[offset + 5] := LowByte(longValue / 0x100_0000_0000);
    bytes[offset + 4] := LowByte(longValue / 0x1_0000_0000);
    bytes[offset + 3] := LowByte(longValue / 0x100_0000);
    bytes[offset + 2] := LowByte(longValue / 0x1_0000);
    bytes[offset + 1] := LowByte(longValue / 0x100);
    bytes[offset + 0] := LowByte(longValue);
  }

  /** bytesFromShorts. */
  method BytesFromShorts(shorts: array<int>) returns (bytes: array<Byte>)
    requires forall i :: 0 <= i < shorts.Length ==> IsInt16(shorts[i])
    ensures fresh(bytes)
    ensures bytes[..] == BytesFromShortsOf(shorts[..])
  {
    var shortLength := shorts.Length;
    bytes := new Byte[shortLength * SHORT_BYTE_SIZE];
    assert bytes.Length == 2 * shortLength;
    var i := 0;
    while i < shortLength
      invariant 0 <= i <= shortLength
      invariant forall j :: 0 <= j < 2 * i ==> bytes[j] == BytesFromShortsOf(shorts[..])[j]
    {
      var offset := i * SHORT_BYTE_SIZE;
      assert offset == 2 * i;
      var shortValue := shorts[i];
      bytes[offset] := LowByte(shortValue / 0x100);
      bytes[offset + 1] := LowByte(shortValue);
      BytesFromShortsLayout(shorts[..], i);
      i := i + 1;
    }
  }

  /** intsFromBytes. */
  method IntsFromBytes(bytes: array<Byte>) returns (ints: array<int>)
    ensures fresh(ints)
    ensures ints[..] == IntsFromBytesOf(bytes[..])
  {
    var size := bytes.Length / INTEGER_BYTE_SIZE;
    ints := new int[size];
    var i := 0;
    while i < ints.Length
      invariant 0 <= i <= ints.Length
      invariant forall k :: 0 <= k < i ==> ints[k] == IntsFromBytesOf(bytes[..])[k]
    {
      var offset := i * 4;
      ints[i] := IntFromBytes(bytes[offset + 0], bytes[offset + 1], bytes[offset + 2], bytes[offset + 3]);
      i := i + 1;
    }
  }

  /** intsFromBytesReversed. */
  method IntsFromBytesReversed(bytes: array<Byte>) returns (ints: array<int>)
    ensures fresh(ints)
    ensures ints[..] == IntsFromBytesReversedOf(bytes[..])
  {
    var size := bytes.Length / INTEGER_BYTE_SIZE;
    ints := new int[size];
    var i := 0;
    while i < size
      invariant 0 <= i <= size
      invariant forall k :: 0 <= k < i ==> ints[k] == IntsFromBytesReversedOf(bytes[..])[k]
    {
      var offset := i * 4;
      ints[i] := IntFromBytes(bytes[offset + 3], bytes[offset + 2], bytes[offset + 1], bytes[offset + 0]);
      i := i + 1;
    }
  }

  /** longsFromBytes. */
  method LongsFromBytes(bytes: array<Byte>) returns (longs: array<int>)
    ensures fresh(longs)
    ensures longs[..] == LongsFromBytesOf(bytes[..])
  {
    var size := bytes.Length / LONG_BYTE_SIZE;
    longs := new int[size];
    var i := 0;
    while i < size
      invariant 0 <= i <= size
      invariant forall k :: 0 <= k < i ==> longs[k] == LongsFromBytesOf(bytes[..])[k]
    {
      var offset := i * 8;
      longs[i] := LongFromBytes(bytes[offset .. offset + 8]);
      i := i + 1;
    }
  }

  /** longsFromBytesReversed. */
  method LongsFromBytesReversed(bytes: array<Byte>) returns (longs: array<int>)
    ensures fresh(longs)
    ensures longs[..] == LongsFromBytesReversedOf(bytes[..])
  {
    var size := bytes.Length / LONG_BYTE_SIZE;
    longs := new int[size];
    var i := 0;
    while i < size
      invariant 0 <= i <= size
      invariant forall k :: 0 <= k < i ==> longs[k] == LongsFromBytesReversedOf(bytes[..])[k]
    {
      var offset := i * 8;
      longs[i] := LongFromBytes([bytes[offset + 7], bytes[offset + 6], bytes[offset + 5], bytes[offset + 4],
                                 bytes[offset + 3], bytes[offset + 2], bytes[offset + 1], bytes[offset + 0]]);
      i := i + 1;
    }
  }

  /** shortsFromBytes. */
  method ShortsFromBytes(bytes: array<Byte>) returns (shorts: array<int>)
    ensures fresh(shorts)
    ensures shorts[..] == ShortsFromBytesOf(bytes[..])
  {
    var size := bytes.Length / SHORT_BYTE_SIZE;
    shorts := new int[size];
    var i := 0;
    while i < shorts.Length
      invariant 0 <= i <= shorts.Length
      invariant forall k :: 0 <= k < i ==> shorts[k] == ShortsFromBytesOf(bytes[..])[k]
    {
      var offset := i * 2;
      shorts[i] := ShortFromBytes(bytes[offset], bytes[offset + 1]);
      i := i + 1;
    }
  }

  /** shortsFromBytesReversed. */
  method ShortsFromBytesReversed(bytes: array<Byte>) returns (shorts: array<int>)
    ensures fresh(shorts)
    ensures shorts[..] == ShortsFromBytesReversedOf(bytes[..])
  {
    var size := bytes.Length / SHORT_BYTE_SIZE;
    shorts := new int[size];
    var i := 0;
    while i < shorts.Length
      invariant 0 <= i <= shorts.Length
      invariant forall k :: 0 <= k < i ==> shorts[k] == ShortsFromBytesReversedOf(bytes[..])[k]
    {
      var offset := i * 2;
      shorts[i] := ShortFromBytes(bytes[offset + 1], bytes[offset]);
      i := i + 1;
    }
  }
}
