/**
  The big-endian key codec of `support/src/lib.rs`. `BigEndianU32`, `BigEndianU64` and
  `BigEndianU256` are the widths 4, 8 and 32 of one codec; every sorted storage iteration
  rests on it being invertible and order preserving.
*/
module BigEndian {
  import opened Prelude

  type Byte = b: int | 0 <= b < 256

  const WIDTH_U32: nat := 4
  const WIDTH_U64: nat := 8
  const WIDTH_U256: nat := 32

  /** Number of values of `width` bytes. */
  function Space(width: nat): (r: nat)
    ensures r >= 1
  {
    if width == 0 then 1 else 256 * Space(width - 1)
  }

  /** `to_be_bytes`: the most significant byte comes first. */
  function Encode(n: nat, width: nat): (r: seq<Byte>)
    ensures |r| == width
  {
    if width == 0 then [] else Encode(n / 256, width - 1) + [n % 256]
  }

  /** `from_be_bytes`. */
  function Number(bytes: seq<Byte>): nat {
    if bytes == [] then 0 else Number(bytes[..|bytes| - 1]) * 256 + bytes[|bytes| - 1]
  }

  /** The order in which a storage trie visits keys of equal length. */
  predicate LexLess(a: seq<Byte>, b: seq<Byte>) {
    if b == [] then false
    else if a == [] then true
    else a[0] < b[0] || (a[0] == b[0] && LexLess(a[1..], b[1..]))
  }

  /** Decoding is the inverse of encoding on every value of the width. */
  lemma {:induction false} NumberOfEncode(n: nat, width: nat)
    requires n < Space(width)
    ensures Number(Encode(n, width)) == n
  {
    if width > 0 {
      NumberOfEncode(n / 256, width - 1);
      assert Encode(n, width)[..width - 1] == Encode(n / 256, width - 1);
    }
  }

  /** Encoding is the inverse of decoding, so no two keys stand for one number. */
  lemma {:induction false} EncodeOfNumber(bytes: seq<Byte>)
    ensures Number(bytes) < Space(|bytes|)
    ensures Encode(Number(bytes), |bytes|) == bytes
  {
    if bytes != [] {
      var k := |bytes| - 1;
      EncodeOfNumber(bytes[..k]);
      var high, low := Number(bytes[..k]), bytes[k];
      assert (high * 256 + low) / 256 == high && (high * 256 + low) % 256 == low;
    }
  }

  /** A key made of an encoded number and a suffix sorts by the number first. */
  lemma {:induction false} PrefixOrder(a: seq<Byte>, b: seq<Byte>, x: seq<Byte>, y: seq<Byte>)
    requires |a| == |b|
    ensures LexLess(a + x, b + y) <==> LexLess(a, b) || (a == b && LexLess(x, y))
  {
    if a == [] {
      assert a + x == x && b + y == y;
    } else {
      assert (a + x)[1..] == a[1..] + x && (b + y)[1..] == b[1..] + y;
      PrefixOrder(a[1..], b[1..], x, y);
      assert a == [a[0]] + a[1..] && b == [b[0]] + b[1..];
    }
  }

  /** Equal-length byte strings compare as the numbers they stand for. */
  lemma {:induction false} NumberOrder(a: seq<Byte>, b: seq<Byte>)
    requires |a| == |b|
    ensures LexLess(a, b) <==> Number(a) < Number(b)
  {
    if a != [] {
      var k := |a| - 1;
      var high1, high2 := a[..k], b[..k];
      NumberOrder(high1, high2);
      assert a == high1 + [a[k]] && b == high2 + [b[k]];
      PrefixOrder(high1, high2, [a[k]], [b[k]]);
      OneByte(a[k], b[k]);
      EncodeOfNumber(high1);
      EncodeOfNumber(high2);
    }
  }

  lemma OneByte(x: Byte, y: Byte)
    ensures LexLess([x], [y]) <==> x < y
  {
  }

  /** Byte order of equal-width keys is numeric order, in both directions. */
  lemma EncodeOrder(m: nat, n: nat, width: nat)
    requires m < Space(width) && n < Space(width)
    ensures LexLess(Encode(m, width), Encode(n, width)) <==> m < n
  {
    NumberOfEncode(m, width);
    NumberOfEncode(n, width);
    NumberOrder(Encode(m, width), Encode(n, width));
  }

  /** The `(timestamp, event id)` double map is walked by time and, within a time, by id. */
  lemma TimestampKeyOrder(t1: nat, id1: nat, t2: nat, id2: nat)
    requires t1 < Space(WIDTH_U64) && t2 < Space(WIDTH_U64)
    requires id1 < Space(WIDTH_U256) && id2 < Space(WIDTH_U256)
    ensures LexLess(Encode(t1, WIDTH_U64) + Encode(id1, WIDTH_U256), Encode(t2, WIDTH_U64) + Encode(id2, WIDTH_U256))
       <==> t1 < t2 || (t1 == t2 && id1 < id2)
  {
    EncodeOrder(t1, t2, WIDTH_U64);
    EncodeOrder(id1, id2, WIDTH_U256);
    PrefixOrder(Encode(t1, WIDTH_U64), Encode(t2, WIDTH_U64), Encode(id1, WIDTH_U256), Encode(id2, WIDTH_U256));
    NumberOfEncode(t1, WIDTH_U64);
    NumberOfEncode(t2, WIDTH_U64);
  }

  /** `decode`: fill a zeroed buffer of the width from the input, or fail when it is too short. */
  method Decode(input: seq<Byte>, width: nat) returns (r: Result<(nat, seq<Byte>), ()>)
    ensures r.Err? <==> |input| < width
    ensures r.Ok? ==> r.value.0 < Space(width) && input == Encode(r.value.0, width) + r.value.1
  {
    var buffer := new Byte[width](_ => 0);
    if |input| < width {
      return Err(());
    }
    var i := 0;
    while i < width
      invariant 0 <= i <= width
      invariant buffer[..i] == input[..i]
    {
      buffer[i] := input[i];
      i := i + 1;
    }
    assert buffer[..] == input[..width];
    EncodeOfNumber(input[..width]);
    r := Ok((Number(buffer[..]), input[width..]));
  }
}
