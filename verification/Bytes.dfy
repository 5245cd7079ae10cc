/** Bytes, fixed-width big-endian integers, and the flat byte layout shared by the transports. */
module Bytes {
  import opened Arith

  type byte = x: int | 0 <= x < 256
  type Msg = seq<byte>

  const INT := 4     // sizeof(int)
  const HEADER := 8  // sizeof(size_t)

  /** n bytes of memory that nothing has been read into. */
  function Unread(junk: seq<byte>, n: nat): (m: seq<byte>)
    ensures |m| == n
  {
    if |junk| >= n then junk[..n] else junk + seq(n - |junk|, _ => 0)
  }

  /** 256 to the power k: the number of values k bytes can hold. */
  function Pow256(k: nat): (p: nat)
    ensures p > 0
  {
    if k == 0 then 1 else 256 * Pow256(k - 1)
  }

  /** The k-byte big-endian encoding of n (taken modulo 256^k, as a fixed-width store does). */
  function Encode(n: nat, k: nat): (s: seq<byte>)
    ensures |s| == k
  {
    if k == 0 then [] else Encode(n / 256, k - 1) + [n % 256]
  }

  /** Byte i counts multiples of 256^(k-1-i): the most significant one comes first. */
  lemma {:induction false} EncodeDigits(n: nat, k: nat, i: nat)
    requires i < k
    ensures Encode(n, k)[i] == n / Pow256(k - 1 - i) % 256
  {
    if i < k - 1 {
      EncodeDigits(n / 256, k - 1, i);
      QuotientTwice(n, Pow256(k - 2 - i));
    }
  }

  lemma PlaceValues()
    ensures Pow256(0) == 1 && Pow256(1) == 0x100 && Pow256(2) == 0x1_0000 && Pow256(3) == 0x100_0000
    ensures Pow256(4) == 0x1_0000_0000 && Pow256(5) == 0x100_0000_0000 && Pow256(6) == 0x1_0000_0000_0000
    ensures Pow256(7) == 0x100_0000_0000_0000 && Pow256(8) == 0x1_0000_0000_0000_0000
  {
    assert Pow256(4) == 256 * Pow256(3) == 0x1_0000_0000;
    assert Pow256(8) == 256 * Pow256(7) && Pow256(7) == 256 * Pow256(6) && Pow256(6) == 256 * Pow256(5);
  }

  /** What a size looks like on the wire: eight bytes, as htobe64 makes them. */
  lemma SizeOnWire(n: nat)
    requires n < 0x1_0000_0000_0000_0000
    ensures Encode(n, HEADER) == [n / 0x100_0000_0000_0000, n / 0x1_0000_0000_0000 % 256, n / 0x100_0000_0000 % 256,
                                  n / 0x1_0000_0000 % 256, n / 0x100_0000 % 256, n / 0x1_0000 % 256, n / 0x100 % 256,
                                  n % 256]
  {
    var s := Encode(n, HEADER);
    PlaceValues();
    EncodeDigits(n, 8, 0);
    assert s[0] == n / 0x100_0000_0000_0000;
    EncodeDigits(n, 8, 1);
    EncodeDigits(n, 8, 2);
    EncodeDigits(n, 8, 3);
    EncodeDigits(n, 8, 4);
    EncodeDigits(n, 8, 5);
    EncodeDigits(n, 8, 6);
    EncodeDigits(n, 8, 7);
  }

  function Decode(s: seq<byte>): (n: nat)
  {
    if s == [] then 0 else Decode(s[..|s| - 1]) * 256 + s[|s| - 1]
  }

  /** Every value that fits in k bytes survives encoding. */
  lemma {:induction false} DecodeEncode(n: nat, k: nat)
    requires n < Pow256(k)
    ensures Decode(Encode(n, k)) == n
  {
    if k > 0 {
      DecodeEncode(n / 256, k - 1);
      assert Encode(n, k)[..k - 1] == Encode(n / 256, k - 1);
    }
  }

  /** Every k-byte string is the encoding of a value below 256^k. */
  lemma {:induction false} EncodeDecode(s: seq<byte>)
    ensures Decode(s) < Pow256(|s|)
    ensures Encode(Decode(s), |s|) == s
  {
    if s != [] {
      var k := |s|;
      EncodeDecode(s[..k - 1]);
      assert Decode(s) / 256 == Decode(s[..k - 1]) && Decode(s) % 256 == s[k - 1];
      assert s[..k - 1] + [s[k - 1]] == s;
    }
  }

  /** Concatenation of a list of byte strings. */
  function Flatten(v: seq<seq<byte>>): (s: seq<byte>)
  {
    if v == [] then [] else v[0] + Flatten(v[1..])
  }

  /** buf with the bytes of blk copied in at offset off. */
  function Place(buf: seq<byte>, off: nat, blk: seq<byte>): (r: seq<byte>)
    requires off + |blk| <= |buf|
    ensures |r| == |buf|
    ensures r[off..off + |blk|] == blk
    ensures r[..off] == buf[..off] && r[off + |blk|..] == buf[off + |blk|..]
  {
    buf[..off] + blk + buf[off + |blk|..]
  }

  /** memcpy of src to offset off of buff. */
  method CopyIn(buff: array<byte>, off: nat, src: seq<byte>)
    requires off + |src| <= buff.Length
    modifies buff
    ensures buff[..] == Place(old(buff[..]), off, src)
  {
    for i := 0 to |src|
      invariant buff[..off + i] == old(buff[..off]) + src[..i]
      invariant buff[off + i..] == old(buff[off + i..])
    {
      buff[off + i] := src[i];
    }
    assert buff[..] == buff[..off + |src|] + buff[off + |src|..];
  }
}
