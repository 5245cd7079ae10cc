/** The framing of messages on a byte stream: an 8-byte big-endian length, then the payload.
    A zero length is the end of the stream (EOS). */
module Framing {
  import opened Bytes

  const EOS: seq<byte> := Encode(0, HEADER)

  /** A payload a user may send: not empty, since length zero means EOS, and its length fits a size_t. */
  predicate Payload(m: seq<byte>) { 0 < |m| < Pow256(HEADER) }

  ghost predicate Payloads(ms: seq<seq<byte>>) { forall i :: 0 <= i < |ms| ==> Payload(ms[i]) }

  function Frame(m: seq<byte>): (f: seq<byte>)
    ensures |f| == HEADER + |m|
  {
    Encode(|m|, HEADER) + m
  }

  function Frames(ms: seq<seq<byte>>): seq<byte>
  {
    if ms == [] then [] else Frame(ms[0]) + Frames(ms[1..])
  }

  /** What a receiver makes of a byte stream: the messages up to EOS or up to an incomplete frame. */
  function Parse(s: seq<byte>): seq<seq<byte>>
    decreases |s|
  {
    if |s| < HEADER then []
    else
      var n := Decode(s[..HEADER]);
      if n == 0 || |s| - HEADER < n then []
      else [s[HEADER..HEADER + n]] + Parse(s[HEADER + n..])
  }

  /** s is the number n in eight bytes, the most significant first. */
  ghost predicate BigEndian(s: seq<byte>, n: nat) {
    |s| == 8 && n < 0x1_0000_0000_0000_0000 && forall i :: 0 <= i < 8 ==> s[i] == n / Pow256(7 - i) % 256
  }

  /** s is the length of m, modulo 2^64 in eight bytes, and m. */
  ghost predicate Framed(s: seq<byte>, m: seq<byte>) {
    |s| == 8 + |m| && s[8..] == m && forall i :: 0 <= i < 8 ==> s[i] == |m| / Pow256(7 - i) % 256
  }

  lemma FrameOnWire(m: seq<byte>)
    ensures Framed(Frame(m), m)
  {
    forall i | 0 <= i < 8 ensures Frame(m)[i] == |m| / Pow256(7 - i) % 256 { EncodeDigits(|m|, 8, i); }
  }

  lemma SizeFromWire(s: seq<byte>)
    requires |s| == HEADER
    ensures BigEndian(s, Decode(s))
  {
    PlaceValues();
    EncodeDecode(s);
    forall i | 0 <= i < 8 ensures s[i] == Decode(s) / Pow256(7 - i) % 256 { EncodeDigits(Decode(s), 8, i); }
  }

  lemma BigEndianIs(s: seq<byte>, n: nat)
    requires BigEndian(s, n)
    ensures Decode(s) == n
  {
    PlaceValues();
    forall i | 0 <= i < 8 ensures s[i] == Encode(n, 8)[i] { EncodeDigits(n, 8, i); }
    assert s == Encode(n, 8);
    DecodeEncode(n, 8);
  }

  lemma SplitAt(h: seq<byte>, m: seq<byte>, rest: seq<byte>)
    ensures var s := (h + m) + rest;
            && s[..|h|] == h && s[|h|..] == m + rest
            && s[|h|..|h| + |m|] == m && s[|h| + |m|..] == rest
  {
  }

  lemma FrameHead(m: seq<byte>, rest: seq<byte>)
    requires |m| < Pow256(HEADER)
    ensures var s := Frame(m) + rest;
            && Decode(s[..HEADER]) == |m| && s[HEADER..] == m + rest
            && s[HEADER..HEADER + |m|] == m && s[HEADER + |m|..] == rest
  {
    DecodeEncode(|m|, HEADER);
    SplitAt(Encode(|m|, HEADER), m, rest);
  }

  lemma EosHead(tail: seq<byte>)
    ensures var s := EOS + tail; |s| >= HEADER && Decode(s[..HEADER]) == 0 && s[HEADER..] == tail
  {
    DecodeEncode(0, HEADER);
    assert (EOS + tail)[..HEADER] == EOS;
  }

  /** Round trip for any list of payloads, whatever follows the EOS. */
  lemma {:induction false} ParseFrames(ms: seq<seq<byte>>, tail: seq<byte>)
    requires Payloads(ms)
    ensures Parse(Frames(ms) + EOS + tail) == ms
  {
    if ms == [] {
      EosHead(tail);
      assert Frames(ms) + EOS + tail == EOS + tail;
    } else {
      var rest := Frames(ms[1..]) + EOS + tail;
      assert Frames(ms) + EOS + tail == Frame(ms[0]) + rest;
      FrameHead(ms[0], rest);
      ParseFrames(ms[1..], tail);
    }
  }

  lemma ParseHead(m: seq<byte>, rest: seq<byte>)
    requires Payload(m)
    ensures Parse(Frame(m) + rest) == [m] + Parse(rest)
  {
    FrameHead(m, rest);
  }

  lemma FramesHead(ms: seq<seq<byte>>, rest: seq<byte>)
    requires ms != []
    ensures Frames(ms) + rest == Frame(ms[0]) + (Frames(ms[1..]) + rest)
  {
  }

  lemma Rejoin(ms: seq<seq<byte>>, more: seq<seq<byte>>)
    requires ms != []
    ensures [ms[0]] + (ms[1..] + more) == ms + more
  {
  }

  /** Whole frames parse to their payloads whatever follows, EOS or not. */
  lemma {:induction false} ParsePrefix(ms: seq<seq<byte>>, rest: seq<byte>)
    requires Payloads(ms)
    ensures Parse(Frames(ms) + rest) == ms + Parse(rest)
  {
    if ms == [] {
      assert Frames(ms) + rest == rest;
    } else {
      ParsePrefix(ms[1..], rest);
      FramesHead(ms, rest);
      ParseHead(ms[0], Frames(ms[1..]) + rest);
      Rejoin(ms, Parse(rest));
    }
  }

  /** Nothing is made of a header cut short, of EOS, or of a payload cut short, and of nothing else. */
  lemma ParseStops(s: seq<byte>, n: nat)
    requires |s| >= 8 ==> BigEndian(s[..8], n)
    ensures Parse(s) == [] <==> |s| < 8 || n == 0 || |s| < 8 + n
  {
    if |s| >= 8 { BigEndianIs(s[..8], n); }
  }

  /** An empty payload is indistinguishable from EOS: everything sent after it is invisible to the receiver. */
  lemma EmptyPayloadEndsStream(ms: seq<seq<byte>>, more: seq<seq<byte>>)
    requires Payloads(ms)
    ensures Parse(Frames(ms + [[]] + more)) == ms
  {
    FramesAppend(ms, [[]] + more);
    assert ms + [[]] + more == ms + ([[]] + more);
    assert ([[]] + more)[1..] == more;
    assert Frames(ms + [[]] + more) == Frames(ms) + EOS + Frames(more);
    ParseFrames(ms, Frames(more));
  }

  lemma {:induction false} FramesAppend(a: seq<seq<byte>>, b: seq<seq<byte>>)
    ensures Frames(a + b) == Frames(a) + Frames(b)
  {
    if a == [] {
      assert a + b == b;
    } else {
      FramesAppend(a[1..], b);
      assert (a + b)[1..] == a[1..] + b;
    }
  }
}
