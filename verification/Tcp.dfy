/** HandleTCP over a stream socket whose system calls may transfer any part of what is asked. */
module Tcp {
  import opened Bytes
  import opened Framing

  /** One direction of a connection. For the reading side, bytes is everything the peer will ever
      write, so a short read stands for data that has not arrived yet. On a stream that is not
      healthy any call may fail. */
  class Wire {
    var bytes: seq<byte>
    const healthy: bool

    constructor (healthy: bool)
      ensures bytes == [] && this.healthy == healthy
    {
      bytes := [];
      this.healthy := healthy;
    }

    /** write(2): some non-empty part of buf while the connection is healthy. */
    method Write(buf: seq<byte>) returns (n: int)
      modifies this
      ensures -1 <= n <= |buf|
      ensures healthy && buf != [] ==> n > 0
      ensures bytes == old(bytes) + buf[..if n < 0 then 0 else n]
    {
      var fails: bool := *;
      if !healthy && fails { return -1; }
      n :| 0 <= n <= |buf| && (buf != [] && healthy ==> n > 0);
      bytes := bytes + buf[..n];
    }

    /** writev(2) on buffers not all empty: it fails or makes progress. */
    method WriteV(v: seq<seq<byte>>) returns (n: int)
      modifies this
      ensures -1 <= n <= |Flatten(v)|
      ensures healthy ==> n >= 0
      ensures Flatten(v) != [] ==> n != 0
      ensures bytes == old(bytes) + Flatten(v)[..if n < 0 then 0 else n]
    {
      var buf := Flatten(v);
      var fails: bool := *;
      if !healthy && fails { return -1; }
      n :| 0 <= n <= |buf| && (buf != [] ==> n > 0);
      bytes := bytes + buf[..n];
    }

    /** read(2): -1 on failure, 0 at the end of what the peer writes, or any non-empty part. */
    method Read(n: nat) returns (r: int, got: seq<byte>)
      modifies this
      ensures -1 <= r <= n && r <= |old(bytes)|
      ensures healthy && n > 0 ==> r >= 0 && (r == 0 <==> old(bytes) == [])
      ensures var k := if r < 0 then 0 else r;
              got == old(bytes)[..k] && bytes == old(bytes)[k..]
    {
      var fails: bool := *;
      if !healthy && fails { return -1, []; }
      r :| 0 <= r <= n && r <= |bytes| && (n > 0 && bytes != [] ==> r > 0);
      got, bytes := bytes[..r], bytes[r..];
    }

    /** recv(2) of a header with MSG_DONTWAIT: nothing yet (-1), end of stream (0), or the whole header. */
    method TryReadHeader() returns (r: int, got: seq<byte>)
      modifies this
      ensures r == -1 || r == 0 || r == HEADER
      ensures r == HEADER ==> |old(bytes)| >= HEADER
      ensures r == 0 ==> !healthy || old(bytes) == []
      ensures var k := if r < 0 then 0 else r;
              got == old(bytes)[..k] && bytes == old(bytes)[k..]
    {
      if * { return -1, []; }
      if bytes == [] { return 0, []; }
      if |bytes| < HEADER { return -1, []; }
      r, got, bytes := HEADER, bytes[..HEADER], bytes[HEADER..];
    }
  }

  class HandleTCP {
    const inp: Wire
    const out: Wire

    constructor (inp: Wire, out: Wire)
      ensures this.inp == inp && this.out == out
    {
      this.inp, this.out := inp, out;
    }

    method WriteN(buf: seq<byte>) returns (r: int)
      modifies out
      ensures -1 <= r <= |buf|
      ensures out.bytes == old(out.bytes) + buf[..if r < 0 then 0 else r]
      ensures out.healthy ==> r == |buf|
    {
      var n := |buf|;
      var nleft := n;
      while nleft > 0
        invariant 0 <= nleft <= n
        invariant out.bytes == old(out.bytes) + buf[..n - nleft]
      {
        ghost var before := out.bytes;
        var nwritten := out.Write(buf[n - nleft..]);
        if nwritten < 0 {
          if nleft == n { return -1; } else { break; }
        } else if nwritten == 0 {
          break;
        }
        assert buf[..n - nleft] + buf[n - nleft..][..nwritten] == buf[..n - nleft + nwritten];
        nleft := nleft - nwritten;
      }
      r := n - nleft;
    }

    /** Skips the io vectors that written covers completely. */
    method SkipFull(v: array<seq<byte>>, cur: nat, written: nat) returns (cur': nat, written': nat)
      requires cur <= v.Length && written <= |Flatten(v[cur..])|
      ensures cur <= cur' <= v.Length && written' <= |Flatten(v[cur'..])|
      ensures Flatten(v[cur'..])[written'..] == Flatten(v[cur..])[written..]
      ensures cur' < v.Length ==> written' < |v[cur']|
    {
      cur', written' := cur, written;
      while cur' < v.Length && written' >= |v[cur']|
        invariant cur <= cur' <= v.Length && written' <= |Flatten(v[cur'..])|
        invariant Flatten(v[cur'..])[written'..] == Flatten(v[cur..])[written..]
      {
        FlattenStep(v[cur'..], written');
        assert v[cur'..][1..] == v[cur' + 1..];
        written' := written' - |v[cur']|;
        cur' := cur' + 1;
      }
    }

    /** One writev, after which full io vectors are skipped and a partly written one is advanced in place. */
    method WritePass(v: array<seq<byte>>, cur: nat) returns (ok: bool, cur': nat)
      requires cur <= v.Length
      modifies out, v
      ensures cur <= cur' <= v.Length && old(out.bytes) <= out.bytes
      ensures !ok ==> !out.healthy && out.bytes <= old(out.bytes + Flatten(v[cur..]))
      ensures ok ==> out.bytes + Flatten(v[cur'..]) == old(out.bytes + Flatten(v[cur..]))
      ensures ok && cur' < v.Length ==> |Flatten(v[cur'..])| < |old(Flatten(v[cur..]))| || cur' > cur
    {
      ghost var rest := v[cur..];
      var written := out.WriteV(v[cur..]);
      if written < 0 { return false, cur; }
      Cut(old(out.bytes), Flatten(rest), written);
      var written';
      cur', written' := SkipFull(v, cur, written);
      ok := true;
      if cur' == v.Length {
        assert v[cur'..] == [];
        return;
      }
      ghost var was := v[cur'..];
      FlattenAdvance(was, written');
      v[cur'] := v[cur'][written'..];
      assert v[cur'..] == [was[0][written'..]] + was[1..];
    }

    lemma Cut(wire: seq<byte>, s: seq<byte>, k: nat)
      requires k <= |s|
      ensures wire + s[..k] + s[k..] == wire + s && wire + s[..k] <= wire + s
    {
      assert s[..k] + s[k..] == s;
      assert wire + s[..k] + s[k..] == wire + (s[..k] + s[k..]);
    }

    /** The io vectors are consumed in place until none is left. */
    method WriteVN(v: array<seq<byte>>) returns (r: int)
      modifies out, v
      ensures r == 1 || r == -1
      ensures out.healthy ==> r == 1
      ensures r == 1 ==> out.bytes == old(out.bytes) + Flatten(old(v[..]))
      ensures r == -1 ==> old(out.bytes) <= out.bytes <= old(out.bytes) + Flatten(old(v[..]))
    {
      ghost var goal := out.bytes + Flatten(v[..]);
      var cur := 0;
      assert v[0..] == v[..];
      while true
        invariant 0 <= cur <= v.Length
        invariant old(out.bytes) <= out.bytes
        invariant out.bytes + Flatten(v[cur..]) == goal
        decreases |Flatten(v[cur..])|, v.Length - cur
      {
        var ok, cur' := WritePass(v, cur);
        if !ok { return -1; }
        if cur' == v.Length {
          assert v[cur'..] == [];
          return 1;
        }
        cur := cur';
      }
    }

    lemma FlattenStep(v: seq<seq<byte>>, k: nat)
      requires v != [] && |v[0]| <= k <= |Flatten(v)|
      ensures Flatten(v)[k..] == Flatten(v[1..])[k - |v[0]|..]
    {
    }

    lemma FlattenAdvance(v: seq<seq<byte>>, k: nat)
      requires v != [] && k <= |v[0]|
      ensures Flatten([v[0][k..]] + v[1..]) == Flatten(v)[k..]
    {
      assert ([v[0][k..]] + v[1..])[1..] == v[1..];
    }

    /** Reads up to n bytes into dst at off. */
    method ReadN(dst: array<byte>, off: nat, n: nat) returns (r: int)
      requires off + n <= dst.Length
      modifies inp, dst
      ensures -1 <= r <= n && r <= |old(inp.bytes)|
      ensures inp.healthy ==> r == if n <= |old(inp.bytes)| then n else |old(inp.bytes)|
      ensures var k := if r < 0 then 0 else r;
              inp.bytes == old(inp.bytes)[k..]
              && dst[..] == Place(old(dst[..]), off, old(inp.bytes)[..k])
    {
      ghost var src, old_dst := inp.bytes, dst[..];
      var nleft := n;
      assert Place(old_dst, off, src[..0]) == old_dst;
      while nleft > 0
        invariant 0 <= nleft <= n && n - nleft <= |src|
        invariant inp.bytes == src[n - nleft..]
        invariant dst[..] == Place(old_dst, off, src[..n - nleft])
      {
        var done := n - nleft;
        var nread, got := inp.Read(nleft);
        if nread < 0 {
          if nleft == n { return -1; } else { break; }
        } else if nread == 0 {
          break;
        }
        PlaceMore(old_dst, off, src, done, nread);
        assert got == src[done..][..nread];
        CopyIn(dst, off + done, got);
        assert n - (nleft - nread) == done + nread;
        assert dst[..] == Place(old_dst, off, src[..done + nread]);
        nleft := nleft - nread;
      }
      r := n - nleft;
    }

    lemma PlaceMore(buf: seq<byte>, off: nat, src: seq<byte>, done: nat, more: nat)
      requires done + more <= |src| && off + done + more <= |buf|
      ensures Place(Place(buf, off, src[..done]), off + done, src[done..][..more])
         == Place(buf, off, src[..done + more])
      ensures src[done..][more..] == src[done + more..]
    {
      PlaceTwice(buf, off, src[..done], src[done..][..more]);
      assert src[..done] + src[done..][..more] == src[..done + more];
    }

    lemma PlaceTwice(buf: seq<byte>, off: nat, a: seq<byte>, b: seq<byte>)
      requires off + |a| + |b| <= |buf|
      ensures Place(Place(buf, off, a), off + |a|, b) == Place(buf, off, a + b)
    {
    }

    method SendEOS() returns (r: int)
      modifies out
      ensures out.healthy ==> out.bytes == old(out.bytes) + EOS && r == HEADER
      ensures out.healthy ==> out.bytes == old(out.bytes) + [0, 0, 0, 0, 0, 0, 0, 0] && r == 8
    {
      r := WriteN(Encode(0, HEADER));
      assert out.healthy ==> EOS[..HEADER] == EOS;
      SizeOnWire(0);
    }

    /** The length in eight bytes, the most significant first, and then the payload. */
    method Send(buff: seq<byte>) returns (r: int)
      modifies out
      ensures r == -1 || r == |buff|
      ensures r == |buff| ==> out.bytes == old(out.bytes) + Frame(buff)
      ensures r == |buff| ==> Framed(out.bytes[|old(out.bytes)|..], buff)
      ensures out.healthy ==> r == |buff|
    {
      var iov := new seq<byte>[2][Encode(|buff|, HEADER), buff];
      ghost var v := iov[..];
      assert v == [Encode(|buff|, HEADER), buff];
      assert Flatten(v) == Frame(buff) by {
        assert v[1..] == [buff] && [buff][1..] == [];
        assert Flatten([buff]) == buff;
      }
      FrameOnWire(buff);
      var ok := WriteVN(iov);
      if ok < 0 { return -1; }
      return |buff|;
    }

    /** The eight bytes of sz, read blocking (readn) or not. At end of stream a blocking read may leave
        the rest of sz as it was. */
    method ReadHeader(blocking: bool) returns (r: int, sz: seq<byte>)
      modifies inp
      ensures |sz| == HEADER && -1 <= r <= HEADER
      ensures r <= 0 ==> inp.bytes == old(inp.bytes)
      ensures r == HEADER ==>
                |old(inp.bytes)| >= HEADER && sz == old(inp.bytes)[..HEADER] && inp.bytes == old(inp.bytes)[HEADER..]
      ensures inp.healthy && blocking ==> r == if HEADER <= |old(inp.bytes)| then HEADER else |old(inp.bytes)|
      ensures inp.healthy && r == 0 ==> old(inp.bytes) == []
      ensures inp.healthy && blocking && |old(inp.bytes)| < HEADER ==> inp.bytes == []
      ensures !blocking ==> r == -1 || r == 0 || r == HEADER
    {
      var hdr := new byte[HEADER];
      if blocking {
        r := ReadN(hdr, 0, HEADER);
        sz := hdr[..];
        if r == HEADER { PlaceWhole(old(inp.bytes)[..HEADER]); }
      } else {
        var got;
        r, got := inp.TryReadHeader();
        sz := if r == HEADER then got else hdr[..];
      }
    }

    lemma PlaceWhole(a: seq<byte>)
      ensures forall buf :: |buf| == |a| ==> Place(buf, 0, a) == a
    {
      forall buf: seq<byte> | |buf| == |a| ensures Place(buf, 0, a) == a {
        assert Place(buf, 0, a) == buf[..0] + a + buf[|a|..];
      }
    }

    /** Reads the header into size. With a partial header at end of stream it still reports success. */
    method Probe(blocking: bool) returns (r: int, size: nat)
      modifies inp
      ensures r == -1 || r == 0 || r == HEADER
      ensures r <= 0 ==> inp.bytes == old(inp.bytes)
      ensures r == HEADER && |old(inp.bytes)| >= HEADER && inp.healthy ==>
                size == Decode(old(inp.bytes)[..HEADER]) && inp.bytes == old(inp.bytes)[HEADER..]
      ensures inp.healthy && blocking ==> r == if old(inp.bytes) == [] then 0 else HEADER
      ensures inp.healthy && blocking && |old(inp.bytes)| < HEADER ==> inp.bytes == []
      ensures inp.healthy && r == 0 ==> old(inp.bytes) == []
      ensures r == 8 && |old(inp.bytes)| >= 8 && inp.healthy ==>
                inp.bytes == old(inp.bytes)[8..] && BigEndian(old(inp.bytes)[..8], size)
    {
      var n, sz := ReadHeader(blocking);
      SizeFromWire(sz);
      size := 0;
      if n <= 0 { return n, size; }
      size := Decode(sz);
      r := HEADER;
    }

    method Receive(buff: array<byte>, size: nat) returns (r: int)
      requires size <= buff.Length
      modifies inp, buff
      ensures -1 <= r <= size && r <= |old(inp.bytes)|
      ensures inp.healthy ==> r == if size <= |old(inp.bytes)| then size else |old(inp.bytes)|
      ensures var k := if r < 0 then 0 else r;
              inp.bytes == old(inp.bytes)[k..]
              && buff[..] == Place(old(buff[..]), 0, old(inp.bytes)[..k])
    {
      r := ReadN(buff, 0, size);
    }
  }

  lemma FramesNext(ms: seq<seq<byte>>, i: nat)
    requires i < |ms|
    ensures Frames(ms[..i + 1]) == Frames(ms[..i]) + Frame(ms[i])
  {
    FramesAppend(ms[..i], [ms[i]]);
    assert Frames([ms[i]]) == Frame(ms[i]) + [];
    assert ms[..i] + [ms[i]] == ms[..i + 1];
  }

  /** All of ms, and then EOS. */
  method SendAll(h: HandleTCP, ms: seq<seq<byte>>)
    requires h.out.healthy
    modifies h.out
    ensures h.out.bytes == old(h.out.bytes) + (Frames(ms) + EOS)
  {
    for i := 0 to |ms|
      invariant h.out.bytes == old(h.out.bytes) + Frames(ms[..i])
    {
      var _ := h.Send(ms[i]);
      FramesNext(ms, i);
    }
    assert ms[..|ms|] == ms;
    var _ := h.SendEOS();
  }

  /** One blocking probe and the receive that follows it: the next message, or more is false at EOS and when the
      stream stops inside a frame. */
  method ReceiveNext(h: HandleTCP) returns (more: bool, m: seq<byte>)
    requires h.inp.healthy
    modifies h.inp
    ensures more ==> Parse(old(h.inp.bytes)) == [m] + Parse(h.inp.bytes) && |h.inp.bytes| < |old(h.inp.bytes)|
    ensures !more ==> Parse(old(h.inp.bytes)) == []
  {
    ghost var s := h.inp.bytes;
    more, m := false, [];
    var r, size := h.Probe(true);
    if r <= 0 || size == 0 { return; }
    var buff := new byte[size];
    r := h.Receive(buff, size);
    if r < size { return; }
    more, m := true, buff[..];
    assert m == m[0..0 + size] == s[HEADER..][..size] == s[HEADER..HEADER + size];
    assert s[HEADER..][size..] == s[HEADER + size..];
  }

  method ReceiveAll(h: HandleTCP) returns (ms: seq<seq<byte>>)
    requires h.inp.healthy
    modifies h.inp
    ensures ms == Parse(old(h.inp.bytes))
  {
    ms := [];
    while true
      invariant ms + Parse(h.inp.bytes) == Parse(old(h.inp.bytes))
      decreases |h.inp.bytes|
    {
      ghost var s := h.inp.bytes;
      var more, m := ReceiveNext(h);
      if !more { return; }
      assert ms + ([m] + Parse(h.inp.bytes)) == (ms + [m]) + Parse(h.inp.bytes);
      ms := ms + [m];
    }
  }

  /** Both sides of a connection: whatever the short writes and the short reads, the receiver gets exactly the list
      that was sent. */
  method Transfer(w: Wire, ms: seq<seq<byte>>) returns (got: seq<seq<byte>>)
    requires w.healthy && w.bytes == [] && Payloads(ms)
    modifies w
    ensures got == ms
  {
    var back := new Wire(true);
    var sender := new HandleTCP(back, w);
    var receiver := new HandleTCP(w, back);
    SendAll(sender, ms);
    ParseFrames(ms, []);
    assert w.bytes == Frames(ms) + EOS + [];
    got := ReceiveAll(receiver);
  }
}
