/** One reader's view of a connection: Handle with its cached header, the HandleUser wrapper on top,
    and the drain loop that closes a handle at shutdown. */
module HandleUsers {
  import opened Bytes
  import opened Framing
  import opened Tcp

  datatype Errno = NoError | WouldBlock | NoMemory

  /** A TCP handle on a connection that does not fail and whose peer ends its stream with EOS. */
  class Handle {
    const tcp: HandleTCP
    var probed: bool        // probed.first: a header has been read and its payload has not
    var probedSize: nat     // probed.second
    var closedRd: bool
    var closedWr: bool
    var fdOpen: bool
    ghost var todo: seq<seq<byte>>  // messages of the peer not yet handed to the user

    ghost predicate Valid()
      reads this, tcp.inp
    {
      && tcp.inp != tcp.out && tcp.inp.healthy && tcp.out.healthy
      && Payloads(todo)
      && (if closedRd then todo == [] && (probed ==> probedSize == 0)
          else if probed then todo != [] && probedSize == |todo[0]| &&
                            tcp.inp.bytes == todo[0] + (Frames(todo[1..]) + EOS)
          else tcp.inp.bytes == Frames(todo) + EOS)
    }

    constructor (tcp: HandleTCP, ghost todo: seq<seq<byte>>)
      requires tcp.inp != tcp.out && tcp.inp.healthy && tcp.out.healthy
      requires Payloads(todo) && tcp.inp.bytes == Frames(todo) + EOS
      ensures Valid() && this.tcp == tcp && this.todo == todo && !probed && !closedRd && !closedWr && fdOpen
    {
      this.tcp, this.todo := tcp, todo;
      probed, probedSize, closedRd, closedWr, fdOpen := false, 0, false, false, true;
    }

    /** EOS is written once; the descriptor goes when both directions are closed. */
    method Close(closeWr: bool, closeRd: bool)
      requires tcp.inp != tcp.out && tcp.out.healthy
      modifies this`closedWr, this`closedRd, this`fdOpen, tcp.out
      ensures closedWr == (old(closedWr) || closeWr) && closedRd == (old(closedRd) || closeRd)
      ensures tcp.out.bytes == old(tcp.out.bytes) + if closeWr && !old(closedWr) then EOS else []
      ensures fdOpen == (old(fdOpen) && !(closedWr && closedRd))
    {
      if closeWr && !closedWr {
        var _ := tcp.SendEOS();
        closedWr := true;
      }
      if closeRd && !closedRd { closedRd := true; }
      if closedWr && closedRd { fdOpen := false; }
    }

    lemma FramesNext(todo: seq<seq<byte>>)
      requires todo != []
      ensures Frames(todo) + EOS == Frame(todo[0]) + (Frames(todo[1..]) + EOS)
    {
    }

    /** The stream starts with the header of the next message, or is EOS. */
    lemma HeaderNext(todo: seq<seq<byte>>, s: seq<byte>)
      requires Payloads(todo) && s == Frames(todo) + EOS
      ensures |s| >= HEADER
      ensures todo == [] ==> Decode(s[..HEADER]) == 0 && s[HEADER..] == []
      ensures todo != [] ==> Decode(s[..HEADER]) == |todo[0]| && s[HEADER..] == todo[0] + (Frames(todo[1..]) + EOS)
    {
      if todo == [] {
        EosHead([]);
        assert s == EOS + [];
      } else {
        FramesNext(todo);
        FrameHead(todo[0], Frames(todo[1..]) + EOS);
      }
    }

    /** Handle::probe on the underlying connection: the next header, or EOS. */
    method ReadHeader(blocking: bool) returns (r: int, size: nat)
      requires Valid() && !closedRd && !probed
      modifies tcp.inp
      ensures r == HEADER || (r == -1 && !blocking)
      ensures r == -1 ==> tcp.inp.bytes == old(tcp.inp.bytes)
      ensures r == HEADER && todo == [] ==> size == 0 && tcp.inp.bytes == []
      ensures r == HEADER && todo != [] ==> size == |todo[0]| && tcp.inp.bytes == todo[0] + (Frames(todo[1..]) + EOS)
    {
      HeaderNext(todo, tcp.inp.bytes);
      r, size := tcp.Probe(blocking);
    }

    /** Clears the cached header and reads the whole payload it announced. */
    method ReadPayload(buff: array<byte>, n: nat) returns (r: int)
      requires tcp.inp != tcp.out && tcp.inp.healthy && tcp.out.healthy && Payloads(todo)
      requires !closedRd && todo != [] && n == |todo[0]| <= buff.Length
      requires tcp.inp.bytes == todo[0] + (Frames(todo[1..]) + EOS)
      modifies this`todo, this`probed, this`probedSize, tcp.inp, buff
      ensures Valid() && !probed && todo == old(todo)[1..] && r == n
      ensures buff[..] == Place(old(buff[..]), 0, old(todo)[0])
    {
      ghost var rest := Frames(todo[1..]) + EOS;
      probed, probedSize := false, 0;
      r := tcp.Receive(buff, n);
      assert (todo[0] + rest)[..n] == todo[0] && (todo[0] + rest)[n..] == rest;
      todo := todo[1..];
    }

    /** Throws pending messages away until EOS, starting from a header that may already be cached. */
    method Drain()
      requires Valid() && !closedRd
      modifies this`todo, this`probed, this`probedSize, tcp.inp
      ensures todo == [] && !probed && tcp.inp.bytes == []
    {
      var sz := 1;
      while true
        invariant Valid() && !closedRd
        decreases |todo|
      {
        if probed {
          sz := probedSize;
        } else {
          var r, size := ReadHeader(true);
          if r == HEADER { sz := size; }
        }
        if sz == 0 { break; }
        var buff := new byte[sz](_ => 0);
        var _ := ReadPayload(buff, sz);
      }
    }

    /** Closing at shutdown; when blocking, the peer's EOS is waited for. */
    method SetAsClosed(block: bool)
      requires Valid()
      modifies this, tcp.inp, tcp.out
      ensures closedWr && closedRd && !fdOpen
      ensures tcp.out.bytes == old(tcp.out.bytes) + if old(closedWr) then [] else EOS
      ensures block && !old(closedRd) ==> todo == [] && tcp.inp.bytes == []
      ensures !block || old(closedRd) ==> tcp.inp.bytes == old(tcp.inp.bytes)
    {
      if !closedWr { Close(true, false); }
      if block && !closedRd { Drain(); }
      Close(false, true);
    }
  }

  /** The wrapper a user holds. Only a readable wrapper may read. */
  class HandleUser {
    const handle: Handle
    var isReadable: bool
    var newConnection: bool

    constructor (h: Handle)
      ensures handle == h && isReadable && newConnection
    {
      handle := h;
      isReadable, newConnection := true, true;
    }

    method Probe(blocking: bool) returns (r: int, size: nat, errno: Errno)
      requires handle.Valid()
      modifies this, handle, handle.tcp.inp, handle.tcp.out
      ensures handle.Valid() && handle.todo == old(handle.todo) && !newConnection
      ensures handle.closedWr == old(handle.closedWr)
      ensures !old(isReadable) && !old(handle.probed) ==> r == 0 && handle.probed == old(handle.probed) && !isReadable
      ensures (old(isReadable) || old(handle.probed)) && r == HEADER ==>
          handle.todo != [] && size == |handle.todo[0]| && handle.probed
      ensures r == 0 && old(isReadable) ==> handle.todo == [] && (handle.closedRd || old(handle.probed))
      ensures r == -1 ==>
                errno == WouldBlock && !blocking && !old(handle.probed) && !old(handle.closedRd) && !handle.probed
      ensures r == HEADER || r == 0 || r == -1
      ensures r != 0 ==> isReadable == old(isReadable) && handle.closedRd == old(handle.closedRd)
      ensures old(handle.closedRd) ==> handle.closedRd && r == 0
      ensures handle.closedRd && !old(handle.closedRd) ==> handle.probed && !isReadable
      ensures handle.closedRd == old(handle.closedRd) ==> isReadable == old(isReadable)
      ensures old(handle.closedRd) ==> handle.probed == old(handle.probed)
    {
      newConnection := false;
      size, errno := 0, NoError;
      if handle.probed {
        size := handle.probedSize;
        return if size > 0 then HEADER else 0, size, errno;
      }
      if !isReadable { return 0, size, errno; }
      if handle.closedRd { return 0, size, errno; }
      r, size := handle.ReadHeader(blocking);
      if r <= 0 { return -1, size, WouldBlock; }
      handle.probed, handle.probedSize := true, size;
      if size == 0 {
        handle.Close(false, true);
        isReadable := false;
        return 0, size, errno;
      }
    }

    method Receive(buff: array<byte>, size: nat) returns (r: int, errno: Errno)
      requires handle.Valid() && size <= buff.Length
      modifies this, handle, handle.tcp.inp, handle.tcp.out, buff
      ensures handle.Valid()
      ensures !old(isReadable) || old(handle.todo) == [] ==>
                r == 0 && handle.todo == old(handle.todo) && buff[..] == old(buff[..])
      ensures old(isReadable) && old(handle.todo) != [] ==>
                var m := old(handle.todo)[0];
                if |m| > size
                then r == -1 && errno == NoMemory && handle.todo == old(handle.todo) && handle.probed
                    && buff[..] == old(buff[..])
                else r == |m| && handle.todo == old(handle.todo)[1..] && !handle.probed
                     && buff[..] == Place(old(buff[..]), 0, m)
      ensures old(isReadable) && old(handle.todo) != [] ==> isReadable && !handle.closedRd
      ensures old(isReadable) && old(handle.todo) == [] ==> handle.closedRd
      ensures !old(isReadable) ==> handle.closedRd == old(handle.closedRd) && handle.probed == old(handle.probed)
      ensures (old(handle.closedRd) ==> old(handle.probed)) ==> (handle.closedRd ==> handle.probed)
    {
      errno := NoError;
      if !handle.probed {
        var n, sz;
        n, sz, errno := Probe(true);
        if n <= 0 { return n, errno; }
      } else {
        newConnection := false;
        if !isReadable { return 0, errno; }
        if handle.closedRd { return 0, errno; }
      }
      var sz := handle.probedSize;
      if sz > size { return -1, NoMemory; }
      r := handle.ReadPayload(buff, sz);
    }
  }

  // What a user can observe -------------------------------------------------------

  datatype Call = CallProbe(blocking: bool) | CallReceive(size: nat)

  datatype Reply = Pending | Size(n: nat) | TooSmall | Message(m: seq<byte>) | End

  /** A reply a wrapper may give to a call when the peer's remaining messages are todo and known says
      whether the next header (or the EOS) has already been read. Only a non-blocking probe of an
      unread header may find nothing yet. */
  predicate ReplyOk(todo: seq<seq<byte>>, known: bool, call: Call, reply: Reply) {
    match reply
    case Pending => call == CallProbe(false) && !known
    case Size(n) => call.CallProbe? && todo != [] && n == |todo[0]|
    case TooSmall => call.CallReceive? && todo != [] && call.size < |todo[0]|
    case Message(m) => call.CallReceive? && todo != [] && |m| <= call.size && m == todo[0]
    case End => todo == []
  }

  function After(todo: seq<seq<byte>>, reply: Reply): seq<seq<byte>>
    requires reply.Message? ==> todo != []
  {
    if reply.Message? then todo[1..] else todo
  }

  /** Whether the next header is known after the reply: a message consumes it, any other answer leaves it cached. */
  predicate KnownAfter(reply: Reply) { !reply.Pending? && !reply.Message? }

  predicate Explains(todo: seq<seq<byte>>, known: bool, calls: seq<Call>, replies: seq<Reply>)
    decreases |calls|
  {
    && |calls| == |replies|
    && (calls != [] ==>
          && ReplyOk(todo, known, calls[0], replies[0])
          && Explains(After(todo, replies[0]), KnownAfter(replies[0]), calls[1..], replies[1..]))
  }

  /** The messages handed over, in order. */
  function Received(replies: seq<Reply>): seq<seq<byte>>
  {
    if replies == [] then []
    else (if replies[0].Message? then [replies[0].m] else []) + Received(replies[1..])
  }

  lemma {:induction false} EndIsForever(calls: seq<Call>, replies: seq<Reply>)
    requires Explains([], true, calls, replies)
    ensures forall j :: 0 <= j < |replies| ==> replies[j].End?
    ensures Received(replies) == []
    decreases |calls|
  {
    if replies != [] { EndIsForever(calls[1..], replies[1..]); }
  }

  /** What is handed over is a prefix of what the peer sent: nothing lost, repeated or reordered. */
  lemma {:induction false} ReceivedIsPrefix(todo: seq<seq<byte>>, known: bool, calls: seq<Call>, replies: seq<Reply>)
    requires Explains(todo, known, calls, replies)
    ensures Received(replies) <= todo
    decreases |calls|
  {
    if replies != [] {
      ReceivedIsPrefix(After(todo, replies[0]), KnownAfter(replies[0]), calls[1..], replies[1..]);
    }
  }

  /** However probes and receives are mixed and whatever sizes are offered: a size announced is the size of
      the next message handed over, a refused message is still next, and the end is reported only after
      every message, then for ever. */
  lemma {:induction false} RepliesAreExact(todo: seq<seq<byte>>, known: bool, calls: seq<Call>, replies: seq<Reply>,
                                           k: nat)
    requires Explains(todo, known, calls, replies) && k < |replies|
    ensures var got := |Received(replies[..k])|;
            && got <= |todo|
            && AboutNext(todo[got..], calls[k], replies[k])
            && (replies[k].End? ==> forall j :: k <= j < |replies| ==> replies[j].End?)
    decreases |calls|
  {
    if k == 0 {
      if replies[0].End? { EndIsForever(calls, replies); }
    } else {
      RepliesAreExact(After(todo, replies[0]), KnownAfter(replies[0]), calls[1..], replies[1..], k - 1);
      assert replies[..k][1..] == replies[1..][..k - 1];
    }
  }

  /** A reply speaks of the first message not yet handed over. */
  predicate AboutNext(rest: seq<seq<byte>>, call: Call, reply: Reply) {
    match reply
    case Pending => true
    case Size(n) => rest != [] && n == |rest[0]|
    case TooSmall => rest != [] && call.CallReceive? && call.size < |rest[0]|
    case Message(m) => rest != [] && m == rest[0]
    case End => rest == []
  }

  /** A wrapper that may read, or whose stream is over. */
  ghost predicate Reading(u: HandleUser)
    reads u, u.handle, u.handle.tcp.inp
  {
    && u.handle.Valid()
    && (u.isReadable || (u.handle.todo == [] && u.handle.closedRd))
    && (u.handle.closedRd ==> u.handle.probed)
  }

  method OneCall(u: HandleUser, call: Call) returns (reply: Reply)
    requires Reading(u)
    modifies u, u.handle, u.handle.tcp.inp, u.handle.tcp.out
    ensures Reading(u)
    ensures ReplyOk(old(u.handle.todo), old(u.handle.probed), call, reply)
    ensures u.handle.todo == After(old(u.handle.todo), reply) && u.handle.probed == KnownAfter(reply)
  {
    match call
    case CallProbe(blocking) =>
      var r, size, _ := u.Probe(blocking);
      reply := if r > 0 then Size(size) else if r == 0 then End else Pending;
    case CallReceive(size) =>
      var buff := new byte[size](_ => 0);
      var r, _ := u.Receive(buff, size);
      assert r > 0 ==> buff[..r] == buff[..][0..r];
      reply := if r > 0 then Message(buff[..r]) else if r == 0 then End else TooSmall;
  }

  /** Any sequence of calls on a readable wrapper gives replies that Explains allows. */
  method UseWrapper(u: HandleUser, calls: seq<Call>) returns (replies: seq<Reply>)
    requires Reading(u)
    modifies u, u.handle, u.handle.tcp.inp, u.handle.tcp.out
    ensures Reading(u)
    ensures Explains(old(u.handle.todo), old(u.handle.probed), calls, replies)
    decreases |calls|
  {
    if calls == [] { return []; }
    var reply := OneCall(u, calls[0]);
    var rest := UseWrapper(u, calls[1..]);
    replies := [reply] + rest;
    assert replies[1..] == rest;
  }

  // The drain loop on any connection ----------------------------------------------------

  /** How the peer's stream ends after its last whole message: with EOS; without one, the peer having disconnected; or
      with a read that fails, in place of a header or of the payload that a header has announced. */
  datatype Ending = SaysEos | Vanishes | BreaksAtHeader | BreaksInPayload(size: nat)

  /** GaveUp: setAsClosed returned from inside the loop. */
  datatype Status = Going | Drained | GaveUp

  /** One connection seen by the drain loop: messages still to come and what follows them, whether the first header
      is cached, and the loop's variable sz. */
  datatype Draining = Draining(todo: seq<seq<byte>>, ending: Ending, cached: bool, sz: nat, status: Status)

  ghost predicate Drainable(d: Draining) {
    && Payloads(d.todo) && (d.cached ==> d.todo != [] || d.ending.BreaksInPayload?)
    && (d.ending.BreaksInPayload? ==> d.ending.size > 0)
    && d.sz > 0 && d.status == Going
  }

  /** One pass. At a bare end of stream the probe returns 0, which the loop does not look at, so sz keeps
      its last value and the receive that follows reads nothing. */
  function DrainPass(d: Draining): Draining
  {
    if d.status != Going then d
    else if d.todo != [] then
      d.(todo := d.todo[1..], cached := false, sz := |d.todo[0]|, status := if |d.todo[0]| == 0 then Drained else Going)
    else
      match d.ending
      case SaysEos => d.(sz := 0, status := Drained)
      case Vanishes => if d.sz == 0 then d.(status := Drained) else d
      case BreaksAtHeader => d.(status := GaveUp)
      case BreaksInPayload(n) => d.(sz := n, status := if n == 0 then Drained else GaveUp)
  }

  function DrainPasses(d: Draining, n: nat): Draining
    decreases n
  {
    if n == 0 then d else DrainPasses(DrainPass(d), n - 1)
  }

  /** setAsClosed closes the read side after the loop only; a return from inside leaves it open, and with it the
      descriptor and its entry in the connection table. */
  predicate ReadSideClosed(d: Draining) { d.status == Drained }

  /** How the loop ends on this connection. */
  function Outcome(ending: Ending): Status {
    match ending
    case SaysEos => Drained
    case Vanishes => Going
    case BreaksAtHeader => GaveUp
    case BreaksInPayload(_) => GaveUp
  }

  /** Blocking shutdown of a peer with k messages to come: the loop goes on for k passes, throwing one away each time,
      and what happens after that is for ever what the end of the stream decides. */
  lemma {:induction false} DrainRuns(d: Draining, n: nat)
    requires Drainable(d)
    ensures DrainPasses(d, n).status == if n <= |d.todo| then Going else Outcome(d.ending)
    ensures DrainPasses(d, n).todo == if n <= |d.todo| then d.todo[n..] else []
    decreases n
  {
    if n > 0 {
      if d.todo != [] {
        DrainRuns(DrainPass(d), n - 1);
      } else {
        DrainSettled(DrainPass(d), n - 1);
      }
    }
  }

  lemma {:induction false} DrainSettled(d: Draining, n: nat)
    requires DrainPass(d) == d
    ensures DrainPasses(d, n) == d
  {
    if n > 0 { DrainSettled(d, n - 1); }
  }

  /** The loop ends if and only if EOS comes or a read fails: a peer that vanishes without EOS makes it spin. It leaves
      the read side closed if and only if EOS has come; then every message has been discarded. */
  lemma DrainEndsUnlessPeerVanishes(d: Draining)
    requires Drainable(d)
    ensures (exists n: nat :: DrainPasses(d, n).status != Going) <==> d.ending != Vanishes
    ensures (exists n: nat :: ReadSideClosed(DrainPasses(d, n))) <==> d.ending == SaysEos
    ensures forall n: nat :: DrainPasses(d, n).status != Going ==> DrainPasses(d, n).todo == []
  {
    forall n: nat
      ensures DrainPasses(d, n).status == Going || DrainPasses(d, n).status == Outcome(d.ending)
      ensures DrainPasses(d, n).status != Going ==> DrainPasses(d, n).todo == []
    {
      DrainRuns(d, n);
    }
    var n := |d.todo| + 1;
    DrainRuns(d, n);
    var last := DrainPasses(d, n);
    assert last.status == Outcome(d.ending);
    match d.ending
    case SaysEos => assert last.status != Going && ReadSideClosed(last);
    case Vanishes =>
    case BreaksAtHeader => assert last.status != Going;
    case BreaksInPayload(_) => assert last.status != Going;
  }
}
