/** A participant's handle as the collectives use it: CollectiveImpl::receiveFromHandle over a link whose
    inbox holds every message its sender will ever put there. The empty message is EOS. */
module Links {
  import opened Bytes

  /** known: the next header has been read and cached. closed: EOS has been read. */
  datatype LinkState = LinkState(inbox: seq<Msg>, known: bool, closed: bool)

  /** r: bytes received, 0 at end of stream, -1 when the message does not fit the buffer. */
  datatype Got = Got(r: int, m: Msg, l: LinkState)

  /** The sender still has something to say, or has said EOS. */
  predicate Answers(l: LinkState) { l.closed || l.inbox != [] }

  /** receiveFromHandle with room for cap bytes. */
  function Recv(l: LinkState, cap: nat): Got
    requires Answers(l)
  {
    if l.closed then Got(0, [], l)
    else if l.inbox[0] == [] then Got(0, [], LinkState(l.inbox[1..], true, true))
    else if |l.inbox[0]| > cap then Got(-1, [], l.(known := true))
    else Got(|l.inbox[0]|, l.inbox[0], LinkState(l.inbox[1..], false, false))
  }

  /** Once a link has ended, by an empty message, it says so for ever. */
  lemma EndIsFinal(l: LinkState, cap: nat, later: nat)
    requires Answers(l) && (l.closed || l.inbox[0] == [])
    ensures var g := Recv(l, cap);
            && g.r == 0 && g.m == [] && Answers(g.l)
            && g.l.inbox == (if l.closed then l.inbox else l.inbox[1..])
            && Recv(g.l, later) == Got(0, [], g.l)
  {
  }

  class Link {
    var inbox: seq<Msg>
    var known: bool
    var knownSize: nat
    var closed: bool
    var outbox: seq<Msg>

    ghost function State(): LinkState
      reads this
    {
      LinkState(inbox, known, closed)
    }

    ghost predicate Valid()
      reads this
    {
      && (known && !closed ==> inbox != [] && knownSize == |inbox[0]| && knownSize > 0)
      && (known && closed ==> knownSize == 0)
    }

    constructor (inbox: seq<Msg>)
      ensures Valid() && State() == LinkState(inbox, false, false) && outbox == []
    {
      this.inbox, known, knownSize, closed, outbox := inbox, false, 0, false, [];
    }

    method Send(m: Msg)
      modifies this`outbox
      ensures outbox == old(outbox) + [m]
    {
      outbox := outbox + [m];
    }

    /** probeHandle, blocking. */
    method ProbeHandle() returns (r: int, size: nat)
      requires Valid() && Answers(State())
      modifies this`inbox, this`known, this`knownSize, this`closed
      ensures Valid() && Answers(State())
      ensures old(closed) || old(inbox)[0] == [] ==> r == 0 && closed
      ensures old(closed) ==> State() == old(State())
      ensures !old(closed) && old(inbox)[0] == [] ==> State() == LinkState(old(inbox)[1..], true, true)
      ensures !old(closed) && old(inbox)[0] != [] ==>
                r == HEADER && size == |old(inbox)[0]| && State() == old(State()).(known := true)
    {
      size := 0;
      if known {
        size := knownSize;
        return if size > 0 then HEADER else 0, size;
      }
      if closed { return 0, size; }
      known, knownSize := true, |inbox[0]|;
      size := knownSize;
      if size == 0 {
        inbox, closed := inbox[1..], true;
        return 0, size;
      }
      r := HEADER;
    }

    method ReceiveFromHandle(cap: nat) returns (r: int, m: Msg)
      requires Valid() && Answers(State())
      modifies this`inbox, this`known, this`knownSize, this`closed
      ensures Valid()
      ensures Got(r, m, State()) == Recv(old(State()), cap)
    {
      m := [];
      if !known {
        var n, _ := ProbeHandle();
        if n <= 0 { return n, m; }
      } else if closed {
        return 0, m;
      }
      var sz := knownSize;
      if sz > cap { return -1, m; }
      known, knownSize := false, 0;
      m, inbox := inbox[0], inbox[1..];
      r := sz;
    }
  }
}
