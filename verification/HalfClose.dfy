/** Two endpoints of one TCP connection and the EOS handshake between them. A frame is the payload
    it carries; the empty payload is EOS. Sends, closes and reads of the two ends interleave freely. */
module HalfClose {
  import opened Bytes

  type Frame = seq<byte>
  const EOS: Frame := []

  /** sent, taken: every frame ever written by this end, and every frame it has read off the wire.
      closes: how many times close(fd) has been called. */
  datatype End = End(
    closedRd: bool, closedWr: bool, inTable: bool, fdOpen: bool,
    sent: seq<Frame>, taken: seq<Frame>, closes: nat)

  /** wires[i] holds the frames written by end i and not yet read by end 1 - i. */
  datatype Net = Net(ends: seq<End>, wires: seq<seq<Frame>>)

  type Side = i: int | 0 <= i < 2

  /** Quit: Manager::finalize without blocking, on a handle that is still in the connection table. */
  datatype Act = Send(i: Side, m: Frame) | CloseWr(i: Side) | Read(i: Side) | Quit(i: Side)

  predicate Formed(n: Net) { |n.ends| == 2 && |n.wires| == 2 }

  const Start: Net := var e := End(false, false, true, true, [], [], 0); Net([e, e], [[], []])

  function Write(n: Net, i: Side, f: Frame): (r: Net)
    requires Formed(n)
    ensures Formed(r)
  {
    var e := n.ends[i];
    Net(n.ends[i := e.(sent := e.sent + [f])], n.wires[i := n.wires[i] + [f]])
  }

  /** ConnTcp::notify_close, called with what is closed by now rather than what is being closed. */
  function NotifyClose(e: End, closeWr: bool, closeRd: bool): End
  {
    var e1 := if closeWr && e.fdOpen && !closeRd && !e.inTable
              then e.(fdOpen := false, closes := e.closes + 1) else e;
    if !closeRd || !e1.fdOpen then e1
    else if closeWr then e1.(inTable := false, fdOpen := false, closes := e1.closes + 1)
    else e1.(inTable := false)
  }

  /** The descriptor goes when its write side is closed and its read side is, now or before; the table forgets it when
      its read side is closed. */
  lemma NotifyCloseExact(e: End, closeWr: bool, closeRd: bool)
    ensures var r := NotifyClose(e, closeWr, closeRd);
            var goes := e.fdOpen && closeWr && (closeRd || !e.inTable);
            && r.fdOpen == (e.fdOpen && !goes) && r.closes == e.closes + (if goes then 1 else 0)
            && r.inTable == (e.inTable && !(closeRd && e.fdOpen))
            && r == e.(fdOpen := r.fdOpen, closes := r.closes, inTable := r.inTable)
  {
  }

  /** Handle::close: EOS goes out the first time the write side is closed. */
  function Close(n: Net, i: Side, closeWr: bool, closeRd: bool): (r: Net)
    requires Formed(n)
    ensures Formed(r)
  {
    var n1 := if closeWr && !n.ends[i].closedWr then Write(n, i, EOS) else n;
    var e := n1.ends[i];
    var e1 := e.(closedWr := e.closedWr || closeWr, closedRd := e.closedRd || closeRd);
    n1.(ends := n1.ends[i := NotifyClose(e1, e1.closedWr, e1.closedRd)])
  }

  /** setAsClosed without blocking: EOS if none has gone out, and then the read side is closed as it is. */
  function SetAsClosed(n: Net, i: Side): (r: Net)
    requires Formed(n)
    ensures Formed(r)
  {
    Close(if n.ends[i].closedWr then n else Close(n, i, true, false), i, false, true)
  }

  /** A send on a closed write side fails; a read on a closed read side returns 0, and one that finds
      nothing waits. A read of EOS closes the read side. */
  function Step(n: Net, a: Act): (r: Net)
    requires Formed(n)
    ensures Formed(r)
  {
    match a
    case Send(i, m) => if n.ends[i].closedWr then n else Write(n, i, m)
    case CloseWr(i) => Close(n, i, true, false)
    case Read(i) =>
      var w := n.wires[1 - i];
      if n.ends[i].closedRd || w == [] then n
      else
        var e := n.ends[i];
        var n1 := Net(n.ends[i := e.(taken := e.taken + [w[0]])], n.wires[1 - i := w[1..]]);
        if w[0] == EOS then Close(n1, i, false, true) else n1
    case Quit(i) => if n.ends[i].inTable then SetAsClosed(n, i) else n
  }

  function Run(n: Net, acts: seq<Act>): (r: Net)
    requires Formed(n)
    ensures Formed(r)
    decreases |acts|
  {
    if acts == [] then n else Run(Step(n, acts[0]), acts[1..])
  }

  /** A direction: messages only, then EOS exactly when its writer has closed, and nothing after it. */
  ghost predicate Stream(sent: seq<Frame>, closedWr: bool) {
    && (closedWr ==> sent != [] && sent[|sent| - 1] == EOS)
    && forall k :: 0 <= k < |sent| - (if closedWr then 1 else 0) ==> sent[k] != EOS
  }

  ghost predicate EndInv(n: Net, i: Side)
    requires Formed(n)
  {
    var e, p := n.ends[i], n.ends[1 - i];
    && Stream(e.sent, e.closedWr)
    && e.taken + n.wires[1 - i] == p.sent
    && (e.closedRd <==> EOS in e.taken)
    && e.inTable == !e.closedRd
    && e.fdOpen == !(e.closedRd && e.closedWr)
    && e.closes == (if e.fdOpen then 0 else 1)
  }

  ghost predicate Inv(n: Net) { Formed(n) && EndInv(n, 0) && EndInv(n, 1) }

  predicate NoEmptySend(acts: seq<Act>) {
    forall k :: 0 <= k < |acts| ==> acts[k].Send? ==> acts[k].m != EOS
  }

  lemma SendKeepsInv(n: Net, i: Side, m: Frame)
    requires Inv(n) && m != EOS
    ensures Inv(Step(n, Send(i, m)))
  {
    var e := n.ends[i];
    assert n.ends[1 - i].taken + (n.wires[i] + [m]) == e.sent + [m];
  }

  lemma CloseWrKeepsInv(n: Net, i: Side)
    requires Inv(n)
    ensures Inv(Step(n, CloseWr(i)))
  {
    var e, p := n.ends[i], n.ends[1 - i];
    var r := Step(n, CloseWr(i));
    if !e.closedWr {
      assert p.taken + (n.wires[i] + [EOS]) == e.sent + [EOS];
      assert r.ends[i].sent == e.sent + [EOS] && r.ends[1 - i] == p;
      assert Stream(e.sent + [EOS], true);
      assert EndInv(r, i) && EndInv(r, 1 - i);
    }
  }

  lemma ReadKeepsInv(n: Net, i: Side)
    requires Inv(n)
    ensures Inv(Step(n, Read(i)))
  {
    var e, w := n.ends[i], n.wires[1 - i];
    if !e.closedRd && w != [] {
      var taken := e.taken + [w[0]];
      assert taken + w[1..] == e.taken + w;
      assert EOS in taken <==> EOS in e.taken || w[0] == EOS;
      var r := Step(n, Read(i));
      assert r.ends[i].taken == taken && r.wires[1 - i] == w[1..];
      assert r.ends[i].closedRd == (w[0] == EOS) && r.ends[i].closedWr == e.closedWr;
      assert r.ends[1 - i] == n.ends[1 - i] && r.wires[i] == n.wires[i];
      assert EndInv(r, i);
      assert EndInv(r, 1 - i);
    }
  }

  /** Every Quit comes after the peer's EOS has been read. */
  predicate Waits(n: Net, acts: seq<Act>)
    requires Formed(n)
    decreases |acts|
  {
    acts != [] ==>
      (acts[0].Quit? ==> n.ends[acts[0].i].closedRd) && Waits(Step(n, acts[0]), acts[1..])
  }

  lemma StepKeepsInv(n: Net, a: Act)
    requires Inv(n) && (a.Send? ==> a.m != EOS) && (a.Quit? ==> n.ends[a.i].closedRd)
    ensures Inv(Step(n, a))
  {
    match a
    case Send(i, m) => SendKeepsInv(n, i, m);
    case CloseWr(i) => CloseWrKeepsInv(n, i);
    case Read(i) => ReadKeepsInv(n, i);
    case Quit(_) =>
  }

  lemma {:induction false} RunKeepsInv(n: Net, acts: seq<Act>)
    requires Inv(n) && NoEmptySend(acts) && Waits(n, acts)
    ensures Inv(Run(n, acts))
    decreases |acts|
  {
    if acts != [] {
      StepKeepsInv(n, acts[0]);
      RunKeepsInv(Step(n, acts[0]), acts[1..]);
    }
  }

  /** At most one EOS has gone out, and nothing after it; the descriptor has been closed at most once, exactly when
      this end has sent EOS and read the peer's; and by then it has read every frame its peer has written. */
  ghost predicate Safe(n: Net, i: Side)
    requires Formed(n)
  {
    var e, p := n.ends[i], n.ends[1 - i];
    && (e.sent != [] ==> EOS !in e.sent[..|e.sent| - 1])
    && e.closes <= 1 && (e.closes == 1 <==> e.closedWr && EOS in e.taken)
    && (e.closes == 1 ==> e.taken == p.sent)
  }

  /** The descriptor has gone before the peer's EOS was read. */
  ghost predicate CutOff(n: Net, i: Side)
    requires Formed(n)
  {
    var e := n.ends[i];
    e.closedRd && e.closedWr && !e.inTable && !e.fdOpen && e.closes == 1 && EOS !in e.taken
  }

  lemma QuitCutsOff(n: Net, i: Side)
    requires Inv(n) && !n.ends[i].closedRd
    ensures CutOff(Step(n, Quit(i)), i)
  {
  }

  lemma {:induction false} CutOffStays(n: Net, acts: seq<Act>, i: Side)
    requires Formed(n) && CutOff(n, i)
    ensures CutOff(Run(n, acts), i)
    decreases |acts|
  {
    if acts != [] { CutOffStays(Step(n, acts[0]), acts[1..], i); }
  }

  /** A run that does not wait cuts an end off. */
  lemma {:induction false} HastyRunCutsOff(n: Net, acts: seq<Act>) returns (i: Side)
    requires Inv(n) && NoEmptySend(acts) && !Waits(n, acts)
    ensures CutOff(Run(n, acts), i)
    decreases |acts|
  {
    if acts[0].Quit? && !n.ends[acts[0].i].closedRd {
      i := acts[0].i;
      QuitCutsOff(n, i);
      CutOffStays(Step(n, acts[0]), acts[1..], i);
    } else {
      StepKeepsInv(n, acts[0]);
      i := HastyRunCutsOff(Step(n, acts[0]), acts[1..]);
    }
  }

  /** A run without empty payloads is safe at both ends if and only if no end quits before it has read its peer's EOS;
      and then a peer whose frames have all been read when the descriptor went will never write again. */
  lemma HalfCloseIsSafe(acts: seq<Act>, more: seq<Act>)
    requires NoEmptySend(acts)
    ensures Safe(Run(Start, acts), 0) && Safe(Run(Start, acts), 1) <==> Waits(Start, acts)
    ensures Waits(Start, acts) ==> forall i: Side :: Run(Start, acts).ends[i].closes == 1 ==>
              Run(Run(Start, acts), more).ends[1 - i].sent == Run(Start, acts).ends[1 - i].sent
  {
    var n := Run(Start, acts);
    if Waits(Start, acts) {
      RunKeepsInv(Start, acts);
      forall i: Side ensures Safe(n, i) { if n.ends[i].closes == 1 { TakenAll(n, i); } }
      forall i: Side | n.ends[i].closes == 1 ensures Run(n, more).ends[1 - i].sent == n.ends[1 - i].sent {
        TakenAll(n, i);
        FrozenAfterClose(n, more, 1 - i);
      }
    } else {
      var i := HastyRunCutsOff(Start, acts);
      assert !Safe(n, i);
    }
  }

  /** The shortest unsafe run: a message arrives, and the receiver quits without reading it. */
  lemma QuitLosesMessage(m: Frame)
    requires m != EOS
    ensures var n := Run(Start, [Send(0, m), Quit(1)]);
            n.ends[1].closes == 1 && n.wires[0] == [m] && !n.ends[0].closedWr
  {
    var acts := [Send(0, m), Quit(1)];
    assert acts[1..] == [Quit(1)] && acts[1..][1..] == [];
    assert Run(Start, acts) == Run(Step(Start, Send(0, m)), [Quit(1)]) == Step(Step(Start, Send(0, m)), Quit(1));
  }

  // Which quits lose a message ------------------------------------------------------------

  predicate HoldsPayload(w: seq<Frame>) { exists k :: 0 <= k < |w| && w[k] != EOS }

  /** A message that end i will never read. */
  predicate Lost(n: Net, i: Side)
    requires Formed(n)
  {
    n.ends[i].closedRd && HoldsPayload(n.wires[1 - i])
  }

  /** End j still sends a message. */
  predicate SendsMore(n: Net, acts: seq<Act>, j: Side)
    requires Formed(n)
    decreases |acts|
  {
    acts != [] && ((acts[0].Send? && acts[0].i == j && acts[0].m != EOS && !n.ends[j].closedWr)
                   || SendsMore(Step(n, acts[0]), acts[1..], j))
  }

  /** End i quits, reading, while its peer has a message on the wire or still to send. */
  predicate QuitsTooSoon(n: Net, acts: seq<Act>, i: Side)
    requires Formed(n)
    decreases |acts|
  {
    acts != [] && !n.ends[i].closedRd
    && if acts[0] == Quit(i) then HoldsPayload(n.wires[1 - i]) || SendsMore(Step(n, acts[0]), acts[1..], 1 - i)
       else QuitsTooSoon(Step(n, acts[0]), acts[1..], i)
  }

  /** What holds of one direction whoever quits. */
  ghost predicate Towards(n: Net, i: Side)
    requires Formed(n)
  {
    var e, p := n.ends[i], n.ends[1 - i];
    && Stream(p.sent, p.closedWr) && e.taken + n.wires[1 - i] == p.sent
    && (EOS in e.taken ==> e.closedRd) && e.inTable == !e.closedRd && e.fdOpen == !(e.closedRd && e.closedWr)
  }

  predicate NotEmpty(a: Act) { a.Send? ==> a.m != EOS }

  /** What an act of end j puts on its wire. */
  function Written(n: Net, a: Act, j: Side): seq<Frame>
    requires Formed(n)
  {
    if n.ends[j].closedWr || a.i != j then []
    else if a.Send? then [a.m]
    else if a.CloseWr? || (a.Quit? && n.ends[j].inTable) then [EOS]
    else []
  }

  lemma PeerWrites(n: Net, a: Act, i: Side)
    requires Formed(n) && a.i == 1 - i
    ensures var r, w := Step(n, a), Written(n, a, 1 - i);
            && r.ends[i] == n.ends[i] && r.wires[1 - i] == n.wires[1 - i] + w
            && r.ends[1 - i].sent == n.ends[1 - i].sent + w
            && r.ends[1 - i].closedWr == (n.ends[1 - i].closedWr || (w == [EOS] && !a.Send?))
  {
  }

  lemma PeerActs(n: Net, a: Act, i: Side)
    requires Formed(n) && Towards(n, i) && NotEmpty(a) && a.i == 1 - i
    ensures var r := Step(n, a);
            && Towards(r, i) && r.ends[i].closedRd == n.ends[i].closedRd
            && (HoldsPayload(r.wires[1 - i]) <==>
                  HoldsPayload(n.wires[1 - i]) || (a.Send? && !n.ends[1 - i].closedWr))
  {
    var w := Written(n, a, 1 - i);
    PeerWrites(n, a, i);
    HoldsMore(n.wires[1 - i], w);
    if w != [] { assert w[0] == if a.Send? then a.m else EOS; }
    assert n.ends[i].taken + (n.wires[1 - i] + w) == (n.ends[i].taken + n.wires[1 - i]) + w;
  }

  lemma HoldsMore(w: seq<Frame>, more: seq<Frame>)
    ensures HoldsPayload(w + more) <==> HoldsPayload(w) || HoldsPayload(more)
  {
    if k :| 0 <= k < |w| && w[k] != EOS { assert (w + more)[k] != EOS; }
    if k :| 0 <= k < |more| && more[k] != EOS { assert (w + more)[|w| + k] != EOS; }
  }

  lemma OwnActs(n: Net, a: Act, i: Side)
    requires Formed(n) && Towards(n, i) && a.i == i
    ensures var r := Step(n, a);
            && Towards(r, i) && r.ends[1 - i] == n.ends[1 - i]
            && (n.ends[i].closedRd ==> r.ends[i].closedRd && r.wires[1 - i] == n.wires[1 - i])
            && (!n.ends[i].closedRd && a.Quit? ==> r.ends[i].closedRd && r.wires[1 - i] == n.wires[1 - i])
            && (!n.ends[i].closedRd && !a.Quit? && r.ends[i].closedRd ==>
                  n.ends[1 - i].closedWr && r.wires[1 - i] == [])
  {
    if a.Read? { OwnRead(n, i); }
  }

  lemma OwnRead(n: Net, i: Side)
    requires Formed(n) && Towards(n, i)
    ensures var r := Step(n, Read(i));
            && Towards(r, i) && (!n.ends[i].closedRd && r.ends[i].closedRd ==>
                                   n.ends[1 - i].closedWr && r.wires[1 - i] == [])
  {
    var e, w, p := n.ends[i], n.wires[1 - i], n.ends[1 - i];
    if !e.closedRd && w != [] {
      assert (e.taken + [w[0]]) + w[1..] == e.taken + w;
      assert p.sent[|e.taken|] == w[0];
      assert EOS in e.taken + [w[0]] <==> EOS in e.taken || w[0] == EOS;
      if w[0] == EOS { assert |e.taken| == |p.sent| - 1; }
    }
  }

  /** A read side that is closed: all that is on the wire, and all that the peer still sends, is lost. */
  lemma {:induction false} LostOnceClosed(n: Net, acts: seq<Act>, i: Side)
    requires Formed(n) && Towards(n, i) && NoEmptySend(acts) && n.ends[i].closedRd
    ensures Lost(Run(n, acts), i) <==> HoldsPayload(n.wires[1 - i]) || SendsMore(n, acts, 1 - i)
    decreases |acts|
  {
    if acts != [] {
      if acts[0].i == i { OwnActs(n, acts[0], i); } else { PeerActs(n, acts[0], i); }
      LostOnceClosed(Step(n, acts[0]), acts[1..], i);
    }
  }

  lemma {:induction false} SilentOnceClosed(n: Net, acts: seq<Act>, j: Side)
    requires Formed(n) && n.ends[j].closedWr
    ensures !SendsMore(n, acts, j)
    decreases |acts|
  {
    if acts != [] { SilentOnceClosed(Step(n, acts[0]), acts[1..], j); }
  }

  lemma {:induction false} LostFrom(n: Net, acts: seq<Act>, i: Side)
    requires Formed(n) && Towards(n, i) && NoEmptySend(acts) && !n.ends[i].closedRd
    ensures Lost(Run(n, acts), i) <==> QuitsTooSoon(n, acts, i)
    decreases |acts|
  {
    if acts != [] {
      var r := Step(n, acts[0]);
      if acts[0].i == i { OwnActs(n, acts[0], i); } else { PeerActs(n, acts[0], i); }
      if !r.ends[i].closedRd {
        LostFrom(r, acts[1..], i);
      } else {
        LostOnceClosed(r, acts[1..], i);
        if acts[0] != Quit(i) { SilentOnceClosed(r, acts[1..], 1 - i); }
      }
    }
  }

  /** In a run without empty payloads an end loses a message if and only if it quits, still reading, while its peer has
      one on the wire or still to send: a quit costs nothing when only EOS, or nothing at all, is to come. */
  lemma QuitLosesIffMessageToCome(acts: seq<Act>, i: Side)
    requires NoEmptySend(acts)
    ensures Lost(Run(Start, acts), i) <==> QuitsTooSoon(Start, acts, i)
  {
    LostFrom(Start, acts, i);
  }

  /** Once the peer's EOS has been read, everything it ever wrote has been. */
  lemma TakenAll(n: Net, i: Side)
    requires Inv(n) && n.ends[i].closedRd
    ensures n.ends[i].taken == n.ends[1 - i].sent && n.ends[1 - i].closedWr
  {
    var e, p := n.ends[i], n.ends[1 - i];
    var k :| 0 <= k < |e.taken| && e.taken[k] == EOS;
    assert p.sent[k] == EOS;
    assert k == |p.sent| - 1;
  }

  lemma {:induction false} FrozenAfterClose(n: Net, acts: seq<Act>, i: Side)
    requires Formed(n) && n.ends[i].closedWr
    ensures Run(n, acts).ends[i].sent == n.ends[i].sent
    decreases |acts|
  {
    if acts != [] { FrozenAfterClose(Step(n, acts[0]), acts[1..], i); }
  }

  /** The guard a caller needs: a send that goes out keeps the protocol's invariant exactly when its payload is not
      empty. */
  lemma SendSafeIffNotEmpty(n: Net, i: Side, m: Frame)
    requires Inv(n) && !n.ends[i].closedWr
    ensures Inv(Step(n, Send(i, m))) <==> m != EOS
  {
    if m != EOS {
      SendKeepsInv(n, i, m);
    } else {
      var sent := n.ends[i].sent;
      assert (sent + [m])[|sent|] == EOS;
    }
  }

  /** What goes wrong otherwise: after an empty send the peer can close its descriptor with a message still unread. */
  lemma EmptySendLosesMessage(m: Frame)
    requires m != EOS
    ensures var n := Run(Start, [Send(0, EOS), Send(0, m), CloseWr(1), Read(1)]);
            n.ends[1].closes == 1 && n.wires[0] == [m] && !n.ends[0].closedWr
  {
    var n1 := Step(Start, Send(0, EOS));
    var n2 := Step(n1, Send(0, m));
    var n3 := Step(n2, CloseWr(1));
    var acts := [Send(0, EOS), Send(0, m), CloseWr(1), Read(1)];
    assert n2.wires[0] == [EOS, m];
    assert acts[1..][1..][1..][1..] == [];
    assert Run(Start, acts) == Run(n1, acts[1..]) == Run(n2, acts[1..][1..]) == Run(n3, acts[1..][1..][1..]);
    assert acts[1..][1..][1..][0] == Read(1);
    assert Run(n3, acts[1..][1..][1..]) == Step(n3, Read(1));
  }

  /** k reads in a row by end i. */
  function Reads(i: Side, k: nat): seq<Act> { seq(k, _ => Read(i)) }

  lemma ReadShortens(n: Net, i: Side)
    requires Inv(n) && n.ends[1 - i].closedWr
    ensures var r := Step(n, Read(i));
            && Inv(r) && r.ends[1 - i] == n.ends[1 - i] && r.wires[i] == n.wires[i]
            && r.ends[i].closedWr == n.ends[i].closedWr
            && (n.ends[i].closedRd ==> r == n)
            && (!n.ends[i].closedRd ==> n.wires[1 - i] != [] && |r.wires[1 - i]| == |n.wires[1 - i]| - 1)
  {
    ReadKeepsInv(n, i);
    var e, p := n.ends[i], n.ends[1 - i];
    assert (e.taken + n.wires[1 - i])[|p.sent| - 1] == EOS;
  }

  lemma {:induction false} ReadsDrain(n: Net, i: Side, k: nat)
    requires Inv(n) && n.ends[1 - i].closedWr && k >= |n.wires[1 - i]|
    ensures var r := Run(n, Reads(i, k));
            && Inv(r) && r.ends[i].closedRd
            && r.ends[i].closedWr == n.ends[i].closedWr
            && r.ends[1 - i] == n.ends[1 - i] && r.wires[i] == n.wires[i]
    decreases k
  {
    ReadShortens(n, i);
    if n.ends[i].closedRd { TakenAll(n, i); }
    if k > 0 {
      assert Reads(i, k)[1..] == Reads(i, k - 1);
      ReadsDrain(Step(n, Read(i)), i, k - 1);
    }
  }

  lemma {:induction false} RunAppend(n: Net, a: seq<Act>, b: seq<Act>)
    requires Formed(n)
    ensures Run(n, a + b) == Run(Run(n, a), b)
    decreases |a|
  {
    if a == [] {
      assert a + b == b;
    } else {
      assert (a + b)[1..] == a[1..] + b;
      RunAppend(Step(n, a[0]), a[1..], b);
    }
  }

  lemma HandshakeFrom(n: Net, j: nat, k: nat)
    requires Inv(n) && n.ends[0].closedWr && n.ends[1].closedWr
    requires j >= |n.wires[1]| && k >= |n.wires[0]|
    ensures BothDone(Run(Run(n, Reads(0, j)), Reads(1, k)))
  {
    ReadsDrain(n, 0, j);
    var n2 := Run(n, Reads(0, j));
    ReadsDrain(n2, 1, k);
    var n3 := Run(n2, Reads(1, k));
    TakenAll(n3, 0);
    TakenAll(n3, 1);
  }

  /** Both descriptors closed, once each, with everything the other side wrote read. */
  predicate BothDone(n: Net)
    requires Formed(n)
  {
    n.ends[0].closes == 1 && n.ends[0].taken == n.ends[1].sent
    && n.ends[1].closes == 1 && n.ends[1].taken == n.ends[0].sent
  }

  const BOTH_CLOSE := [CloseWr(0), CloseWr(1)]

  lemma BothClose(n: Net)
    requires Formed(n)
    ensures var r := Run(n, BOTH_CLOSE); r.ends[0].closedWr && r.ends[1].closedWr && (Inv(n) ==> Inv(r))
  {
    assert BOTH_CLOSE[1..] == [CloseWr(1)] && BOTH_CLOSE[1..][1..] == [];
    assert Run(n, BOTH_CLOSE) == Run(Step(n, CloseWr(0)), BOTH_CLOSE[1..]) == Step(Step(n, CloseWr(0)), CloseWr(1));
    if Inv(n) {
      CloseWrKeepsInv(n, 0);
      CloseWrKeepsInv(Step(n, CloseWr(0)), 1);
    }
  }

  /** An end that has closed its write side has sent EOS, quit or not. */
  ghost predicate SaidEos(n: Net)
    requires Formed(n)
  {
    forall i: Side :: n.ends[i].closedWr ==> EOS in n.ends[i].sent
  }

  lemma {:induction false} ClosingSaysEos(n: Net, acts: seq<Act>)
    requires Formed(n) && SaidEos(n)
    ensures SaidEos(Run(n, acts))
    decreases |acts|
  {
    if acts != [] { ClosingSaysEos(Step(n, acts[0]), acts[1..]); }
  }

  lemma {:induction false} ClosedStays(n: Net, acts: seq<Act>, i: Side)
    requires Formed(n) && n.ends[i].closedWr
    ensures Run(n, acts).ends[i].closedWr
    decreases |acts|
  {
    if acts != [] { ClosedStays(Step(n, acts[0]), acts[1..], i); }
  }

  /** The handshake completes, with both descriptors closed once each and every frame read, exactly from the states
      of runs that wait: both ends close and read what is left. */
  lemma HandshakeCompletes(acts: seq<Act>, j: nat, k: nat)
    requires NoEmptySend(acts)
    requires var n := Run(Start, acts + BOTH_CLOSE); j >= |n.wires[1]| && k >= |n.wires[0]|
    ensures BothDone(Run(Start, acts + BOTH_CLOSE + Reads(0, j) + Reads(1, k))) <==> Waits(Start, acts)
  {
    var n := Run(Start, acts);
    var rest := Reads(0, j) + Reads(1, k);
    BothClose(n);
    RunAppend(Start, acts, BOTH_CLOSE);
    RunAppend(Start, acts + BOTH_CLOSE, rest);
    RunAppend(Run(n, BOTH_CLOSE), Reads(0, j), Reads(1, k));
    assert acts + BOTH_CLOSE + Reads(0, j) + Reads(1, k) == acts + BOTH_CLOSE + rest;
    if Waits(Start, acts) {
      RunKeepsInv(Start, acts);
      HandshakeFrom(Run(n, BOTH_CLOSE), j, k);
    } else {
      var i := HastyRunCutsOff(Start, acts);
      ClosingSaysEos(Start, acts);
      NeverDone(n, rest, i);
    }
  }

  lemma NeverDone(n: Net, rest: seq<Act>, i: Side)
    requires Formed(n) && CutOff(n, i) && SaidEos(n)
    ensures !BothDone(Run(Run(n, BOTH_CLOSE), rest))
  {
    CutOffStays(n, BOTH_CLOSE, i);
    var n1 := Run(n, BOTH_CLOSE);
    CutOffStays(n1, rest, i);
    BothClose(n);
    ClosedStays(n1, rest, 1 - i);
    ClosingSaysEos(n, BOTH_CLOSE);
    ClosingSaysEos(n1, rest);
  }
}
