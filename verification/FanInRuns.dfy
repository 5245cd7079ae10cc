/** Whole runs of a fan-in root: any sequence of probes and receives through the user's wrapper, under any
    timing of the senders. */
module FanInRuns {
  import opened Bytes
  import opened Wrappers
  import opened FanIn
  import opened FanInProbes

  const EOS: seq<byte> := []

  /** The collective, the wrapper's cached header, and a log of what receive has handed over, with its sender.
      closed: the participants whose handles the root has closed, in order. hung: a blocking probe was made that never
      returns. */
  datatype Group = Group(
    parts: seq<nat>, links: Links, idx: int, log: seq<(nat, seq<byte>)>,
    cached: Option<nat>, readable: bool, closed: seq<nat>, hung: bool)

  function Begin(g: Group): Scan { Scan(g.parts, g.links, 0, -1, 0, g.idx, g.closed, false) }

  /** HandleUser::probe over FanInGeneric::probe. With no participant left the group's EOS is reported. */
  ghost function Probe(g: Group, blocking: bool): Group
    requires Formed(g.parts, g.links)
  {
    if g.hung || g.cached.Some? || !g.readable then g
    else if blocking && !Live(g.parts, g.links) then g.(hung := true)
    else
      var s := Loop(Begin(g), blocking);
      var g1 := g.(parts := s.parts, links := s.links, idx := s.idx, closed := s.closed);
      if s.parts == [] then g1.(cached := Some(0), readable := false)
      else if s.res == -1 then g1
      else if s.res == 0 then g1.(readable := false)
      else g1.(cached := Some(s.size))
  }

  /** FanInGeneric::receive from the participant that was probed. */
  function Take(g: Group): Group
    requires 0 <= g.idx < |g.parts| && g.parts[g.idx] in g.links && g.links[g.parts[g.idx]].future != []
  {
    var id := g.parts[g.idx];
    var l := g.links[id];
    g.(links := g.links[id := l.(future := l.future[1..])], log := g.log + [(id, l.future[0].msg)],
         idx := -1, cached := None)
  }

  ghost predicate CachedOk(g: Group) {
    && (g.cached.Some? && g.cached.value == 0 ==> g.parts == [] && !g.readable)
    && (g.cached.Some? && g.cached.value > 0 ==>
          g.readable && 0 <= g.idx < |g.parts| && g.parts[g.idx] in g.links
          && var f := g.links[g.parts[g.idx]].future; f != [] && f[0].lag == 0 && |f[0].msg| == g.cached.value)
  }

  /** HandleUser::receive with a buffer of cap bytes. */
  ghost function Receive(g: Group, cap: nat): Group
    requires Formed(g.parts, g.links) && CachedOk(g)
  {
    if g.hung then g
    else
      var g1 := Probe(g, true);
      if g1.cached.None? || g1.cached.value == 0 || g1.cached.value > cap then g1
      else
        ProbeCached(g, true);
        Take(g1)
  }

  lemma ProbeCached(g: Group, blocking: bool)
    requires Formed(g.parts, g.links) && CachedOk(g)
    ensures CachedOk(Probe(g, blocking)) && Formed(Probe(g, blocking).parts, Probe(g, blocking).links)
    ensures Probe(g, blocking).log == g.log
    ensures SameTraffic(g.links, Probe(g, blocking).links)
    ensures forall p <- g.parts :: p in Probe(g, blocking).parts || HeadIsEos(g.links, p)
    ensures forall p <- Probe(g, blocking).parts :: p in g.parts
    ensures ClosesDropped(Begin(g), Begin(Probe(g, blocking)))
  {
    if !(g.hung || g.cached.Some? || !g.readable) && !(blocking && !Live(g.parts, g.links)) {
      PassesFaithful(Begin(g), blocking, Steps(Begin(g), blocking));
      PassesClose(Begin(g), blocking, Steps(Begin(g), blocking));
    }
  }

  /** A blocking probe hangs exactly when the loop never ends. */
  lemma HangsIffNeverEnds(g: Group)
    requires Formed(g.parts, g.links) && !g.hung && g.cached.None? && g.readable
    ensures Probe(g, true).hung <==> forall n: nat :: !EndsWithin(Begin(g), n)
    ensures !Probe(g, false).hung
  {
    if g.parts == [] {
      assert EndsWithin(Begin(g), 0);
    } else {
      EndsIffLive(Begin(g));
    }
  }

  /** A probe that does look, and returns, answers with a header, with the group's EOS once no participant is left, with
      the end of the stream - and then the wrapper may not read any more - only if some sender's has broken off, or, if
      it does not wait, not at all. */
  lemma ProbeAnswers(g: Group, blocking: bool)
    requires Formed(g.parts, g.links) && !g.hung && g.cached.None? && g.readable
    ensures var r := Probe(g, blocking);
      && (r.cached == Some(0) ==> r.parts == [] && !r.readable)
      && (r.parts == [] ==> r.cached == Some(0))
      && (r.cached.Some? && r.cached.value > 0 ==> r.readable)
      && (r.cached.None? && !r.readable ==> exists p <- g.parts :: p in g.links && g.links[p].gone)
      && (blocking && !r.hung ==> r.cached.Some? || !r.readable)
  {
    if !blocking || Live(g.parts, g.links) { PassesFaithful(Begin(g), blocking, Steps(Begin(g), blocking)); }
  }

  /** After the end every call leaves all as it is. */
  lemma EndIsFinal(g: Group, op: Op)
    requires Formed(g.parts, g.links) && CachedOk(g) && !g.readable && (g.cached.Some? ==> g.cached.value == 0)
    ensures Step(g, op) == g
  {
  }

  // The invariant --------------------------------------------------------------------------

  /** The payloads of one sender, in the order they were handed over. */
  function Project(log: seq<(nat, seq<byte>)>, id: nat): seq<seq<byte>>
  {
    if log == [] then []
    else Project(log[..|log| - 1], id) + if log[|log| - 1].0 == id then [log[|log| - 1].1] else []
  }

  /** EOS is last when it is there. */
  ghost predicate Stream(ms: seq<seq<byte>>) { forall k :: 0 <= k < |ms| - 1 ==> ms[k] != EOS }

  /** sent: for every sender, all it ever puts on its link. */
  ghost predicate Conserves(g: Group, sent: map<nat, seq<seq<byte>>>, id: nat)
    requires id in g.links && id in sent
  {
    && Stream(sent[id])
    && Project(g.log, id) + Msgs(g.links[id].future) == sent[id]
    && (id !in g.parts ==> HeadIsEos(g.links, id))
    && (id in g.closed <==> id !in g.parts)
  }

  ghost predicate Inv(g: Group, sent: map<nat, seq<seq<byte>>>) {
    && Formed(g.parts, g.links) && CachedOk(g)
    && g.links.Keys == sent.Keys
    && (forall e <- g.log :: e.0 in sent)
    && Distinct(g.closed)
    && (forall id <- sent :: Conserves(g, sent, id))
  }

  lemma ProbeKeepsInv(g: Group, sent: map<nat, seq<seq<byte>>>, blocking: bool)
    requires Inv(g, sent)
    ensures Inv(Probe(g, blocking), sent)
  {
    ProbeCached(g, blocking);
    var r := Probe(g, blocking);
    ClosedLater(g, r, sent);
    forall id | id in sent ensures Conserves(r, sent, id) {
      assert Conserves(g, sent, id);
      SameHeads(g.links, r.links, id);
    }
  }

  lemma ClosedLater(g: Group, r: Group, sent: map<nat, seq<seq<byte>>>)
    requires Inv(g, sent) && ClosesDropped(Begin(g), Begin(r)) && forall p <- r.parts :: p in g.parts
    ensures Distinct(r.closed) && forall id <- sent :: id in r.closed <==> id !in r.parts
  {
    var now := r.closed[|g.closed|..];
    assert r.closed == g.closed + now;
    assert forall p <- g.parts :: p in g.links;
    forall id | id in sent ensures id in r.closed <==> id !in r.parts { assert Conserves(g, sent, id); }
    forall p | p in now ensures p !in g.closed {
      assert p in g.parts && p in sent && Conserves(g, sent, p);
    }
    DistinctTogether(g.closed, now);
  }

  lemma ProjectMore(log: seq<(nat, seq<byte>)>, who: nat, m: seq<byte>, id: nat)
    ensures Project(log + [(who, m)], id) == Project(log, id) + if who == id then [m] else []
  {
    assert (log + [(who, m)])[..|log|] == log;
  }

  lemma MoveOne(got: seq<seq<byte>>, f: seq<Arrival>)
    requires f != []
    ensures (got + [f[0].msg]) + Msgs(f[1..]) == got + Msgs(f)
  {
  }

  lemma TakeConserves(g: Group, sent: map<nat, seq<seq<byte>>>, id: nat)
    requires CachedOk(g) && g.cached.Some? && g.cached.value > 0
    requires id in g.links && id in sent && Conserves(g, sent, id)
    ensures Conserves(Take(g), sent, id)
  {
    var who := g.parts[g.idx];
    var f := g.links[who].future;
    ProjectMore(g.log, who, f[0].msg, id);
    if id == who {
      assert who in g.parts;
      MoveOne(Project(g.log, id), f);
    } else {
      assert Take(g).links[id] == g.links[id];
      assert Project(g.log, id) + [] == Project(g.log, id);
    }
  }

  lemma TakeKeepsInv(g: Group, sent: map<nat, seq<seq<byte>>>)
    requires Inv(g, sent) && g.cached.Some? && g.cached.value > 0
    ensures Inv(Take(g), sent)
  {
    assert g.parts[g.idx] in g.parts;
    forall id | id in sent ensures Conserves(Take(g), sent, id) {
      assert Conserves(g, sent, id);
      TakeConserves(g, sent, id);
    }
  }

  datatype Op = OpProbe(blocking: bool) | OpReceive(cap: nat)

  ghost function Step(g: Group, op: Op): Group
    requires Formed(g.parts, g.links) && CachedOk(g)
  {
    match op
    case OpProbe(b) => Probe(g, b)
    case OpReceive(cap) => Receive(g, cap)
  }

  lemma StepKeepsInv(g: Group, sent: map<nat, seq<seq<byte>>>, op: Op)
    requires Inv(g, sent)
    ensures Inv(Step(g, op), sent)
  {
    match op
    case OpProbe(b) => ProbeKeepsInv(g, sent, b);
    case OpReceive(cap) =>
      if !g.hung {
        ProbeKeepsInv(g, sent, true);
        var g1 := Probe(g, true);
        if g1.cached.Some? && 0 < g1.cached.value <= cap { TakeKeepsInv(g1, sent); }
      }
  }

  ghost predicate Valid(g: Group) { exists sent :: Inv(g, sent) }

  ghost function Run(g: Group, ops: seq<Op>): (r: Group)
    requires Valid(g)
    ensures forall sent :: Inv(g, sent) ==> Inv(r, sent)
    decreases |ops|
  {
    if ops == [] then g
    else
      assert forall sent :: Inv(g, sent) ==> Inv(Step(g, ops[0]), sent) by {
        forall sent | Inv(g, sent) ensures Inv(Step(g, ops[0]), sent) { StepKeepsInv(g, sent, ops[0]); }
      }
      Run(Step(g, ops[0]), ops[1..])
  }

  /** A new team: every link has its participant, and each sender's traffic ends with its EOS if it has one. */
  ghost predicate Fresh(g: Group) {
    && Formed(g.parts, g.links) && (forall id <- g.links :: id in g.parts)
    && g.idx == -1 && g.log == [] && g.cached == None && g.readable && g.closed == [] && !g.hung
    && forall id <- g.links :: Stream(Msgs(g.links[id].future))
  }

  ghost function Sent(links: Links): map<nat, seq<seq<byte>>> { map id | id in links :: Msgs(links[id].future) }

  lemma FreshInv(g: Group)
    requires Fresh(g)
    ensures Inv(g, Sent(g.links))
  {
    forall id | id in Sent(g.links) ensures Conserves(g, Sent(g.links), id) {
      assert Project(g.log, id) == [];
    }
  }

  /** In every run the root's stream is an interleaving of the senders' streams: what it has received from a
      sender is always a prefix of what that sender put on its link. The group's EOS is reported only when every
      sender's messages have all been received and its EOS has arrived. */
  lemma EveryRunInterleaves(g: Group, ops: seq<Op>, id: nat)
    requires Fresh(g) && id in g.links
    ensures Valid(g)
    ensures var r := Run(g, ops); var sent := Msgs(g.links[id].future);
            && Project(r.log, id) <= sent
            && (forall e <- r.log :: e.0 in g.links)
            && (r.cached == Some(0) ==> sent == Project(r.log, id) + [EOS])
  {
    FreshInv(g);
    var sent := Sent(g.links);
    assert Inv(g, sent);
    var r := Run(g, ops);
    assert Inv(r, sent);
    assert Conserves(r, sent, id);
    if r.cached == Some(0) { AllTakenAtEos(r, sent, id); }
  }

  /** In every run the root closes the handle of each sender at most once, exactly when it drops it, and not before it
      has received everything from it and its EOS has arrived; and at the group's EOS it has closed them all. */
  lemma ClosedOnceAtEos(g: Group, ops: seq<Op>, id: nat)
    requires Fresh(g) && id in g.links
    ensures Valid(g)
    ensures var r := Run(g, ops);
            && Distinct(r.closed) && (id in r.closed <==> id !in r.parts)
            && (id in r.closed ==> Msgs(g.links[id].future) == Project(r.log, id) + [EOS])
            && (r.cached == Some(0) ==> id in r.closed)
  {
    FreshInv(g);
    var sent := Sent(g.links);
    assert Inv(g, sent);
    var r := Run(g, ops);
    assert Inv(r, sent) && Conserves(r, sent, id);
    if id in r.closed { TakenWhenDropped(r, sent, id); }
  }

  lemma TakenWhenDropped(r: Group, sent: map<nat, seq<seq<byte>>>, id: nat)
    requires Inv(r, sent) && id in sent && id !in r.parts
    ensures sent[id] == Project(r.log, id) + [EOS]
  {
    assert Conserves(r, sent, id);
    var now := Msgs(r.links[id].future);
    assert now[0] == EOS;
    assert sent[id][|Project(r.log, id)|] == EOS;
    assert now == [EOS];
  }

  lemma AllTakenAtEos(r: Group, sent: map<nat, seq<seq<byte>>>, id: nat)
    requires Inv(r, sent) && r.cached == Some(0) && id in sent
    ensures sent[id] == Project(r.log, id) + [EOS]
  {
    TakenWhenDropped(r, sent, id);
  }

  /** A receive after a probe hands over the very message whose size the probe reported: the probed sender's next one.
      */
  lemma ReceiveMatchesProbe(g: Group, sent: map<nat, seq<seq<byte>>>, cap: nat)
    requires Inv(g, sent) && !g.hung && g.cached.Some? && 0 < g.cached.value <= cap
    ensures var r := Receive(g, cap); var id := g.parts[g.idx];
            && id in sent && |Project(g.log, id)| < |sent[id]|
            && r.log == g.log + [(id, sent[id][|Project(g.log, id)|])]
            && |sent[id][|Project(g.log, id)|]| == g.cached.value
  {
    var id := g.parts[g.idx];
    assert id in g.parts;
    assert Conserves(g, sent, id);
    assert Msgs(g.links[id].future)[0] == g.links[id].future[0].msg;
    assert Probe(g, true) == g;
  }

  // Completion --------------------------------------------------------------------------------

  /** Every remaining sender will close. */
  ghost predicate WillClose(g: Group) {
    forall p <- g.parts :: p in g.links && !g.links[p].gone
      && var f := g.links[p].future; f != [] && f[|f| - 1].msg == EOS
  }

  /** Frames still to come on the links of ids. */
  function Left(ids: seq<nat>, links: Links): nat
  {
    if ids == [] then 0
    else (if ids[0] in links then |links[ids[0]].future| else 0) + Left(ids[1..], links)
  }

  lemma {:induction false} LeftSame(ids: seq<nat>, a: Links, b: Links)
    requires forall p <- ids :: p in a && p in b && |a[p].future| == |b[p].future|
    ensures Left(ids, a) == Left(ids, b)
  {
    if ids != [] {
      assert ids[0] in ids;
      LeftSame(ids[1..], a, b);
    }
  }

  lemma {:induction false} LeftStep(ids: seq<nat>, a: Links, id: nat, l: Link)
    requires Formed(ids, a) && id in ids && |l.future| < |a[id].future|
    ensures Left(ids, a[id := l]) < Left(ids, a)
  {
    if ids[0] == id {
      LeftSame(ids[1..], a, a[id := l]);
    } else {
      LeftStep(ids[1..], a, id, l);
    }
  }

  lemma WillCloseIsLive(g: Group)
    requires WillClose(g)
    ensures Live(g.parts, g.links)
  {
    if p :| p in g.parts && !HeadIsEos(g.links, p) { assert Active(g.links, p); }
  }

  function LastMsg(f: seq<Arrival>): seq<byte> { if f == [] then [] else f[|f| - 1].msg }

  /** The lengths of the futures and their last messages survive a probe. */
  lemma ProbeKeepsClosing(g: Group, blocking: bool)
    requires Formed(g.parts, g.links) && CachedOk(g) && WillClose(g)
    ensures WillClose(Probe(g, blocking))
    ensures var r := Probe(g, blocking);
            forall p <- g.links :: p in r.links && |r.links[p].future| == |g.links[p].future|
  {
    ProbeCached(g, blocking);
    var r := Probe(g, blocking);
    forall p | p in g.links
      ensures p in r.links && |r.links[p].future| == |g.links[p].future|
      ensures r.links[p].future != [] ==>
                LastMsg(r.links[p].future) == LastMsg(g.links[p].future)
    {
      var a, b := Msgs(g.links[p].future), Msgs(r.links[p].future);
      assert a == b;
      if b != [] { assert a[|b| - 1] == b[|b| - 1]; }
    }
  }

  ghost function Receives(g: Group, cap: nat, k: nat): Group
    requires Valid(g)
    decreases k
  {
    if k == 0 then g else
      ReceiveValid(g, cap);
      Receives(Receive(g, cap), cap, k - 1)
  }

  lemma ReceiveValid(g: Group, cap: nat)
    requires Valid(g)
    ensures Valid(Receive(g, cap))
  {
    var sent :| Inv(g, sent);
    StepKeepsInv(g, sent, OpReceive(cap));
    assert Inv(Receive(g, cap), sent);
  }

  /** A group of senders that will all close, read with buffers of cap bytes; ids includes its participants. */
  ghost predicate Closing(g: Group, ids: seq<nat>, cap: nat) {
    && Formed(g.parts, g.links) && CachedOk(g) && WillClose(g) && Fits(g, cap) && !g.hung
    && Formed(ids, g.links) && (forall p <- g.parts :: p in ids)
  }

  lemma HeadFits(g: Group, cap: nat)
    requires Fits(g, cap) && CachedOk(g) && g.cached.Some? && g.cached.value > 0
    ensures FitsBuffer(g, cap)
  {
    var id := g.parts[g.idx];
    assert id in g.parts;
    assert Msgs(g.links[id].future)[0] in Msgs(g.links[id].future);
  }

  lemma ClosingCarries(g: Group, r: Group, ids: seq<nat>, cap: nat)
    requires Closing(g, ids, cap) && Formed(r.parts, r.links) && CachedOk(r) && WillClose(r) && !r.hung
    requires SameTraffic(g.links, r.links) && forall p <- r.parts :: p in g.parts
    requires forall p <- g.links :: p in r.links && |r.links[p].future| == |g.links[p].future|
    ensures Closing(r, ids, cap) && Left(ids, r.links) == Left(ids, g.links)
    ensures r.cached.Some? && r.cached.value > 0 ==> FitsBuffer(r, cap)
  {
    LeftSame(ids, g.links, r.links);
    FitsKept(g, r, cap);
    if r.cached.Some? && r.cached.value > 0 { HeadFits(r, cap); }
  }

  lemma ProbeClosing(g: Group, ids: seq<nat>, cap: nat)
    requires Closing(g, ids, cap) && g.readable
    ensures var r := Probe(g, true);
            && Closing(r, ids, cap) && r.cached.Some? && Left(ids, r.links) == Left(ids, g.links)
            && (r.cached.value > 0 ==> r.readable && FitsBuffer(r, cap))
  {
    ProbeCached(g, true);
    ProbeKeepsClosing(g, true);
    ProbeFinds(g);
    ClosingCarries(g, Probe(g, true), ids, cap);
  }

  ghost predicate FitsBuffer(g: Group, cap: nat) { g.cached.Some? && g.cached.value <= cap }

  /** One receive with a large enough buffer takes a message or reports the group's EOS; it never hangs. */
  lemma ReceiveProgress(g: Group, ids: seq<nat>, cap: nat)
    requires Closing(g, ids, cap) && g.readable
    ensures var r := Receive(g, cap);
            Closing(r, ids, cap) && (r.cached == Some(0) || (r.readable && Left(ids, r.links) < Left(ids, g.links)))
  {
    ProbeClosing(g, ids, cap);
    var g1 := Probe(g, true);
    if g1.cached.value > 0 { TakeProgress(g1, ids, cap); }
  }

  lemma TakeProgress(g: Group, ids: seq<nat>, cap: nat)
    requires Closing(g, ids, cap) && g.cached.Some? && g.cached.value > 0
    ensures Closing(Take(g), ids, cap) && Left(ids, Take(g).links) < Left(ids, g.links)
  {
    var id := g.parts[g.idx];
    var f := g.links[id].future;
    assert id in g.parts;
    assert f[0].msg != EOS && f[1..] != [] && f[1..][|f| - 2] == f[|f| - 1];
    LeftStep(ids, g.links, id, g.links[id].(future := f[1..]));
    StillCloses(g, id, f[1..]);
    TailFits(f, cap);
    StillFits(g, id, f[1..], cap);
  }

  lemma StillCloses(g: Group, id: nat, f: seq<Arrival>)
    requires WillClose(g) && id in g.links && f != [] && f[|f| - 1].msg == EOS
    ensures WillClose(g.(links := g.links[id := g.links[id].(future := f)]))
  {
  }

  lemma StillFits(g: Group, id: nat, f: seq<Arrival>, cap: nat)
    requires Fits(g, cap) && id in g.links && forall m <- Msgs(f) :: |m| <= cap
    ensures Fits(g.(links := g.links[id := g.links[id].(future := f)]), cap)
  {
  }

  lemma TailFits(f: seq<Arrival>, cap: nat)
    requires f != [] && forall m <- Msgs(f) :: |m| <= cap
    ensures forall m <- Msgs(f[1..]) :: |m| <= cap
  {
    forall m | m in Msgs(f[1..]) ensures |m| <= cap {
      var k :| 0 <= k < |f[1..]| && Msgs(f[1..])[k] == m;
      assert Msgs(f)[k + 1] == m;
    }
  }

  /** Every message on a participant's link fits the buffer. */
  ghost predicate Fits(g: Group, cap: nat) {
    forall p <- g.parts :: p in g.links && forall m <- Msgs(g.links[p].future) :: |m| <= cap
  }

  lemma FitsKept(g: Group, r: Group, cap: nat)
    requires Fits(g, cap) && SameTraffic(g.links, r.links) && forall p <- r.parts :: p in g.parts
    ensures Fits(r, cap)
  {
  }

  lemma ProbeFinds(g: Group)
    requires Formed(g.parts, g.links) && CachedOk(g) && WillClose(g) && g.readable && !g.hung
    ensures Live(g.parts, g.links) && Probe(g, true).cached.Some? && !Probe(g, true).hung
    ensures Probe(g, true).cached.value > 0 ==> Probe(g, true).readable
  {
    WillCloseIsLive(g);
    if g.cached.None? { PassesFaithful(Begin(g), true, Steps(Begin(g), true)); }
  }

  /** When every sender eventually closes, enough receives report the group's EOS; with EveryRunInterleaves,
      every message has then been received. */
  lemma {:induction false} FanInCompletes(g: Group, ids: seq<nat>, cap: nat, k: nat)
    requires Valid(g) && Closing(g, ids, cap) && (g.readable || g.cached == Some(0))
    requires k > Left(ids, g.links) || g.cached == Some(0)
    ensures Receives(g, cap, k).cached == Some(0)
    decreases k
  {
    if k > 0 {
      ReceiveValid(g, cap);
      if g.cached == Some(0) {
        assert Receive(g, cap) == g;
      } else {
        ReceiveProgress(g, ids, cap);
      }
      FanInCompletes(Receive(g, cap), ids, cap, k - 1);
    }
  }
}
