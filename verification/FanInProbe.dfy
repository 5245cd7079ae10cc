/** A probe of FanInGeneric, whole: when it ends, what it changes and closes, what it has looked at; and the same in
    place. */
module FanInProbes {
  import opened Bytes
  import opened FanIn

  lemma LoopUnfolds(s: Scan, blocking: bool)
    requires InRange(s) && !Done(s) && (blocking ==> Live(s.parts, s.links))
    ensures var r := Pass(s, blocking);
            && (blocking ==> Live(r.parts, r.links))
            && Loop(s, blocking) == Loop(r, blocking) && Steps(r, blocking) < Steps(s, blocking)
  {
    StepsUnfold(s, blocking);
    PassesUnfold(s, blocking, Steps(Pass(s, blocking), blocking));
  }

  lemma StepsUnfold(s: Scan, blocking: bool)
    requires InRange(s) && !Done(s) && (blocking ==> Live(s.parts, s.links))
    ensures blocking ==> Live(Pass(s, blocking).parts, Pass(s, blocking).links)
    ensures Steps(s, blocking) == 1 + Steps(Pass(s, blocking), blocking)
  {
    LoopMeasure(s, blocking);
  }

  ghost predicate EndsWithin(s: Scan, n: nat)
    requires InRange(s)
  {
    Done(Passes(s, true, n))
  }

  /** The blocking loop ends exactly when a participant will deliver or break, or all will say EOS. */
  lemma EndsIffLive(s: Scan)
    requires InRange(s) && !Done(s)
    ensures (exists n: nat :: EndsWithin(s, n)) <==> Live(s.parts, s.links)
  {
    if Live(s.parts, s.links) {
      assert EndsWithin(s, Steps(s, true));
    } else {
      forall n: nat ensures !EndsWithin(s, n) { SpinsForever(s, n); }
    }
  }

  lemma {:induction false} SpinsForever(s: Scan, n: nat)
    requires InRange(s) && !Done(s) && !Live(s.parts, s.links)
    ensures !Done(Passes(s, true, n))
    decreases n
  {
    if n > 0 {
      NotLiveKept(s);
      SpinsForever(Pass(s, true), n - 1);
    }
  }

  lemma NotLiveKept(s: Scan)
    requires InRange(s) && !Done(s) && !Live(s.parts, s.links)
    ensures !Done(Pass(s, true)) && !Live(Pass(s, true).parts, Pass(s, true).links)
  {
    var id := s.parts[s.i];
    assert id in s.parts;
    if Poll(s.links[id]).Nothing? {
      NothingKeeps(s, true);
    } else {
      NotLiveErase(s.parts, s.links, s.i);
    }
  }

  lemma NotLiveErase(parts: seq<nat>, links: Links, i: nat)
    requires i < |parts| && !Live(parts, links)
    ensures Erase(parts, i) != [] || !HeadIsEos(links, parts[i])
    ensures HeadIsEos(links, parts[i]) ==> !Live(Erase(parts, i), links)
  {
    var q :| q in parts && !HeadIsEos(links, q);
    EraseMembers(parts, i);
    assert parts[i] in parts;
    assert forall p <- Erase(parts, i) :: p in parts;
  }

  // What a probe changes -----------------------------------------------------------------

  function Msgs(future: seq<Arrival>): (r: seq<seq<byte>>)
    ensures |r| == |future| && forall k :: 0 <= k < |r| ==> r[k] == future[k].msg
  {
    seq(|future|, k requires 0 <= k < |future| => future[k].msg)
  }

  /** The same messages still to come on every link; only lags may differ. */
  ghost predicate SameTraffic(a: Links, b: Links) {
    a.Keys == b.Keys && forall id <- a :: Msgs(a[id].future) == Msgs(b[id].future) && a[id].gone == b[id].gone
  }

  /** idx names the participant whose header has been read, size is that header. */
  ghost predicate Found(s: Scan) {
    && 0 <= s.idx < |s.parts| && s.parts[s.idx] in s.links
    && var f := s.links[s.parts[s.idx]].future;
       f != [] && f[0].lag == 0 && |f[0].msg| == s.size && s.size > 0
  }

  /** The handles closed on the way, in order, after those closed before: each participant that has been dropped, once.
      */
  ghost predicate ClosesDropped(s0: Scan, s: Scan) {
    && s0.closed <= s.closed
    && var now := s.closed[|s0.closed|..];
       && Distinct(now)
       && forall p :: p in now <==> p in s0.parts && p !in s.parts
  }

  /** A probe loses no message and drops a participant only at its EOS. */
  ghost predicate Faithful(s0: Scan, s: Scan) {
    && SameTraffic(s0.links, s.links)
    && (forall p <- s.parts :: p in s0.parts)
    && (forall p <- s0.parts :: p in s.parts || HeadIsEos(s0.links, p))
    && (s.res == -1 || s.res == 0 || s.res == HEADER)
    && (s.res == 0 ==> exists p <- s0.parts :: p in s0.links && s0.links[p].gone)
    && (s.res != HEADER ==> s.idx == s0.idx)
    && (s.res == HEADER ==> Found(s))
  }

  lemma SameHeads(a: Links, b: Links, id: nat)
    requires SameTraffic(a, b)
    ensures HeadIsEos(a, id) == HeadIsEos(b, id) && Active(a, id) == Active(b, id)
  {
    if id in a && a[id].future != [] {
      assert Msgs(a[id].future)[0] == Msgs(b[id].future)[0];
    }
  }

  lemma PassFaithful(s: Scan, blocking: bool)
    requires InRange(s) && !Done(s)
    ensures Faithful(s, Pass(s, blocking))
  {
    var id := s.parts[s.i];
    assert id in s.parts;
    match Poll(s.links[id])
    case Nothing(l) => assert Msgs(l.future) == Msgs(s.links[id].future);
    case Broken =>
    case Header(n) =>
      if n == 0 { DropFaithful(s, blocking); }
  }

  lemma DropFaithful(s: Scan, blocking: bool)
    requires InRange(s) && !Done(s) && HeadIsEos(s.links, s.parts[s.i])
    ensures Faithful(s, DropAt(s, blocking))
  {
    EraseMembers(s.parts, s.i);
    assert DropAt(s, blocking).parts == Erase(s.parts, s.i);
  }

  lemma PassCloses(s: Scan, blocking: bool)
    requires InRange(s) && !Done(s)
    ensures ClosesDropped(s, Pass(s, blocking)) && forall p <- Pass(s, blocking).parts :: p in s.parts
  {
    EraseMembers(s.parts, s.i);
    var r := Pass(s, blocking);
    assert s.parts[s.i] in s.parts;
    assert r.closed[|s.closed|..] == if r.parts == s.parts then [] else [s.parts[s.i]];
  }

  /** Any number of passes close the handles of the participants they drop, each once, and no other. */
  lemma {:induction false} PassesClose(s: Scan, blocking: bool, n: nat)
    requires InRange(s)
    ensures ClosesDropped(s, Passes(s, blocking, n)) && forall p <- Passes(s, blocking, n).parts :: p in s.parts
    decreases n
  {
    if n > 0 && !Done(s) {
      PassCloses(s, blocking);
      PassesClose(Pass(s, blocking), blocking, n - 1);
      ClosesChain(s, Pass(s, blocking), Passes(Pass(s, blocking), blocking, n - 1));
    }
  }

  lemma ClosesChain(s0: Scan, s1: Scan, s2: Scan)
    requires ClosesDropped(s0, s1) && ClosesDropped(s1, s2)
    requires (forall p <- s1.parts :: p in s0.parts) && forall p <- s2.parts :: p in s1.parts
    ensures ClosesDropped(s0, s2)
  {
    var a, b := s1.closed[|s0.closed|..], s2.closed[|s1.closed|..];
    assert s2.closed[|s0.closed|..] == a + b;
    DistinctTogether(a, b);
  }

  lemma DistinctTogether(a: seq<nat>, b: seq<nat>)
    requires Distinct(a) && Distinct(b) && forall p <- b :: p !in a
    ensures Distinct(a + b)
  {
    forall i | 0 <= i < |b| ensures b[i] !in a { assert b[i] in b; }
  }

  lemma FaithfulChains(s0: Scan, s1: Scan, s2: Scan)
    requires Faithful(s0, s1) && Faithful(s1, s2) && s1.res == -1
    ensures Faithful(s0, s2)
  {
    forall p | p in s0.parts ensures p in s2.parts || HeadIsEos(s0.links, p) {
      SameHeads(s0.links, s1.links, p);
    }
  }

  lemma {:induction false} PassesFaithful(s: Scan, blocking: bool, n: nat)
    requires InRange(s) && s.res == -1
    ensures Faithful(s, Passes(s, blocking, n))
    ensures blocking && !s.stop ==> !Passes(s, blocking, n).stop
    decreases n
  {
    if n > 0 && !Done(s) {
      var s1 := Pass(s, blocking);
      PassFaithful(s, blocking);
      if s1.res == -1 {
        PassesFaithful(s1, blocking, n - 1);
        FaithfulChains(s, s1, Passes(s1, blocking, n - 1));
      }
    }
  }

  // What a probe that does not wait has looked at -------------------------------------------

  /** The participant at position k had nothing to say, has been dropped, or stood behind one that was: erasing moves it
      to where the iterator is, and the iterator goes on. */
  ghost predicate LookedAt(s: Scan, r: Scan, k: nat)
    requires InRange(s) && s.i <= k < |s.parts|
  {
    || Poll(s.links[s.parts[k]]).Nothing?
    || s.parts[k] !in r.parts
    || (k > s.i && s.parts[k - 1] !in r.parts)
  }

  lemma LooksOn(s: Scan, s1: Scan, r: Scan, k: nat)
    requires InRange(s) && !Done(s) && s1 == Pass(s, false) && s1.res == -1 && s.i <= k < |s.parts|
    requires forall p <- r.parts :: p in s1.parts
    requires !s1.stop ==> forall k :: s1.i <= k < |s1.parts| ==> LookedAt(s1, r, k)
    ensures LookedAt(s, r, k)
  {
    var id := s.parts[s.i];
    assert id in s.parts;
    if s1.parts == s.parts {
      if k > s.i { assert s1.i == s.i + 1 && s1.links[s.parts[k]] == s.links[s.parts[k]] && LookedAt(s1, r, k); }
    } else {
      EraseMembers(s.parts, s.i);
      assert id !in r.parts;
      if k > s.i + 1 {
        assert s1.i == s.i + 1 && s1.parts[k - 1] == s.parts[k] && s1.parts[k - 2] == s.parts[k - 1];
        assert LookedAt(s1, r, k - 1);
      }
    }
  }

  /** A probe that does not wait and answers "nothing yet" has looked at every participant, but for those that the
      iterator jumped when the one before them was erased. */
  lemma {:induction false} NothingYetIsHonest(s: Scan)
    requires InRange(s) && s.res == -1 && !s.stop
    ensures Loop(s, false).res == -1 ==>
              forall k :: s.i <= k < |s.parts| ==> LookedAt(s, Loop(s, false), k)
    decreases Steps(s, false)
  {
    if s.parts != [] && Loop(s, false).res == -1 {
      var s1, r := Pass(s, false), Loop(s, false);
      LoopUnfolds(s, false);
      PassesClose(s1, false, Steps(s1, false));
      if s1.res == -1 && !s1.stop { NothingYetIsHonest(s1); }
      assert s1.res == -1;
      forall k | s.i <= k < |s.parts| ensures LookedAt(s, r, k) { LooksOn(s, s1, r, k); }
    }
  }

  /** Such a one may have a message: participant 0 says EOS, and participant 1, whose message is there, is jumped. */
  lemma JumpsTheNext(m: seq<byte>)
    requires m != []
    ensures var s := Scan([0, 1], map[0 := Link([Arrival(0, [])], false), 1 := Link([Arrival(0, m)], false)], 0, -1, 0,
                          -1, [], false);
            Loop(s, false).res == -1 && Poll(s.links[1]) == Header(|m|) && Loop(s, false).parts == [1]
  {
    var s := Scan([0, 1], map[0 := Link([Arrival(0, [])], false), 1 := Link([Arrival(0, m)], false)], 0, -1, 0, -1, [],
                  false);
    LoopUnfolds(s, false);
    assert Pass(s, false).parts == [1];
    assert Done(Pass(s, false));
  }

  // In place -------------------------------------------------------------------------------

  class FanInRoot {
    var participants: seq<nat>
    var links: Links
    var probedIdx: int
    var closed: seq<nat>   // handles closed on EOS, in order

    constructor (participants: seq<nat>, links: Links)
      ensures this.participants == participants && this.links == links && probedIdx == -1 && closed == []
    {
      this.participants, this.links, probedIdx, closed := participants, links, -1, [];
    }

    ghost function At(i: nat, res: int, size: nat, stop: bool): Scan
      reads this
    {
      Scan(participants, links, i, res, size, probedIdx, closed, stop)
    }

    /** The loop body; stop is its break. */
    method OnePass(i: nat, size: nat, blocking: bool) returns (i': nat, res: int, size': nat, stop: bool)
      requires participants != [] && InRange(At(i, -1, size, false))
      modifies this
      ensures At(i', res, size', stop) == Pass(old(At(i, -1, size, false)), blocking)
    {
      i', res, size', stop := i, -1, size, false;
      var h := participants[i];
      match Poll(links[h]) {
        case Nothing(l) => links := links[h := l];
        case Broken => res := 0;
        case Header(n) => res, size' := HEADER, n;
      }
      if res > 0 && size' == 0 {
        participants := Erase(participants, i);
        res := -1;
        closed := closed + [h];
        if i == |participants| {
          if blocking { i' := 0; } else { stop := true; }
          return;
        }
      }
      if res > 0 { probedIdx := i; }
      i' := i + 1;
      if i' == |participants| {
        if blocking { i' := 0; } else { stop := true; }
      }
    }

    method Probe(blocking: bool) returns (res: int, size: nat)
      requires Formed(participants, links) && (blocking ==> Live(participants, links))
      modifies this
      ensures var s := Loop(old(At(0, -1, 0, false)), blocking);
              && participants == s.parts && links == s.links && probedIdx == s.idx && closed == s.closed
              && res == (if s.parts == [] then HEADER else s.res)
              && size == (if s.parts == [] then 0 else s.size)
      ensures forall p <- participants :: p in old(participants)
      ensures old(closed) <= closed && Distinct(closed[|old(closed)|..])
      ensures forall p :: p in closed[|old(closed)|..] <==> p in old(participants) && p !in participants
      ensures forall p <- closed[|old(closed)|..] :: HeadIsEos(old(links), p)
    {
      ghost var s0 := At(0, -1, 0, false);
      PassesClose(s0, blocking, Steps(s0, blocking));
      PassesFaithful(s0, blocking, Steps(s0, blocking));
      res, size := -1, 0;
      var i, stop := 0, false;
      ghost var goal := Loop(At(0, -1, 0, false), blocking);
      while res == -1 && participants != [] && !stop
        invariant InRange(At(i, res, size, stop))
        invariant blocking ==> Live(participants, links)
        invariant Loop(At(i, res, size, stop), blocking) == goal
        decreases Steps(At(i, res, size, stop), blocking)
      {
        LoopUnfolds(At(i, -1, size, false), blocking);
        i, res, size, stop := OnePass(i, size, blocking);
      }
      if participants == [] { res, size := HEADER, 0; }
    }

    /** Receives from the participant just probed: the whole message its header announced. */
    method Receive(size: nat) returns (m: seq<byte>)
      requires 0 <= probedIdx < |participants| && participants[probedIdx] in links
      requires var f := links[participants[probedIdx]].future; f != [] && |f[0].msg| == size
      modifies this`links, this`probedIdx
      ensures m == old(links[participants[probedIdx]].future[0].msg) && |m| == size && probedIdx == -1
      ensures var h := old(participants[probedIdx]);
              links == old(links)[h := old(links)[h].(future := old(links)[h].future[1..])]
    {
      var h := participants[probedIdx];
      m := links[h].future[0].msg;
      links := links[h := links[h].(future := links[h].future[1..])];
      probedIdx := -1;
    }
  }
}
