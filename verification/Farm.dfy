/** FanOutGeneric deals messages round robin; with one-output-per-input workers and a fan-in behind them it
    forms a farm. */
module Farm {
  import opened Wrappers
  import opened Arith
  import opened Bytes
  import opened FanIn
  import opened FanInProbes
  import opened FanInRuns

  /** The root's side: the next participant, and what has been put on each participant's link. */
  datatype FanOut = FanOut(current: nat, outs: seq<seq<Msg>>)

  function Send(f: FanOut, m: Msg): FanOut
    requires f.current < |f.outs|
  {
    FanOut((f.current + 1) % |f.outs|, f.outs[f.current := f.outs[f.current] + [m]])
  }

  function NothingSent(n: nat): FanOut { FanOut(0, seq(n, _ => [])) }

  /** The state after sending msgs in order to n participants. */
  function Dealt(n: nat, msgs: seq<Msg>): (f: FanOut)
    requires n > 0
    ensures |f.outs| == n && f.current < n
  {
    if msgs == [] then NothingSent(n) else Send(Dealt(n, msgs[..|msgs| - 1]), msgs[|msgs| - 1])
  }

  lemma NextQuotient(k: nat, n: nat)
    requires n > 0
    ensures k % n == n - 1 ==> (k + 1) / n == k / n + 1 && (k + 1) % n == 0
    ensures k % n < n - 1 ==> (k + 1) / n == k / n && (k + 1) % n == k % n + 1
  {
    var q, r := k / n, k % n;
    assert k == q * n + r;
    if r == n - 1 {
      assert (q + 1) * n == q * n + n;
      QuotientIs(k + 1, q + 1, 0, n);
    } else {
      QuotientIs(k + 1, q, r + 1, n);
    }
  }

  /** How many of the first k messages participant j gets. */
  function Share(k: nat, n: nat, j: nat): nat
    requires n > 0
  {
    k / n + if j < k % n then 1 else 0
  }

  /** Message k went to participant k mod n, in position k div n, and no one got anything else. */
  ghost predicate RoundRobin(f: FanOut, msgs: seq<Msg>, n: nat)
    requires n > 0
  {
    && |f.outs| == n && f.current == |msgs| % n
    && (forall j :: 0 <= j < n ==> |f.outs[j]| == Share(|msgs|, n, j))
    && (forall k :: 0 <= k < |msgs| ==> Delivered(f, msgs, k, n))
  }

  lemma SendKeepsRoundRobin(f: FanOut, msgs: seq<Msg>, m: Msg, n: nat)
    requires n > 0 && RoundRobin(f, msgs, n)
    ensures RoundRobin(Send(f, m), msgs + [m], n)
  {
    var len := |msgs|;
    NextQuotient(len, n);
    var r := Send(f, m);
    assert r.current == (len + 1) % n by { NextIndex(len, n); }
    forall k | 0 <= k < len + 1 ensures Delivered(r, msgs + [m], k, n) {
      if k < len { assert Delivered(f, msgs, k, n); }
    }
  }

  lemma NextIndex(k: nat, n: nat)
    requires n > 0
    ensures (k % n + 1) % n == (k + 1) % n
  {
    NextQuotient(k, n);
    if k % n == n - 1 { QuotientIs(n, 1, 0, n); } else { QuotientIs(k % n + 1, 0, k % n + 1, n); }
  }

  /** The deal, for any number of participants and messages. */
  lemma {:induction false} DealtRoundRobin(n: nat, msgs: seq<Msg>)
    requires n > 0
    ensures RoundRobin(Dealt(n, msgs), msgs, n)
  {
    if msgs != [] {
      var k := |msgs| - 1;
      DealtRoundRobin(n, msgs[..k]);
      SendKeepsRoundRobin(Dealt(n, msgs[..k]), msgs[..k], msgs[k], n);
      assert msgs[..k] + [msgs[k]] == msgs;
    } else {
      QuotientIs(0, 0, 0, n);
    }
  }

  ghost predicate Delivered(f: FanOut, msgs: seq<Msg>, k: nat, n: nat)
    requires n > 0 && |f.outs| == n && k < |msgs|
  {
    k / n < |f.outs[k % n]| && f.outs[k % n][k / n] == msgs[k]
  }

  /** Any two shares differ by at most one message. */
  lemma SharesBalanced(n: nat, msgs: seq<Msg>, i: nat, j: nat)
    requires i < n && j < n
    ensures |Dealt(n, msgs).outs[i]| <= |Dealt(n, msgs).outs[j]| + 1
  {
    DealtRoundRobin(n, msgs);
  }

  /** Taking from the shares in turn, the way a reader of all of them would. */
  function Reinterleave(outs: seq<seq<Msg>>, k: nat): seq<Msg>
    requires |outs| > 0
    requires forall i :: 0 <= i < k ==> i / |outs| < |outs[i % |outs|]|
  {
    if k == 0 then [] else Reinterleave(outs, k - 1) + [outs[(k - 1) % |outs|][(k - 1) / |outs|]]
  }

  lemma Rebuilds(n: nat, msgs: seq<Msg>, k: nat)
    requires n > 0 && k <= |msgs|
    ensures forall i :: 0 <= i < k ==> i / n < |Dealt(n, msgs).outs[i % n]|
    ensures Reinterleave(Dealt(n, msgs).outs, k) == msgs[..k]
  {
    DealtRoundRobin(n, msgs);
    forall i | 0 <= i < k ensures i / n < |Dealt(n, msgs).outs[i % n]| { assert Delivered(Dealt(n, msgs), msgs, i, n); }
    if k > 0 {
      Rebuilds(n, msgs, k - 1);
      assert Delivered(Dealt(n, msgs), msgs, k - 1, n);
    }
  }

  // The farm -----------------------------------------------------------------------------

  function Map(f: Msg -> Msg, s: seq<Msg>): seq<Msg> { seq(|s|, i requires 0 <= i < |s| => f(s[i])) }

  function MapAll(f: Msg -> Msg, outs: seq<seq<Msg>>): seq<seq<Msg>> { seq(|outs|,
                  j requires 0 <= j < |outs| => Map(f, outs[j])) }

  /** All the messages in a list of streams. */
  function Gathered(streams: seq<seq<Msg>>): multiset<Msg>
  {
    if streams == [] then multiset{} else multiset(streams[0]) + Gathered(streams[1..])
  }

  lemma {:induction false} GatheredAppend(streams: seq<seq<Msg>>, j: nat, m: Msg)
    requires j < |streams|
    ensures Gathered(streams[j := streams[j] + [m]]) == Gathered(streams) + multiset{m}
  {
    var r := streams[j := streams[j] + [m]];
    if j == 0 {
      assert r[1..] == streams[1..];
    } else {
      GatheredAppend(streams[1..], j - 1, m);
      assert r[1..] == streams[1..][j - 1 := streams[1..][j - 1] + [m]];
    }
  }

  lemma {:induction false} GatheredEmpty(s: seq<seq<Msg>>)
    requires forall j :: 0 <= j < |s| ==> s[j] == []
    ensures Gathered(s) == multiset{}
  {
    if s != [] { GatheredEmpty(s[1..]); }
  }

  /** Dealing and working lose and invent nothing. */
  lemma {:induction false} DealtMultiset(f: Msg -> Msg, n: nat, msgs: seq<Msg>)
    requires n > 0
    ensures Gathered(MapAll(f, Dealt(n, msgs).outs)) == multiset(Map(f, msgs))
  {
    if msgs == [] {
      GatheredEmpty(MapAll(f, Dealt(n, msgs).outs));
      assert Map(f, msgs) == [];
    } else {
      var before, m := msgs[..|msgs| - 1], msgs[|msgs| - 1];
      var d := Dealt(n, before);
      DealtMultiset(f, n, before);
      var s := MapAll(f, d.outs);
      assert Map(f, d.outs[d.current] + [m]) == s[d.current] + [f(m)];
      assert MapAll(f, Dealt(n, msgs).outs) == s[d.current := s[d.current] + [f(m)]];
      GatheredAppend(s, d.current, f(m));
      assert Map(f, msgs) == Map(f, before) + [f(m)];
    }
  }

  function Payload(log: seq<(nat, Msg)>): seq<Msg> { seq(|log|, i requires 0 <= i < |log| => log[i].1) }

  function Projections(log: seq<(nat, Msg)>, n: nat): seq<seq<Msg>> { seq(n, j requires 0 <= j < n => Project(log, j)) }

  lemma ProjectionsAppend(log: seq<(nat, Msg)>, e: (nat, Msg), n: nat)
    requires e.0 < n
    ensures var s := Projections(log, n); Projections(log + [e], n) == s[e.0 := s[e.0] + [e.1]]
  {
    var s, r := Projections(log, n), Projections(log + [e], n);
    forall j | 0 <= j < n ensures r[j] == s[e.0 := s[e.0] + [e.1]][j] { ProjectMore(log, e.0, e.1, j); }
  }

  lemma LogStep(log: seq<(nat, Msg)>, e: (nat, Msg), n: nat)
    requires e.0 < n && multiset(Payload(log)) == Gathered(Projections(log, n))
    ensures multiset(Payload(log + [e])) == Gathered(Projections(log + [e], n))
  {
    ProjectionsAppend(log, e, n);
    GatheredAppend(Projections(log, n), e.0, e.1);
    assert Payload(log + [e]) == Payload(log) + [e.1];
  }

  lemma LogEmpty(n: nat)
    ensures multiset(Payload([])) == Gathered(Projections([], n))
  {
    GatheredEmpty(Projections([], n));
  }

  lemma {:induction false} LogMultiset(log: seq<(nat, Msg)>, n: nat)
    requires forall i :: 0 <= i < |log| ==> log[i].0 < n
    ensures multiset(Payload(log)) == Gathered(Projections(log, n))
  {
    if log == [] {
      LogEmpty(n);
    } else {
      var last := |log| - 1;
      assert log == log[..last] + [log[last]];
      LogMultiset(log[..last], n);
      LogStep(log[..last], log[last], n);
    }
  }

  /** Worker j answers every message of its share with one non-empty message, in order, then closes. */
  ghost predicate WorkersAnswer(g: Group, f: Msg -> Msg, outs: seq<seq<Msg>>) {
    && (forall j :: j in g.links <==> 0 <= j < |outs|)
    && (forall j :: 0 <= j < |outs| ==> Msgs(g.links[j].future) == Map(f, outs[j]) + [EOS])
  }

  /** Whatever the schedule and the timing of the workers, when the fan-in reports the group's EOS the collected
      messages are exactly the images of the emitted ones, each worker's answers in the order of its share. */
  lemma FarmConserves(g: Group, ops: seq<Op>, f: Msg -> Msg, n: nat, msgs: seq<Msg>)
    requires n > 0 && Fresh(g) && WorkersAnswer(g, f, Dealt(n, msgs).outs)
    ensures Valid(g)
    ensures var r := Run(g, ops);
            r.cached == Some(0) ==>
              && multiset(Payload(r.log)) == multiset(Map(f, msgs))
              && forall j :: 0 <= j < n ==> Project(r.log, j) == Map(f, Dealt(n, msgs).outs[j])
  {
    FreshInv(g);
    if Run(g, ops).cached == Some(0) { AtGroupEos(g, ops, f, n, msgs); }
  }

  lemma AtGroupEos(g: Group, ops: seq<Op>, f: Msg -> Msg, n: nat, msgs: seq<Msg>)
    requires n > 0 && Fresh(g) && Valid(g) && WorkersAnswer(g, f, Dealt(n, msgs).outs)
    requires Run(g, ops).cached == Some(0)
    ensures multiset(Payload(Run(g, ops).log)) == multiset(Map(f, msgs))
    ensures forall j :: 0 <= j < n ==> Project(Run(g, ops).log, j) == Map(f, Dealt(n, msgs).outs[j])
  {
    var log, outs := Run(g, ops).log, Dealt(n, msgs).outs;
    forall j | 0 <= j < n ensures Project(log, j) == Map(f, outs[j]) {
      EveryRunInterleaves(g, ops, j);
      SameBeforeEos(Project(log, j), Map(f, outs[j]));
    }
    EveryRunInterleaves(g, ops, 0);
    forall i | 0 <= i < |log| ensures log[i].0 < n { assert log[i] in log; }
    CollectedAll(log, f, n, msgs);
  }

  lemma CollectedAll(log: seq<(nat, Msg)>, f: Msg -> Msg, n: nat, msgs: seq<Msg>)
    requires n > 0 && forall i :: 0 <= i < |log| ==> log[i].0 < n
    requires forall j :: 0 <= j < n ==> Project(log, j) == Map(f, Dealt(n, msgs).outs[j])
    ensures multiset(Payload(log)) == multiset(Map(f, msgs))
  {
    LogMultiset(log, n);
    assert Projections(log, n) == MapAll(f, Dealt(n, msgs).outs);
    DealtMultiset(f, n, msgs);
  }

  lemma SameBeforeEos(a: seq<Msg>, b: seq<Msg>)
    requires a + [EOS] == b + [EOS]
    ensures a == b
  {
    assert (a + [EOS])[..|a|] == a && (b + [EOS])[..|b|] == b;
  }

  // In place -----------------------------------------------------------------------------

  class FanOutRoot {
    var current: nat
    var outs: seq<seq<Msg>>

    ghost function Contents(): FanOut
      reads this
    {
      FanOut(current, outs)
    }

    constructor (n: nat)
      ensures Contents() == NothingSent(n)
    {
      current, outs := 0, seq(n, _ => []);
    }

    /** The next participant's turn passes even when its link refuses the message. */
    method SendOne(m: Msg) returns (res: int)
      requires current < |outs|
      modifies this
      ensures res == |m| || res == -1
      ensures res != -1 ==> Contents() == Send(old(Contents()), m)
      ensures res == -1 ==> Contents() == FanOut((old(current) + 1) % |old(outs)|, old(outs))
      ensures current < |outs|
    {
      var count := |outs|;
      var refuses: bool := *;
      res := if refuses then -1 else |m|;
      if !refuses { outs := outs[current := outs[current] + [m]]; }
      current := (current + 1) % count;
    }
  }
}
