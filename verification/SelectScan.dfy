/** The scan of ConnTcp::update while other threads yield, close and connect between its visits. Each visit and each
    call of another thread is one step, since the set and the table are changed under one lock; fdmax is the greatest
    watched descriptor throughout, as ConnTcps proves of every operation. */
module SelectScan {
  import opened Wrappers
  import opened Arith
  import opened ConnTcps

  ghost function Greatest(s: set<nat>): (m: int)
    ensures IsMax(m, s)
  {
    if s == {} then -1
    else
      var x :| x in s;
      var m := Greatest(s - {x});
      assert forall f :: f in s ==> f == x || f in s - {x};
      if m < x then x else m
  }

  /** What select has reported and what there was then: the descriptors, the set and the table. Accepted connections and
      connections made meanwhile get handles that are not in that table. listenSck is -1 if the process does not
      listen. */
  datatype Begin = Begin(ready: set<nat>, watched: set<nat>, table: map<nat, nat>, listenSck: int)

  ghost predicate Sane(b: Begin) {
    b.ready <= b.watched && b.listenSck !in b.table
  }

  /** log: the descriptors visited and the handle queued for each. gone, reused: ready descriptors closed, and given to
      a new connection, before their turn. yielded, closed: descriptors that others have yielded and closed at all.
      failed: accept has failed. */
  datatype Scan = Scan(
    watched: set<nat>, table: map<nat, nat>, idx: nat, log: seq<(nat, Option<nat>)>, over: bool, failed: bool,
    gone: set<nat>, reused: set<nat>, yielded: set<nat>, closed: set<nat>)

  /** accepted: the descriptor and handle that accept gives, if it does. */
  datatype Act =
    | Advance(accepted: Option<(nat, nat)>)
    | Yield(fd: nat)
    | CloseRead(fd: nat)
    | Connect(fd: nat, handle: nat)

  function Start(b: Begin): Scan { Scan(b.watched, b.table, 0, [], false, false, {}, {}, {}, {}) }

  ghost predicate NewHandle(b: Begin, h: nat) { forall f :: f in b.table ==> b.table[f] != h }

  /** The system gives out only descriptors that are not in use. */
  ghost predicate Possible(b: Begin, s: Scan, a: Act) {
    match a
    case Advance(Some(x)) => x.0 !in s.table && x.0 !in s.watched && x.0 != b.listenSck && NewHandle(b, x.1)
    case Advance(None) => true
    case Yield(fd) => fd != b.listenSck
    case CloseRead(fd) => fd != b.listenSck
    case Connect(fd, h) => fd !in s.table && fd !in s.watched && fd != b.listenSck && NewHandle(b, h)
  }

  ghost function Visit(b: Begin, s: Scan, accepted: Option<(nat, nat)>): Scan {
    var s' := s.(idx := s.idx + 1);
    if s.idx == b.listenSck then
      if accepted.None? then s.(over := true, failed := true)
      else
        var (fd, h) := accepted.value;
        s'.(table := s.table[fd := h], log := s.log + [(s.idx, Some(h))],
            reused := if Due(b, s', fd) then s.reused + {fd} else s.reused)
    else
      s'.(watched := s.watched - {s.idx},
          log := s.log + [(s.idx, if s.idx in s.table then Some(s.table[s.idx]) else None)])
  }

  ghost function Step(b: Begin, s: Scan, a: Act): Scan {
    match a
    case Advance(accepted) =>
      if s.over then s
      else if s.idx > Greatest(s.watched) || |s.log| >= |b.ready| then s.(over := true)
      else if s.idx in b.ready then Visit(b, s, accepted)
      else s.(idx := s.idx + 1)
    case Yield(fd) => s.(watched := s.watched + {fd}, yielded := s.yielded + {fd})
    case CloseRead(fd) =>
      s.(watched := s.watched - {fd}, table := s.table - {fd}, closed := s.closed + {fd},
         gone := if Due(b, s, fd) then s.gone + {fd} else s.gone)
    case Connect(fd, h) =>
      s.(table := s.table[fd := h], reused := if Due(b, s, fd) then s.reused + {fd} else s.reused)
  }

  predicate Due(b: Begin, s: Scan, fd: nat) { fd in b.ready && fd >= s.idx }

  ghost predicate Allowed(b: Begin, s: Scan, acts: seq<Act>)
    decreases |acts|
  {
    acts != [] ==> Possible(b, s, acts[0]) && Allowed(b, Step(b, s, acts[0]), acts[1..])
  }

  ghost function Run(b: Begin, s: Scan, acts: seq<Act>): Scan
    decreases |acts|
  {
    if acts == [] then s else Run(b, Step(b, s, acts[0]), acts[1..])
  }

  // The invariant ------------------------------------------------------------------------

  function Visited(log: seq<(nat, Option<nat>)>): (v: seq<nat>)
    ensures |v| == |log| && forall i :: 0 <= i < |v| ==> v[i] == log[i].0
  {
    seq(|log|, i requires 0 <= i < |log| => log[i].0)
  }

  /** What a visit of f, not the listening socket, queues. */
  ghost predicate RightHandle(b: Begin, s: Scan, f: nat, h: Option<nat>) {
    && (f !in s.reused && f in s.gone ==> h == None)
    && (f !in s.reused && f !in s.gone ==> h == if f in b.table then Some(b.table[f]) else None)
    && (f in s.reused && h.Some? ==> NewHandle(b, h.value))
  }

  /** The table at a descriptor whose turn is still to come, or that no one is waiting for. */
  ghost predicate TableOk(b: Begin, s: Scan, f: nat) {
    Due(b, s, f) && f != b.listenSck ==> RightHandle(b, s, f, if f in s.table then Some(s.table[f]) else None)
  }

  ghost predicate WatchOk(b: Begin, s: Scan, f: nat) {
    && (Due(b, s, f) && f !in s.gone ==> f in s.watched)
    && (f !in s.yielded ==>
          (f in s.watched <==> f in b.watched && f !in s.closed && (f == b.listenSck || f !in Visited(s.log))))
  }

  ghost predicate LogOk(b: Begin, s: Scan) {
    && Enumerates(Visited(s.log), Below(b.ready, s.idx))
    && (forall i :: 0 <= i < |s.log| && s.log[i].0 != b.listenSck ==> RightHandle(b, s, s.log[i].0, s.log[i].1))
    && (forall i :: 0 <= i < |s.log| && s.log[i].0 == b.listenSck ==> s.log[i].1.Some?)
  }

  ghost predicate Inv(b: Begin, s: Scan) {
    && Sane(b) && s.gone <= s.closed && (s.failed ==> s.over) && LogOk(b, s)
    && (forall f :: f in s.reused && f in b.table ==> f in s.closed)
    && (forall f: nat :: TableOk(b, s, f)) && (forall f: nat :: WatchOk(b, s, f))
    && (s.over && !s.failed ==> forall f <- b.ready :: f in s.gone || f in Visited(s.log))
  }

  lemma StartInv(b: Begin)
    requires Sane(b)
    ensures Inv(b, Start(b))
  {
  }

  lemma BelowNext(ready: set<nat>, idx: nat)
    ensures Below(ready, idx + 1) == if idx in ready then Below(ready, idx) + {idx} else Below(ready, idx)
  {
  }

  lemma VisitedMore(log: seq<(nat, Option<nat>)>, x: (nat, Option<nat>))
    ensures Visited(log + [x]) == Visited(log) + [x.0]
  {
  }

  /** All descriptors visited, none left. */
  lemma AllVisited(b: Begin, s: Scan)
    requires LogOk(b, s) && |s.log| >= |b.ready|
    ensures forall f <- b.ready :: f in Visited(s.log)
  {
    var v := Visited(s.log);
    Count(v, Below(b.ready, s.idx));
    if f :| f in b.ready && f !in v {
      assert Below(b.ready, s.idx) <= b.ready - {f};
      SubsetCount(Below(b.ready, s.idx), b.ready - {f});
    }
  }

  lemma {:induction false} Count(v: seq<nat>, s: set<nat>)
    requires Enumerates(v, s)
    ensures |v| == |s|
    decreases |v|
  {
    if v == [] {
      assert s == {};
    } else {
      var last := v[|v| - 1];
      forall f ensures f in v[..|v| - 1] <==> f in s - {last} {
        if f in s - {last} {
          var i :| 0 <= i < |v| && v[i] == f;
          assert v[..|v| - 1][i] == f;
        }
      }
      Count(v[..|v| - 1], s - {last});
    }
  }

  lemma StopKeepsInv(b: Begin, s: Scan)
    requires Inv(b, s) && !s.over && (s.idx > Greatest(s.watched) || |s.log| >= |b.ready|)
    ensures Inv(b, s.(over := true))
  {
    if |s.log| >= |b.ready| {
      AllVisited(b, s);
    } else {
      forall f | f in b.ready ensures f in s.gone || f in Visited(s.log) {
        assert WatchOk(b, s, f);
        if f < s.idx { assert f in Below(b.ready, s.idx); }
      }
    }
    forall f: nat ensures TableOk(b, s.(over := true), f) && WatchOk(b, s.(over := true), f) {
      assert TableOk(b, s, f) && WatchOk(b, s, f);
    }
  }

  lemma SkipKeepsInv(b: Begin, s: Scan)
    requires Inv(b, s) && !s.over && s.idx !in b.ready
    ensures Inv(b, s.(idx := s.idx + 1))
  {
    BelowNext(b.ready, s.idx);
    var s' := s.(idx := s.idx + 1);
    forall f: nat ensures TableOk(b, s', f) && WatchOk(b, s', f) {
      assert TableOk(b, s, f) && WatchOk(b, s, f);
    }
  }

  lemma VisitLog(b: Begin, s: Scan, h: Option<nat>, s': Scan)
    requires LogOk(b, s) && s.idx in b.ready && s'.log == s.log + [(s.idx, h)] && s'.idx == s.idx + 1
    requires s'.gone == s.gone && forall f :: f <= s.idx ==> (f in s'.reused <==> f in s.reused)
    requires if s.idx == b.listenSck then h.Some? else RightHandle(b, s, s.idx, h)
    ensures LogOk(b, s')
  {
    BelowNext(b.ready, s.idx);
    VisitedMore(s.log, (s.idx, h));
    EnumeratesNext(Visited(s.log), Below(b.ready, s.idx), s.idx);
    forall i | 0 <= i < |s'.log| && s'.log[i].0 != b.listenSck ensures RightHandle(b, s', s'.log[i].0, s'.log[i].1) {
      if i < |s.log| { assert s'.log[i] == s.log[i]; }
    }
  }

  lemma VisitKeepsInv(b: Begin, s: Scan, accepted: Option<(nat, nat)>)
    requires Inv(b, s) && !s.over && s.idx in b.ready && Possible(b, s, Advance(accepted))
    ensures Inv(b, Visit(b, s, accepted))
  {
    var s' := Visit(b, s, accepted);
    assert TableOk(b, s, s.idx);
    if !s'.failed {
      var h := s'.log[|s.log|].1;
      VisitLog(b, s, h, s');
      VisitedMore(s.log, (s.idx, h));
      if s.idx == b.listenSck { assert TableOk(b, s, accepted.value.0); }
    }
    forall f: nat ensures TableOk(b, s', f) && WatchOk(b, s', f) {
      assert TableOk(b, s, f) && WatchOk(b, s, f);
    }
  }

  lemma YieldKeepsInv(b: Begin, s: Scan, fd: nat)
    requires Inv(b, s) && Possible(b, s, Yield(fd))
    ensures Inv(b, Step(b, s, Yield(fd)))
  {
    var s' := Step(b, s, Yield(fd));
    forall f: nat ensures TableOk(b, s', f) && WatchOk(b, s', f) {
      assert TableOk(b, s, f) && WatchOk(b, s, f);
    }
  }

  lemma CloseKeepsInv(b: Begin, s: Scan, fd: nat)
    requires Inv(b, s) && Possible(b, s, CloseRead(fd))
    ensures Inv(b, Step(b, s, CloseRead(fd)))
  {
    var s' := Step(b, s, CloseRead(fd));
    forall f: nat ensures TableOk(b, s', f) && WatchOk(b, s', f) {
      assert TableOk(b, s, f) && WatchOk(b, s, f);
    }
    SameLog(b, s, s');
  }

  /** What happens at descriptors whose turn is still to come does not touch the log. */
  lemma SameLog(b: Begin, s: Scan, s': Scan)
    requires LogOk(b, s) && s'.log == s.log && s'.idx == s.idx
    requires forall f :: f < s.idx ==> (f in s'.gone <==> f in s.gone) && (f in s'.reused <==> f in s.reused)
    ensures LogOk(b, s')
  {
    forall i | 0 <= i < |s.log| && s.log[i].0 != b.listenSck ensures RightHandle(b, s', s.log[i].0, s.log[i].1) {
      assert Visited(s.log)[i] in Below(b.ready, s.idx);
    }
  }

  lemma ConnectKeepsInv(b: Begin, s: Scan, fd: nat, h: nat)
    requires Inv(b, s) && Possible(b, s, Connect(fd, h))
    ensures Inv(b, Step(b, s, Connect(fd, h)))
  {
    var s' := Step(b, s, Connect(fd, h));
    forall f: nat ensures TableOk(b, s', f) && WatchOk(b, s', f) {
      assert TableOk(b, s, f) && WatchOk(b, s, f);
    }
    SameLog(b, s, s');
    assert TableOk(b, s, fd);
  }

  lemma StepKeepsInv(b: Begin, s: Scan, a: Act)
    requires Inv(b, s) && Possible(b, s, a)
    ensures Inv(b, Step(b, s, a))
  {
    match a
    case Advance(accepted) =>
      if s.over {}
      else if s.idx > Greatest(s.watched) || |s.log| >= |b.ready| { StopKeepsInv(b, s); }
      else if s.idx in b.ready { VisitKeepsInv(b, s, accepted); }
      else { SkipKeepsInv(b, s); }
    case Yield(fd) => YieldKeepsInv(b, s, fd);
    case CloseRead(fd) => CloseKeepsInv(b, s, fd);
    case Connect(fd, h) => ConnectKeepsInv(b, s, fd, h);
  }

  lemma {:induction false} RunKeepsInv(b: Begin, s: Scan, acts: seq<Act>)
    requires Inv(b, s) && Allowed(b, s, acts)
    ensures Inv(b, Run(b, s, acts))
    decreases |acts|
  {
    if acts != [] {
      StepKeepsInv(b, s, acts[0]);
      RunKeepsInv(b, Step(b, s, acts[0]), acts[1..]);
    }
  }

  /** If watched descriptors may be closed, a new connection can be taken for a readable one: descriptor 0 is reported,
      closed by another thread, and given to a connection with handle 8 before its turn. Polling says who does that. */
  lemma ReusedDescriptor()
    ensures var b := Begin({0}, {0, 1}, map[0 := 7, 1 := 6], 2);
            var acts := [CloseRead(0), Connect(0, 8), Advance(None)];
            Sane(b) && Allowed(b, Start(b), acts) && Run(b, Start(b), acts).log == [(0, Some(8))]
  {
    var b := Begin({0}, {0, 1}, map[0 := 7, 1 := 6], 2);
    var acts := [CloseRead(0), Connect(0, 8), Advance(None)];
    var s1 := Step(b, Start(b), CloseRead(0));
    var s2 := Step(b, s1, Connect(0, 8));
    assert 1 in s2.watched;
    assert acts[1..] == [Connect(0, 8), Advance(None)] && acts[1..][1..] == [Advance(None)]
        && acts[1..][1..][1..] == [];
    assert Run(b, Start(b), acts) == Run(b, s1, acts[1..]) == Run(b, s2, acts[1..][1..]) == Step(b, s2, Advance(None));
    assert Allowed(b, s2, acts[1..][1..]) && Allowed(b, s1, acts[1..]);
  }
}
