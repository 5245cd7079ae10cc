/** The scan over whole runs, whatever other threads do between its visits. */
module SelectRuns {
  import opened Wrappers
  import opened Arith
  import opened ConnTcps
  import opened SelectScan

  /** Whatever other threads do between the visits: no descriptor is visited twice, and only ready ones; when the scan
      has ended, unless accept failed, every ready descriptor has been visited but those closed before their turn; the
      handle queued for a descriptor is the one that select reported on if and only if the descriptor was not given to
      a new connection in between; and a descriptor that no one yielded is watched exactly if it was, has not been
      closed, and has not been visited. */
  lemma ScanIsExact(b: Begin, acts: seq<Act>)
    requires Sane(b) && Allowed(b, Start(b), acts)
    ensures var s := Run(b, Start(b), acts);
      && Enumerates(Visited(s.log), Below(b.ready, s.idx))
      && (s.over && !s.failed ==> forall f <- b.ready :: f in Visited(s.log) || f in s.closed)
      && (forall i :: 0 <= i < |s.log| && s.log[i].0 != b.listenSck && s.log[i].1.Some? ==>
            ((s.log[i].0 in b.table && s.log[i].1 == Some(b.table[s.log[i].0])) <==> s.log[i].0 !in s.reused))
      && (forall i :: 0 <= i < |s.log| && s.log[i].0 != b.listenSck && s.log[i].0 in b.table ==>
            (s.log[i].1.Some? || s.log[i].0 in s.closed))
      && (forall f: nat :: f !in s.yielded ==>
            (f in s.watched <==> f in b.watched && f !in s.closed && (f == b.listenSck || f !in Visited(s.log))))
  {
    StartInv(b);
    RunKeepsInv(b, Start(b), acts);
    var s := Run(b, Start(b), acts);
    forall i | 0 <= i < |s.log| && s.log[i].0 != b.listenSck && s.log[i].1.Some?
      ensures (s.log[i].0 in b.table && s.log[i].1 == Some(b.table[s.log[i].0])) <==> s.log[i].0 !in s.reused
    {
      assert RightHandle(b, s, s.log[i].0, s.log[i].1);
    }
    forall i | 0 <= i < |s.log| && s.log[i].0 != b.listenSck && s.log[i].0 in b.table
      ensures s.log[i].1.Some? || s.log[i].0 in s.closed
    {
      assert RightHandle(b, s, s.log[i].0, s.log[i].1);
    }
    forall f: nat | f !in s.yielded
      ensures f in s.watched <==> f in b.watched && f !in s.closed && (f == b.listenSck || f !in Visited(s.log))
    {
      assert WatchOk(b, s, f);
    }
  }

  /** Turns of the scan itself among the steps. */
  function Turns(acts: seq<Act>): nat { if acts == [] then 0 else Turns(acts[1..]) + if acts[0].Advance? then 1 else 0 }

  /** However many descriptors others yield meanwhile, the scan ends after at most one turn more than there are
      numbers up to the greatest ready one. */
  lemma {:induction false} ScanEnds(b: Begin, s: Scan, acts: seq<Act>)
    requires Inv(b, s) && Allowed(b, s, acts) && Turns(acts) > Max(0, Greatest(b.ready) + 1 - s.idx)
    ensures Run(b, s, acts).over
    decreases |acts|
  {
    StepKeepsInv(b, s, acts[0]);
    var s' := Step(b, s, acts[0]);
    if acts[0].Advance? {
      if s.over || s'.over {
        OverStays(b, s', acts[1..]);
      } else {
        Unfinished(b, s);
        ScanEnds(b, s', acts[1..]);
      }
    } else {
      ScanEnds(b, s', acts[1..]);
    }
  }

  lemma Unfinished(b: Begin, s: Scan)
    requires LogOk(b, s) && |s.log| < |b.ready|
    ensures s.idx <= Greatest(b.ready)
  {
    if s.idx > Greatest(b.ready) {
      assert Below(b.ready, s.idx) == b.ready;
      Count(Visited(s.log), b.ready);
    }
  }

  lemma {:induction false} OverStays(b: Begin, s: Scan, acts: seq<Act>)
    requires s.over
    ensures Run(b, s, acts).over
    decreases |acts|
  {
    if acts != [] { OverStays(b, Step(b, s, acts[0]), acts[1..]); }
  }

  // With no one in between -----------------------------------------------------------------

  /** The log as what the scan puts in the queue. */
  function Queue(log: seq<(nat, Option<nat>)>, listenSck: int): seq<Event>
  {
    if log == [] then []
    else
      var (f, h) := log[|log| - 1];
      Queue(log[..|log| - 1], listenSck) +
      if h.None? then [] else if f == listenSck then [NewConnection(h.value)] else [Readable(h.value)]
  }

  function StateOf(b: Begin, s: Scan): ScanState {
    ScanState(s.watched, b.listenSck, s.table, Queue(s.log, b.listenSck))
  }

  /** What accept returns. */
  function Fd(accepted: Option<(nat, nat)>): int { if accepted.None? then -1 else accepted.value.0 }

  function NewOne(accepted: Option<(nat, nat)>): nat { if accepted.None? then 0 else accepted.value.1 }

  ghost predicate SoFar(b: Begin, s: Scan, accepted: Option<(nat, nat)>) {
    Scanned(Below(b.ready, s.idx), Visited(s.log), StateOf(b, Start(b)), StateOf(b, s), Fd(accepted), NewOne(accepted))
  }

  /** Visiting a descriptor does to set, table and queue what ConnTcp.Visit does. */
  lemma VisitIsClassVisit(b: Begin, s: Scan, accepted: Option<(nat, nat)>)
    requires s.idx == b.listenSck ==> accepted.Some?
    ensures var v, v' := StateOf(b, s), StateOf(b, Visit(b, s, accepted));
      && Visited(Visit(b, s, accepted).log) == Visited(s.log) + [s.idx]
      && v'.watched == v.watched - (if s.idx == b.listenSck then {} else {s.idx})
      && v'.table == (if s.idx == b.listenSck then v.table[accepted.value.0 := accepted.value.1] else v.table)
      && v'.queue == v.queue + if s.idx == b.listenSck then [NewConnection(accepted.value.1)]
                               else if s.idx in v.table then [Readable(v.table[s.idx])] else []
  {
    var s' := Visit(b, s, accepted);
    var last := s'.log[|s.log|];
    assert s'.log == s.log + [last] && s'.log[..|s.log|] == s.log;
    VisitedMore(s.log, last);
  }

  lemma VisitGoesOn(b: Begin, s: Scan, accepted: Option<(nat, nat)>)
    requires SoFar(b, s, accepted) && Fd(accepted) !in b.ready && s.idx in b.ready
    requires s.idx == b.listenSck ==> accepted.Some?
    ensures SoFar(b, Visit(b, s, accepted), accepted)
  {
    BelowNext(b.ready, s.idx);
    VisitIsClassVisit(b, s, accepted);
    var v' := StateOf(b, Visit(b, s, accepted));
    assert v' == ScanState(v'.watched, b.listenSck, v'.table, v'.queue);
    ScanNext(Below(b.ready, s.idx), Visited(s.log), StateOf(b, Start(b)), StateOf(b, s), v', Fd(accepted),
             NewOne(accepted), s.idx);
  }

  lemma SameSoFar(b: Begin, s: Scan, s': Scan, accepted: Option<(nat, nat)>)
    requires SoFar(b, s, accepted) && s'.log == s.log && s'.watched == s.watched && s'.table == s.table
    requires Below(b.ready, s'.idx) == Below(b.ready, s.idx)
    ensures SoFar(b, s', accepted)
  {
  }

  lemma TurnIsClassTurn(b: Begin, s: Scan, accepted: Option<(nat, nat)>)
    requires SoFar(b, s, accepted) && Fd(accepted) !in b.ready
    ensures SoFar(b, Step(b, s, Advance(accepted)), accepted)
  {
    BelowNext(b.ready, s.idx);
    var s' := Step(b, s, Advance(accepted));
    if s'.log == s.log {
      SameSoFar(b, s, s', accepted);
    } else {
      assert s' == Visit(b, s, accepted);
      VisitGoesOn(b, s, accepted);
    }
  }

  /** Undisturbed, these steps are the scan of ConnTcp::update as ConnTcps.ConnTcp.Update has it: the same descriptors
      visited, the same set, table and queue. */
  lemma {:induction false} UndisturbedIsUpdate(b: Begin, accepted: Option<(nat, nat)>, n: nat)
    requires Fd(accepted) !in b.ready
    ensures SoFar(b, Run(b, Start(b), seq(n, _ => Advance(accepted))), accepted)
  {
    assert Below(b.ready, 0) == {};
    TurnsAreUpdate(b, Start(b), accepted, n);
  }

  lemma {:induction false} TurnsAreUpdate(b: Begin, s: Scan, accepted: Option<(nat, nat)>, n: nat)
    requires SoFar(b, s, accepted) && Fd(accepted) !in b.ready
    ensures SoFar(b, Run(b, s, seq(n, _ => Advance(accepted))), accepted)
    decreases n
  {
    if n > 0 {
      TurnIsClassTurn(b, s, accepted);
      assert seq(n, _ => Advance(accepted))[1..] == seq(n - 1, _ => Advance(accepted));
      TurnsAreUpdate(b, Step(b, s, Advance(accepted)), accepted, n - 1);
    }
  }
}
