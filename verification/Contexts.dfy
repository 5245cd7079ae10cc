/** Collective contexts in the Manager: who may read one, what every event does to it, and which ones the poll hands
    out. */
module Contexts {
  import opened Handshakes
  import opened Managers

  function InQueue(ws: seq<Wrapper>, ctx: nat): nat
  {
    if ws == [] then 0 else InQueue(ws[..|ws| - 1], ctx) + if ws[|ws| - 1] == Ctx(ctx) then 1 else 0
  }

  /** Who may read a context: wrappers with the user, which read nothing once the read side is closed; wrappers in the
      queue; and the polling thread. */
  function Readers(s: State, ctx: nat): nat {
    (if ctx in s.open then s.held[ctx] else 0) + InQueue(s.ready, ctx) + if Managed(s, ctx) then 1 else 0
  }

  predicate Managed(s: State, ctx: nat) { ctx in s.contexts && s.contexts[ctx] }

  /** A wrapper of ctx that is not readable yields only what the user could not read through it anyway. */
  predicate Proper(s: State, e: Event, ctx: nat) {
    e.Yield? && e.ctx == ctx && !e.readable ==> ctx !in s.open || Managed(s, ctx)
  }

  predicate ProperRun(es: seq<Event>, sizes: map<Team, nat>, ctx: nat) {
    es != [] ==> ProperRun(es[..|es| - 1], sizes, ctx) && Proper(Run(es[..|es| - 1], sizes), es[|es| - 1], ctx)
  }

  lemma QueueAppend(ws: seq<Wrapper>, w: Wrapper, ctx: nat)
    ensures InQueue(ws + [w], ctx) == InQueue(ws, ctx) + if w == Ctx(ctx) then 1 else 0
  {
    assert (ws + [w])[..|ws|] == ws;
  }

  lemma {:induction false} QueuePop(ws: seq<Wrapper>, ctx: nat)
    requires ws != []
    ensures InQueue(ws, ctx) == InQueue(ws[1..], ctx) + if ws[0] == Ctx(ctx) then 1 else 0
  {
    if |ws| > 1 {
      QueuePop(ws[..|ws| - 1], ctx);
      assert ws[1..][..|ws| - 2] == ws[..|ws| - 1][1..];
    } else {
      assert ws == [] + [ws[0]];
      QueueAppend([], ws[0], ctx);
    }
  }

  /** One reader while the read side is open, and none otherwise; and never two readable wrappers. */
  ghost predicate OneReader(s: State, ctx: nat) {
    && Readers(s, ctx) == (if ctx in s.open then 1 else 0)
    && s.held[ctx] + InQueue(s.ready, ctx) + (if Managed(s, ctx) then 1 else 0) <= 1
    && (ctx !in s.contexts ==> ctx !in s.open && s.held[ctx] == 0)
  }

  lemma ArriveReaders(s: State, id: nat, isNew: bool, hello: Hello, ctx: nat)
    requires OneReader(s, ctx)
    ensures OneReader(AddInQ(s, id, isNew, hello), ctx)
  {
    QueueAppend(s.ready, Conn(id, isNew), ctx);
  }

  lemma PopReaders(s: State, ctx: nat)
    requires OneReader(s, ctx)
    ensures OneReader(PopReady(s), ctx)
  {
    if s.ready != [] { QueuePop(s.ready, ctx); }
  }

  lemma OnePoll(s: State, c: nat, found: bool, ctx: nat)
    requires !s.stopped
    ensures var r := PollContext(s, c, found); var out := Managed(s, ctx) && c == ctx && found;
            && !r.stopped && (Managed(r, ctx) <==> Managed(s, ctx) && !out)
            && InQueue(r.ready, ctx) == InQueue(s.ready, ctx) + if out then 1 else 0
  {
    QueueAppend(s.ready, Ctx(c), ctx);
  }

  lemma CreateReaders(s: State, c: nat, canReceive: bool, ctx: nat)
    requires OneReader(s, ctx)
    ensures OneReader(AddContext(s, c, canReceive), ctx)
  {
  }

  lemma ReleaseReaders(s: State, c: nat, readable: bool, ctx: nat)
    requires OneReader(s, ctx) && (readable ==> s.held[c] > 0)
    requires c == ctx && !readable ==> ctx !in s.open || Managed(s, ctx)
    ensures OneReader(Release(s, c, readable), ctx)
  {
  }

  lemma EndReaders(s: State, c: nat, eos: bool, ctx: nat)
    requires OneReader(s, ctx)
    ensures OneReader(EndRead(s, c, eos), ctx)
  {
  }

  lemma ReadersStep(s: State, e: Event, sizes: map<Team, nat>, ctx: nat)
    requires Proper(s, e, ctx) && OneReader(s, ctx)
    ensures OneReader(Step(s, e, sizes), ctx)
  {
    match e
    case Arrive(id, isNew, peer) => if !s.stopped { ArriveReaders(s, id, isNew, Handshake(peer), ctx); }
    case GetNext => PopReaders(s, ctx);
    case Poll(c, found) => if !s.stopped { OnePoll(s, c, found, ctx); }
    case Create(c, canReceive) => CreateReaders(s, c, canReceive, ctx);
    case Yield(c, readable) => if readable ==> s.held[c] > 0 { ReleaseReaders(s, c, readable, ctx); }
    case Eos(c) => EndReaders(s, c, true, ctx);
    case Lost(c) => EndReaders(s, c, false, ctx);
    case Look(_) =>
  }

  /** In every run in which its unreadable wrappers do not yield: a context has exactly one reader while its read
      side is open - the polling thread, one entry of the ready queue, or one wrapper of the user - and none before,
      after, or if it cannot receive. At no time do two readable wrappers of it exist. */
  lemma {:induction false} OneReaderPerContext(es: seq<Event>, sizes: map<Team, nat>, ctx: nat)
    requires ProperRun(es, sizes, ctx)
    ensures Readers(Run(es, sizes), ctx) == if ctx in Run(es, sizes).open then 1 else 0
    ensures Run(es, sizes).held[ctx] + InQueue(Run(es, sizes).ready, ctx) <= 1
    ensures OneReader(Run(es, sizes), ctx)
  {
    if es != [] {
      OneReaderPerContext(es[..|es| - 1], sizes, ctx);
      ReadersStep(Run(es[..|es| - 1], sizes), es[|es| - 1], sizes, ctx);
    }
  }

  /** A yield keeps this if and only if it comes through the readable wrapper, or the read side is closed, or the
      polling thread has the context anyway; otherwise there are two readers. */
  lemma YieldNeedsAHolder(s: State, ctx: nat, readable: bool)
    requires OneReader(s, ctx) && (readable ==> s.held[ctx] > 0)
    ensures OneReader(Release(s, ctx, readable), ctx) <==> readable || ctx !in s.open || Managed(s, ctx)
    ensures !readable && ctx in s.open && !Managed(s, ctx) ==> Readers(Release(s, ctx, readable), ctx) == 2
  {
  }

  lemma StepKeepsClosed(s: State, e: Event, sizes: map<Team, nat>, ctx: nat)
    requires ctx in s.contexts && ctx !in s.open
    ensures ctx in Step(s, e, sizes).contexts && ctx !in Step(s, e, sizes).open
  {
  }

  /** A context that cannot receive, or whose stream has ended, has no reader and never gets one, whoever yields. */
  lemma {:induction false} ClosedStaysUnread(s: State, es: seq<Event>, sizes: map<Team, nat>, ctx: nat)
    requires OneReader(s, ctx) && ctx in s.contexts && ctx !in s.open
    ensures ctx !in Continue(s, es, sizes).open && Readers(Continue(s, es, sizes), ctx) == 0
    decreases |es|
  {
    if es != [] {
      ReadersStep(s, es[0], sizes, ctx);
      StepKeepsClosed(s, es[0], sizes, ctx);
      ClosedStaysUnread(Step(s, es[0], sizes), es[1..], sizes, ctx);
    }
  }

  function Continue(s: State, es: seq<Event>, sizes: map<Team, nat>): State
    decreases |es|
  {
    if es == [] then s else Continue(Step(s, es[0], sizes), es[1..], sizes)
  }

  // Every event's effect on a context ------------------------------------------------------

  /** createTeam makes the context. */
  predicate Creates(s: State, e: Event, ctx: nat) { e.Create? && e.ctx == ctx && ctx !in s.contexts }

  /** A user who may read it finds its stream over. */
  predicate Ends(s: State, e: Event, ctx: nat) {
    (e.Eos? || e.Lost?) && e.ctx == ctx && ctx in s.open && s.held[ctx] > 0
  }

  /** Where a context is: open for reading, with the polling thread, in how many wrappers of users, in the queue. */
  datatype Place = Place(open: bool, managed: bool, held: nat, queued: nat)

  function PlaceOf(s: State, ctx: nat): Place {
    Place(ctx in s.open, Managed(s, ctx), s.held[ctx], InQueue(s.ready, ctx))
  }

  /** A new context that can receive is open; the user has a wrapper of it whether or not. */
  lemma CreateExact(s: State, c: nat, canReceive: bool, ctx: nat)
    ensures var was, now := PlaceOf(s, ctx), PlaceOf(ContextStep(s, Create(c, canReceive)), ctx);
            now == if c == ctx && ctx !in s.contexts then Place(was.open || canReceive, false, was.held + 1, was.queued)
                   else was
  {
  }

  lemma GetNextExact(s: State, ctx: nat)
    ensures var was, now := PlaceOf(s, ctx), PlaceOf(ContextStep(s, GetNext), ctx);
            && (s.ready != [] && s.ready[0] == Ctx(ctx) ==>
                  was.queued > 0 && now == was.(held := was.held + 1, queued := was.queued - 1))
            && (s.ready == [] || s.ready[0] != Ctx(ctx) ==> now == was)
  {
    if s.ready != [] { QueuePop(s.ready, ctx); }
  }

  lemma PollExact(s: State, c: nat, found: bool, ctx: nat)
    ensures var was, now := PlaceOf(s, ctx), PlaceOf(ContextStep(s, Poll(c, found)), ctx);
            now == if c == ctx && found && was.managed && !s.stopped then
                     was.(managed := false, queued := was.queued + 1)
                   else was
  {
    QueueAppend(s.ready, Ctx(c), ctx);
  }

  /** A yield takes the user's reading wrapper away, if it comes through one, and gives the polling thread the context,
      if it is open. */
  lemma YieldExact(s: State, c: nat, readable: bool, ctx: nat)
    ensures var was, now := PlaceOf(s, ctx), PlaceOf(ContextStep(s, Yield(c, readable)), ctx);
            && (c == ctx && readable && was.held > 0 ==>
                  now == was.(held := was.held - 1, managed := was.managed || (was.open && ctx in s.contexts)))
            && (c == ctx && !readable ==> now == was.(managed := was.managed || (was.open && ctx in s.contexts)))
            && (c != ctx || (readable && was.held == 0) ==> now == was)
  {
  }

  /** The group's EOS closes the read side and takes the wrapper's flag away; a lost transport leaves the flag. */
  lemma EndExact(s: State, c: nat, eos: bool, ctx: nat)
    ensures var was, now := PlaceOf(s, ctx), PlaceOf(ContextStep(s, if eos then Eos(c) else Lost(c)), ctx);
            && (c == ctx && was.open && was.held > 0 ==>
                  now == was.(open := false, held := if eos then was.held - 1 else was.held))
            && (c != ctx || !was.open || was.held == 0 ==> now == was)
  {
  }

  /** Arrivals and looks are not about contexts. */
  lemma ArriveExact(s: State, id: nat, isNew: bool, hello: Hello, ctx: nat)
    ensures var r := AddInQ(s, id, isNew, hello); r.contexts == s.contexts && PlaceOf(r, ctx) == PlaceOf(s, ctx)
  {
    QueueAppend(s.ready, Conn(id, isNew), ctx);
  }

  lemma LookExact(s: State, team: Team, size: nat, ctx: nat)
    ensures var r := LookFor(s, team, size); r.contexts == s.contexts && PlaceOf(r, ctx) == PlaceOf(s, ctx)
  {
  }

  lemma OpenExact(s: State, e: Event, ctx: nat)
    requires OfContexts(e)
    ensures ctx in ContextStep(s, e).open <==>
              (ctx in s.open && !Ends(s, e, ctx)) || (Creates(s, e, ctx) && e.canReceive)
  {
  }

  /** Some event made the context, able to receive, and none since has ended its stream. */
  predicate StillReads(es: seq<Event>, sizes: map<Team, nat>, ctx: nat)
  {
    es != [] &&
    var before, e := es[..|es| - 1], es[|es| - 1];
    || (Creates(Run(before, sizes), e, ctx) && e.canReceive)
    || (StillReads(before, sizes, ctx) && !Ends(Run(before, sizes), e, ctx))
  }

  lemma {:induction false} OpenOverRun(es: seq<Event>, sizes: map<Team, nat>, ctx: nat)
    ensures ctx in Run(es, sizes).open <==> StillReads(es, sizes, ctx)
  {
    if es != [] {
      OpenOverRun(es[..|es| - 1], sizes, ctx);
      var s, e := Run(es[..|es| - 1], sizes), es[|es| - 1];
      match e
      case Arrive(id, isNew, peer) => ArriveExact(s, id, isNew, Handshake(peer), ctx);
      case Look(team) => if team in sizes { LookExact(s, team, sizes[team], ctx); }
      case _ => OpenExact(s, e, ctx);
    }
  }

  // What the poll is for --------------------------------------------------------------------

  predicate HasData(v: View) { exists i :: 0 <= i < |v.parts| && v.parts[i].found.Data? }

  /** What the poll is for. */
  predicate HasSomething(v: View) { v.probed || HasData(v) }

  /** A pass hands out, once, exactly the contexts of the polling thread's for which poll answers yes. */
  lemma {:induction false} PassIsExact(s: State, order: seq<nat>, views: nat -> View, ctx: nat)
    requires !s.stopped
    ensures var r := PollEach(s, order, views); var out := Managed(s, ctx) && ctx in order && Peeked(views(ctx));
            && !r.stopped && (Managed(r, ctx) <==> Managed(s, ctx) && !out)
            && InQueue(r.ready, ctx) == InQueue(s.ready, ctx) + if out then 1 else 0
  {
    if order != [] {
      var before, c := order[..|order| - 1], order[|order| - 1];
      PassIsExact(s, before, views, ctx);
      assert ctx in order <==> ctx in before || ctx == c;
      OnePoll(PollEach(s, before, views), c, Peeked(views(c)), ctx);
    }
  }

  predicate HandedOut(s: State, order: seq<nat>, views: nat -> View, ctx: nat) {
    InQueue(PollEach(s, order, views).ready, ctx) > InQueue(s.ready, ctx)
  }

  predicate Waits(s: State, order: seq<nat>, ctx: nat) { Managed(s, ctx) && ctx in order }

  /** Nothing to read, and some TCP participant that is silent but has not ended. */
  predicate OnlySilence(v: View) {
    !v.probed && !HasData(v) && exists i :: 0 <= i < |v.parts| && v.parts[i] == ByTcp(Nothing)
  }

  /** Something to read, but on shared memory only, and every TCP participant has ended. */
  predicate Unheard(v: View) {
    !v.probed && HasData(v) && forall i :: 0 <= i < |v.parts| && v.parts[i].ByTcp? ==> v.parts[i].found.Ended?
  }

  lemma PeekMisleads(v: View)
    ensures Peeked(v) && !HasSomething(v) <==> OnlySilence(v)
    ensures HasSomething(v) && !Peeked(v) <==> Unheard(v)
  {
    if i :| 0 <= i < |v.parts| && Peek(v.parts[i]) && !HasData(v) { assert v.parts[i] == ByTcp(Nothing); }
    if i :| 0 <= i < |v.parts| && v.parts[i] == ByTcp(Nothing) { assert Peek(v.parts[i]); }
    if !Peeked(v) {
      forall i | 0 <= i < |v.parts| && v.parts[i].ByTcp? ensures v.parts[i].found.Ended? {
        assert !Peek(v.parts[i]);
      }
    }
  }

  /** A pass hands out only contexts that have something to read if and only if it meets none whose participants are
      only silent; and it hands out all of those if and only if it meets none whose messages are unheard. */
  lemma HandedOutHasSomething(s: State, order: seq<nat>, views: nat -> View)
    requires !s.stopped
    ensures (forall ctx: nat :: HandedOut(s, order, views, ctx) ==> HasSomething(views(ctx)))
       <==> (forall ctx: nat :: Waits(s, order, ctx) ==> !OnlySilence(views(ctx)))
    ensures (forall ctx: nat :: Waits(s, order, ctx) && HasSomething(views(ctx)) ==> HandedOut(s, order, views, ctx))
       <==> (forall ctx: nat :: Waits(s, order, ctx) ==> !Unheard(views(ctx)))
  {
    forall ctx: nat
      ensures HandedOut(s, order, views, ctx) <==> Waits(s, order, ctx) && Peeked(views(ctx))
      ensures Peeked(views(ctx)) && !HasSomething(views(ctx)) <==> OnlySilence(views(ctx))
      ensures HasSomething(views(ctx)) && !Peeked(views(ctx)) <==> Unheard(views(ctx))
    {
      PassIsExact(s, order, views, ctx);
      PeekMisleads(views(ctx));
    }
  }
}
