/** The Manager's queues: what becomes of each arriving connection, when a root obtains its team, and how a
    collective context travels between the polling thread and the user. Any number of teams, any interleaving of
    the polling thread, the roots' waiting calls and the user's calls. */
module Managers {
  import opened Wrappers
  import opened Framing
  import opened Bytes
  import opened Handshakes
  import opened Tcp

  // The machine --------------------------------------------------------------------------

  /** An entry of handleReady. */
  datatype Wrapper = Conn(id: nat, isNew: bool) | Ctx(ctx: nat)

  /** An arrival is what addinQ is called with: a new connection, or one that has become readable again. */
  datatype Event =
    | Arrive(id: nat, isNew: bool, peer: Peer)
    | Look(team: Team)
    | GetNext
    | Create(ctx: nat, canReceive: bool)
    | Poll(ctx: nat, found: bool)      // found: what poll answers
    | Yield(ctx: nat, readable: bool)  // through the user's readable wrapper, or through one that is not
    | Eos(ctx: nat)                    // the user reads the group's EOS through its readable wrapper
    | Lost(ctx: nat)                   // or finds the group's transport gone

  /** teams: what each root's createTeam has obtained. popped: what getNext has returned, in order.
      contexts[c]: the polling thread has c to itself. open: the contexts whose read side is open. held: the wrappers
      of contexts in user hands whose isReadable is set. stopped: the polling thread waits for a silent peer. */
  datatype State = State(
    ready: seq<Wrapper>, popped: seq<Wrapper>, groups: map<Team, seq<nat>>, teams: map<Team, seq<nat>>,
    contexts: map<nat, bool>, open: set<nat>, held: multiset<nat>, stopped: bool)

  function Empty(): State { State([], [], map[], map[], map[], {}, multiset{}, false) }

  /** addinQ. */
  function AddInQ(s: State, id: nat, isNew: bool, hello: Hello): State {
    if isNew && hello.Silent? then s.(stopped := true)
    else if isNew && hello.Broken? then s
    else if isNew && hello.Joins? then
      s.(groups := s.groups[hello.team := (if hello.team in s.groups then s.groups[hello.team] else []) + [id]])
    else s.(ready := s.ready + [Conn(id, isNew)])
  }

  /** createTeam at the root of a team of the given size looks whether the others are there. */
  function LookFor(s: State, team: Team, size: nat): State {
    if team !in s.teams && team in s.groups && |s.groups[team]| == size - 1 then
      s.(teams := s.teams[team := s.groups[team]], groups := s.groups - {team})
    else s
  }

  function PopReady(s: State): State {
    if s.ready == [] then s
    else
      var w := s.ready[0];
      s.(ready := s.ready[1..], popped := s.popped + [w], held := if w.Ctx? then s.held + multiset{w.ctx} else s.held)
  }

  /** The end of createTeam: the user gets a readable wrapper, even of a context that cannot receive and whose read
      side is closed from the start. */
  function AddContext(s: State, ctx: nat, canReceive: bool): State {
    if ctx in s.contexts then s
    else
      s.(contexts := s.contexts[ctx := false], open := if canReceive then s.open + {ctx} else s.open,
         held := s.held + multiset{ctx})
  }

  /** The polling thread looks at a context that it has to itself. */
  function PollContext(s: State, ctx: nat, found: bool): State {
    if !s.stopped && ctx in s.contexts && s.contexts[ctx] && found then
      s.(contexts := s.contexts[ctx := false], ready := s.ready + [Ctx(ctx)])
    else s
  }

  /** HandleUser::yield, whose wrapper is unreadable from then on, CollectiveContext::yield, which does nothing
      when the read side is closed, and releaseTeam. */
  function Release(s: State, ctx: nat, readable: bool): State {
    s.(contexts := if ctx in s.open && ctx in s.contexts then s.contexts[ctx := true] else s.contexts,
       held := if readable then s.held - multiset{ctx} else s.held)
  }

  /** HandleUser::probe at the end of the group's stream: the read side closes. At EOS the wrapper becomes unreadable;
      when the transport has gone (ECONNRESET) its flag stays as it was. */
  function EndRead(s: State, ctx: nat, eos: bool): State {
    if ctx in s.open && s.held[ctx] > 0 then
      s.(open := s.open - {ctx}, held := if eos then s.held - multiset{ctx} else s.held)
    else s
  }

  predicate OfContexts(e: Event) { !e.Arrive? && !e.Look? }

  /** The events that have to do with contexts, and getNext. */
  function ContextStep(s: State, e: Event): State
    requires OfContexts(e)
  {
    match e
    case GetNext => PopReady(s)
    case Create(ctx, canReceive) => AddContext(s, ctx, canReceive)
    case Poll(ctx, found) => PollContext(s, ctx, found)
    case Yield(ctx, readable) => if readable && s.held[ctx] == 0 then s else Release(s, ctx, readable)
    case Eos(ctx) => EndRead(s, ctx, true)
    case Lost(ctx) => EndRead(s, ctx, false)
  }

  function Step(s: State, e: Event, sizes: map<Team, nat>): State {
    match e
    case Arrive(id, isNew, peer) => if s.stopped then s else AddInQ(s, id, isNew, Handshake(peer))
    case Look(team) => if team in sizes then LookFor(s, team, sizes[team]) else s
    case _ => ContextStep(s, e)
  }

  function Run(es: seq<Event>, sizes: map<Team, nat>): State
  {
    if es == [] then Empty() else Step(Run(es[..|es| - 1], sizes), es[|es| - 1], sizes)
  }

  // Where every connection goes ----------------------------------------------------------

  /** The connections that the polling thread gets to, up to and without one that keeps silent, with what they said. */
  function Heard(es: seq<Event>): seq<(nat, bool, Hello)>
  {
    if es == [] then []
    else
      var before, e := es[..|es| - 1], es[|es| - 1];
      Heard(before) + if e.Arrive? && !Stopped(before) then [(e.id, e.isNew, Handshake(e.peer))] else []
  }

  /** Some new connection kept silent. */
  predicate Stopped(es: seq<Event>) {
    es != [] && (Stopped(es[..|es| - 1]) || Mute(es[|es| - 1]))
  }

  predicate Mute(e: Event) { e.Arrive? && e.isNew && Handshake(e.peer).Silent? }

  /** The connections that announced a team, and those for the user, in order of arrival. */
  function Announcing(heard: seq<(nat, bool, Hello)>, team: Team): seq<nat>
  {
    if heard == [] then []
    else
      var h := heard[|heard| - 1];
      Announcing(heard[..|heard| - 1], team) + if h.1 && h.2 == Joins(team) then [h.0] else []
  }

  function ForUser(heard: seq<(nat, bool, Hello)>): seq<Wrapper>
  {
    if heard == [] then []
    else
      var h := heard[|heard| - 1];
      ForUser(heard[..|heard| - 1]) + if !h.1 || h.2 == PointToPoint then [Conn(h.0, h.1)] else []
  }

  function Conns(ws: seq<Wrapper>): seq<Wrapper>
  {
    if ws == [] then [] else Conns(ws[..|ws| - 1]) + if ws[|ws| - 1].Conn? then [ws[|ws| - 1]] else []
  }

  function GroupOf(s: State, team: Team): seq<nat> { if team in s.groups then s.groups[team] else [] }

  function TeamOf(s: State, team: Team): seq<nat> { if team in s.teams then s.teams[team] else [] }

  ghost predicate TeamOk(s: State, heard: seq<(nat, bool, Hello)>, sizes: map<Team, nat>, team: Team) {
    && TeamOf(s, team) + GroupOf(s, team) == Announcing(heard, team)
    && (team in s.groups ==> s.groups[team] != [])
    && (team in s.teams ==> team in sizes && sizes[team] > 1 && |s.teams[team]| == sizes[team] - 1)
  }

  ghost predicate UserOk(s: State, heard: seq<(nat, bool, Hello)>) { Conns(s.popped + s.ready) == ForUser(heard) }

  lemma ConnsAppend(ws: seq<Wrapper>, w: Wrapper)
    ensures Conns(ws + [w]) == Conns(ws) + if w.Conn? then [w] else []
  {
    assert (ws + [w])[..|ws|] == ws;
  }

  lemma HeardMore(heard: seq<(nat, bool, Hello)>, h: (nat, bool, Hello), team: Team)
    ensures Announcing(heard + [h], team) == Announcing(heard, team) + if h.1 && h.2 == Joins(team) then [h.0] else []
    ensures ForUser(heard + [h]) == ForUser(heard) + if !h.1 || h.2 == PointToPoint then [Conn(h.0, h.1)] else []
  {
    assert (heard + [h])[..|heard|] == heard;
  }

  lemma ArrivalForTeam(s: State, id: nat, isNew: bool, hello: Hello, heard: seq<(nat, bool, Hello)>, sizes: map<Team,
                       nat>, team: Team)
    requires TeamOk(s, heard, sizes, team)
    ensures TeamOk(AddInQ(s, id, isNew, hello), heard + [(id, isNew, hello)], sizes, team)
  {
    HeardMore(heard, (id, isNew, hello), team);
  }

  lemma Appended(s: State, s': State, w: Wrapper)
    requires s'.popped == s.popped && s'.ready == s.ready + [w]
    ensures Conns(s'.popped + s'.ready) == Conns(s.popped + s.ready) + if w.Conn? then [w] else []
  {
    assert s'.popped + s'.ready == (s.popped + s.ready) + [w];
    ConnsAppend(s.popped + s.ready, w);
  }

  lemma ArrivalForUser(s: State, id: nat, isNew: bool, hello: Hello, heard: seq<(nat, bool, Hello)>)
    requires UserOk(s, heard)
    ensures UserOk(AddInQ(s, id, isNew, hello), heard + [(id, isNew, hello)])
  {
    HeardMore(heard, (id, isNew, hello), []);
    if !isNew || hello == PointToPoint { Appended(s, AddInQ(s, id, isNew, hello), Conn(id, isNew)); }
  }

  lemma LookForTeam(s: State, team': Team, size: nat, heard: seq<(nat, bool, Hello)>, sizes: map<Team, nat>, team: Team)
    requires TeamOk(s, heard, sizes, team) && team' in sizes && size == sizes[team']
    ensures TeamOk(LookFor(s, team', size), heard, sizes, team)
  {
  }

  lemma PopKeeps(s: State)
    ensures PopReady(s).popped + PopReady(s).ready == s.popped + s.ready
  {
  }

  lemma OtherForTeam(s: State, e: Event, heard: seq<(nat, bool, Hello)>, sizes: map<Team, nat>, team: Team)
    requires TeamOk(s, heard, sizes, team) && !e.Arrive?
    ensures TeamOk(Step(s, e, sizes), heard, sizes, team) && Step(s, e, sizes).stopped == s.stopped
  {
    match e
    case Look(t) => if t in sizes { LookForTeam(s, t, sizes[t], heard, sizes, team); }
    case _ =>
  }

  lemma OtherForUser(s: State, e: Event, heard: seq<(nat, bool, Hello)>, sizes: map<Team, nat>)
    requires UserOk(s, heard) && !e.Arrive?
    ensures UserOk(Step(s, e, sizes), heard)
  {
    match e
    case GetNext => PopKeeps(s);
    case Poll(ctx, m) => if PollContext(s, ctx, m) != s { Appended(s, PollContext(s, ctx, m), Ctx(ctx)); }
    case _ =>
  }

  /** In every run, whatever the interleaving: the connections that announced a team are, in order of arrival,
      those its root has obtained followed by those still waiting, and a root obtains size - 1 of them or none;
      the point-to-point connections, and the ones that became readable again, are those that getNext has
      returned followed by those in the queue, in order of arrival. */
  lemma {:induction false} EveryConnectionGoesHome(es: seq<Event>, sizes: map<Team, nat>, team: Team)
    ensures var s := Run(es, sizes);
      && TeamOf(s, team) + GroupOf(s, team) == Announcing(Heard(es), team)
      && (team in s.groups ==> s.groups[team] != [])
      && (team in s.teams ==> team in sizes && sizes[team] > 1 && |s.teams[team]| == sizes[team] - 1)
      && Conns(s.popped + s.ready) == ForUser(Heard(es))
      && s.stopped == Stopped(es)
  {
    if es != [] {
      var before, e := es[..|es| - 1], es[|es| - 1];
      EveryConnectionGoesHome(before, sizes, team);
      EventKeeps(Run(before, sizes), e, Heard(before), sizes, team);
      assert Heard(es) == HeardAfter(Run(before, sizes), e, Heard(before));
    }
  }

  function HeardAfter(s: State, e: Event, heard: seq<(nat, bool, Hello)>): seq<(nat, bool, Hello)> {
    if e.Arrive? && !s.stopped then heard + [(e.id, e.isNew, Handshake(e.peer))] else heard
  }

  lemma EventKeeps(s: State, e: Event, heard: seq<(nat, bool, Hello)>, sizes: map<Team, nat>, team: Team)
    requires TeamOk(s, heard, sizes, team) && UserOk(s, heard)
    ensures TeamOk(Step(s, e, sizes), HeardAfter(s, e, heard), sizes, team)
    ensures UserOk(Step(s, e, sizes), HeardAfter(s, e, heard))
    ensures Step(s, e, sizes).stopped == (s.stopped || Mute(e))
  {
    if !e.Arrive? {
      OtherForTeam(s, e, heard, sizes, team);
      OtherForUser(s, e, heard, sizes);
    } else if !s.stopped {
      ArrivalForTeam(s, e.id, e.isNew, Handshake(e.peer), heard, sizes, team);
      ArrivalForUser(s, e.id, e.isNew, Handshake(e.peer), heard);
    }
  }

  // When a team forms --------------------------------------------------------------------

  /** Some look of the root found exactly the others. */
  predicate FoundAll(es: seq<Event>, sizes: map<Team, nat>, team: Team) {
    team in sizes && sizes[team] > 1
    && exists k :: 0 <= k < |es| && es[k] == Look(team) && |Announcing(Heard(es[..k]), team)| == sizes[team] - 1
  }

  /** createTeam at the root returns if and only if it looks at a moment when size - 1 connections have announced
      the team; a team of one never forms, and neither does one that is announced too often between two looks. */
  lemma {:induction false} FormsIffFound(es: seq<Event>, sizes: map<Team, nat>, team: Team)
    ensures team in Run(es, sizes).teams <==> FoundAll(es, sizes, team)
  {
    if es != [] {
      var before, e := es[..|es| - 1], es[|es| - 1];
      FormsIffFound(before, sizes, team);
      FoundLater(es, sizes, team);
      EveryConnectionGoesHome(before, sizes, team);
      FormingStep(Run(before, sizes), e, Heard(before), sizes, team);
    }
  }

  lemma FoundLater(es: seq<Event>, sizes: map<Team, nat>, team: Team)
    requires es != []
    ensures var before, e := es[..|es| - 1], es[|es| - 1];
            FoundAll(es, sizes, team) <==>
              FoundAll(before, sizes, team)
              || (team in sizes && sizes[team] > 1 && e == Look(team) &&
                    |Announcing(Heard(before), team)| == sizes[team] - 1)
  {
    var before, n := es[..|es| - 1], |es| - 1;
    assert forall k :: 0 <= k < n ==> before[k] == es[k] && before[..k] == es[..k];
    assert es[..n] == before;
  }

  lemma FormingStep(s: State, e: Event, heard: seq<(nat, bool, Hello)>, sizes: map<Team, nat>, team: Team)
    requires TeamOk(s, heard, sizes, team)
    ensures team in Step(s, e, sizes).teams <==>
              team in s.teams || (team in sizes && sizes[team] > 1 && e == Look(team) &&
                    |Announcing(heard, team)| == sizes[team] - 1)
  {
  }

  /** With exactly size - 1 announcements, in any order and mixed with anything else, a root that still looks
      after the last one has exactly those connections. */
  lemma RootGetsItsTeam(es: seq<Event>, sizes: map<Team, nat>, team: Team, k: nat)
    requires team in sizes && sizes[team] > 1 && |Announcing(Heard(es), team)| == sizes[team] - 1
    requires k < |es| && es[k] == Look(team) && Announcing(Heard(es[..k]), team) == Announcing(Heard(es), team)
    ensures team in Run(es, sizes).teams && Run(es, sizes).teams[team] == Announcing(Heard(es), team)
    ensures team !in Run(es, sizes).groups
  {
    FormsIffFound(es, sizes, team);
    EveryConnectionGoesHome(es, sizes, team);
  }

  lemma TeamOfOneNeverForms(es: seq<Event>, sizes: map<Team, nat>, team: Team)
    requires team in sizes && sizes[team] <= 1
    ensures team !in Run(es, sizes).teams
  {
    FormsIffFound(es, sizes, team);
  }

  /** After a peer that connects and keeps silent no later arrival is taken in. */
  lemma {:induction false} SilenceStopsArrivals(es: seq<Event>, more: seq<Event>)
    requires Stopped(es)
    ensures Heard(es + more) == Heard(es) && Stopped(es + more)
    decreases |more|
  {
    if more == [] {
      assert es + more == es;
    } else {
      var less := more[..|more| - 1];
      SilenceStopsArrivals(es, less);
      assert (es + more)[..|es + more| - 1] == es + less;
    }
  }

  // From greetings to handles ------------------------------------------------------------

  /** What happens at a process: a peer that called connect (no team) or createTeam arrives, or any other event but a
      new connection. */
  datatype Item = Caller(id: nat, team: Option<Team>, rest: seq<byte>, leaves: bool, junk: seq<byte>) | Other(e: Event)

  predicate Proceeds(x: Item) {
    match x
    case Caller(_, team, _, _, _) => team.Some? ==> Sendable(team.value) && 0 !in team.value
    case Other(e) => e.Arrive? ==> !e.isNew
  }

  function AsEvent(x: Item): Event {
    match x
    case Caller(id, team, rest, leaves, junk) =>
      Arrive(id, true, Peer(Frames(Greeting(team)) + rest, leaves, junk))
    case Other(e) => e
  }

  function AsEvents(xs: seq<Item>): (es: seq<Event>)
    ensures |es| == |xs| && forall i :: 0 <= i < |es| ==> es[i] == AsEvent(xs[i])
  {
    seq(|xs|, i requires 0 <= i < |xs| => AsEvent(xs[i]))
  }

  /** The members of a team that have called, in order. */
  function Members(xs: seq<Item>, team: Team): seq<nat>
  {
    if xs == [] then []
    else
      var x := xs[|xs| - 1];
      Members(xs[..|xs| - 1], team) + if x.Caller? && x.team == Some(team) then [x.id] else []
  }

  lemma OneCaller(x: Item, team: Team)
    requires Proceeds(x)
    ensures var e := AsEvent(x);
            && !Mute(e)
            && ((e.Arrive? && e.isNew && Handshake(e.peer) == Joins(team)) <==> (x.Caller? && x.team == Some(team)))
            && (x.Caller? ==> e.id == x.id)
  {
    if x.Caller? {
      assert MAX_TEAM_ID < Pow256(HEADER);
      GreetingUnderstood(x.team, x.rest, x.leaves, x.junk);
    }
  }

  lemma AnnounceLast(es: seq<Event>, e: Event, team: Team)
    requires !Stopped(es)
    ensures Stopped(es + [e]) == Mute(e)
    ensures Announcing(Heard(es + [e]), team)
         == Announcing(Heard(es), team) + if e.Arrive? && e.isNew && Handshake(e.peer) == Joins(team)
                  then [e.id] else []
  {
    assert (es + [e])[..|es|] == es;
    if e.Arrive? {
      HeardMore(Heard(es), (e.id, e.isNew, Handshake(e.peer)), team);
    } else {
      assert Heard(es + [e]) == Heard(es);
    }
  }

  lemma {:induction false} CallersAnnounce(xs: seq<Item>, team: Team)
    requires forall i :: 0 <= i < |xs| ==> Proceeds(xs[i])
    ensures !Stopped(AsEvents(xs)) && Announcing(Heard(AsEvents(xs)), team) == Members(xs, team)
  {
    if xs != [] {
      var before, x := xs[..|xs| - 1], xs[|xs| - 1];
      CallersAnnounce(before, team);
      OneCaller(x, team);
      AnnounceLast(AsEvents(before), AsEvent(x), team);
      assert AsEvents(xs) == AsEvents(before) + [AsEvent(x)];
    }
  }

  /** From the bytes that connect and createTeam send to the root's handles: with size - 1 members calling in any order,
      among any other connections and events, a root that looks after the last of them has exactly their
      connections, in the order in which they came. */
  lemma TeamForms(xs: seq<Item>, sizes: map<Team, nat>, team: Team, k: nat)
    requires forall i :: 0 <= i < |xs| ==> Proceeds(xs[i])
    requires team in sizes && sizes[team] > 1 && |Members(xs, team)| == sizes[team] - 1
    requires k < |xs| && xs[k] == Other(Look(team)) && Members(xs[..k], team) == Members(xs, team)
    ensures team in Run(AsEvents(xs), sizes).teams && Run(AsEvents(xs), sizes).teams[team] == Members(xs, team)
  {
    CallersAnnounce(xs, team);
    CallersAnnounce(xs[..k], team);
    assert AsEvents(xs)[..k] == AsEvents(xs[..k]);
    RootGetsItsTeam(AsEvents(xs), sizes, team, k);
  }

  // What the poll finds --------------------------------------------------------------------

  /** What recv without waiting finds on a participant's connection: a byte, nothing, or the end of the stream. */
  datatype Found = Data | Nothing | Ended

  datatype Participant = ByTcp(found: Found) | ByShm(found: Found)

  /** A context as the polling thread finds it: whether a header is cached, and its participants' connections. */
  datatype View = View(probed: bool, parts: seq<Participant>)

  /** HandleTCP::peek makes a bool of what recv returns, -1 if nothing is there and 0 at the end; HandleSHM::peek is
      never true. */
  function Peek(p: Participant): bool { p.ByTcp? && !p.found.Ended? }

  predicate Peeked(v: View) { v.probed || exists i :: 0 <= i < |v.parts| && Peek(v.parts[i]) }

  /** CollectiveImpl::peek. */
  method PeekAny(parts: seq<Participant>) returns (b: bool)
    ensures b <==> exists i :: 0 <= i < |parts| && Peek(parts[i])
  {
    for i := 0 to |parts|
      invariant forall k :: 0 <= k < i ==> !Peek(parts[k])
    {
      if Peek(parts[i]) { return true; }
    }
    return false;
  }

  /** One pass over the contexts. */
  function PollEach(s: State, order: seq<nat>, views: nat -> View): State
  {
    if order == [] then s
    else
      var ctx := order[|order| - 1];
      PollContext(PollEach(s, order[..|order| - 1], views), ctx, Peeked(views(ctx)))
  }

  // In place -----------------------------------------------------------------------------

  /** A team's context as the reading side sees it. */
  class CollectiveContext {
    const id: nat
    const canReceive: bool
    var closedRd: bool

    constructor (id: nat, canReceive: bool)
      ensures this.id == id && this.canReceive == canReceive && closedRd == !canReceive
    {
      this.id, this.canReceive, closedRd := id, canReceive, !canReceive;
    }

    ghost predicate Known(m: Manager)
      reads this, m
    {
      id in m.contexts && (id in m.open <==> canReceive && !closedRd)
    }

    /** yield, called by a wrapper that has just become unreadable; readable says whether it was. */
    method Yield(m: Manager, ghost readable: bool)
      requires Known(m)
      modifies m`contexts, m`held
      ensures Known(m) && m.Now() == Release(old(m.Now()), id, readable)
    {
      m.DropWrapper(id, readable);
      if !closedRd && canReceive { m.ReleaseTeam(id); }
    }

    /** The end of the group's stream, read through the user's wrapper: EOS, or a transport that has gone. */
    method EndOfStream(m: Manager, eos: bool)
      requires Known(m) && canReceive && !closedRd && m.held[id] > 0
      modifies this`closedRd, m`open, m`held
      ensures Known(m) && closedRd && m.Now() == EndRead(old(m.Now()), id, eos)
    {
      closedRd := true;
      m.DropWrapper(id, eos);
      m.CloseRead(id);
    }
  }

  class Manager {
    var handleReady: seq<Wrapper>
    var groupsReady: map<Team, seq<nat>>
    var contexts: map<nat, bool>
    ghost var open: set<nat>
    ghost var popped: seq<Wrapper>
    ghost var teams: map<Team, seq<nat>>
    ghost var held: multiset<nat>

    constructor ()
      ensures Now() == Empty()
    {
      handleReady, groupsReady, contexts := [], map[], map[];
      open, popped, teams, held := {}, [], map[], multiset{};
    }

    ghost function Now(): State
      reads this
    {
      State(handleReady, popped, groupsReady, teams, contexts, open, held, false)
    }

    /** The stream of h holds all that the peer writes before it hangs up; junk is what a new buffer held. */
    method AddinQ(b: bool, h: HandleTCP, id: nat) returns (ghost junk: seq<byte>)
      requires b ==> h.inp.healthy
      modifies this, h.inp
      ensures Now() == AddInQ(old(Now()), id, b, Handshake(Peer(old(h.inp.bytes), true, junk)))
      ensures h.inp.bytes == if b then old(h.inp.bytes)[Taken(old(h.inp.bytes))..] else old(h.inp.bytes)
    {
      junk := [];
      if b {
        var r, teamID;
        r, teamID, junk := ConnectionHandshake(h);
        if r == -1 { return; }
        if teamID.Some? {
          var t := teamID.value;
          if t !in groupsReady { groupsReady := groupsReady[t := []]; }
          groupsReady := groupsReady[t := groupsReady[t] + [id]];
          return;
        }
      }
      handleReady := handleReady + [Conn(id, b)];
    }

    /** The condition that createTeam waits for at the root, and what it does when it holds. */
    method TakeTeam(teamID: Team, size: nat) returns (handles: Option<seq<nat>>)
      requires teamID !in teams
      modifies this
      ensures Now() == LookFor(old(Now()), teamID, size)
      ensures handles == if teamID in teams then Some(teams[teamID]) else None
    {
      if teamID !in groupsReady || |groupsReady[teamID]| != size - 1 { return None; }
      handles := Some(groupsReady[teamID]);
      groupsReady := groupsReady - {teamID};
      teams := teams[teamID := handles.value];
    }

    method GetNextReady() returns (w: Option<Wrapper>)
      modifies this
      ensures Now() == PopReady(old(Now()))
      ensures w == if old(handleReady) == [] then None else Some(old(handleReady[0]))
    {
      if handleReady == [] { return None; }
      w := Some(handleReady[0]);
      handleReady := handleReady[1..];
      popped := popped + [w.value];
      if w.value.Ctx? { held := held + multiset{w.value.ctx}; }
    }

    /** The polling thread's loop over the contexts, in the order given. */
    method PollAll(order: seq<nat>, views: nat -> View)
      modifies this
      ensures Now() == PollEach(old(Now()), order, views)
    {
      for i := 0 to |order|
        invariant Now() == PollEach(old(Now()), order[..i], views)
      {
        var ctx := order[i];
        if ctx in contexts && contexts[ctx] {
          var res := views(ctx).probed;
          if !res { res := PeekAny(views(ctx).parts); }
          if res {
            contexts := contexts[ctx := false];
            handleReady := handleReady + [Ctx(ctx)];
          }
        }
        assert order[..i + 1][..i] == order[..i];
      }
      assert order[..|order|] == order;
    }

    /** The end of createTeam. */
    method NewContext(ctx: CollectiveContext)
      requires ctx.id !in contexts && ctx.closedRd == !ctx.canReceive && ctx.id !in open
      modifies this`contexts, this`open, this`held
      ensures Now() == AddContext(old(Now()), ctx.id, ctx.canReceive) && ctx.Known(this)
    {
      contexts := contexts[ctx.id := false];
      if ctx.canReceive { open := open + {ctx.id}; }
      held := held + multiset{ctx.id};
    }

    method ReleaseTeam(ctx: nat)
      modifies this`contexts
      ensures contexts == if ctx in old(contexts) then old(contexts)[ctx := true] else old(contexts)
    {
      if ctx in contexts { contexts := contexts[ctx := true]; }
    }

    ghost method DropWrapper(ctx: nat, readable: bool)
      modifies this`held
      ensures held == if readable then old(held) - multiset{ctx} else old(held)
    {
      if readable { held := held - multiset{ctx}; }
    }

    ghost method CloseRead(ctx: nat)
      modifies this`open
      ensures open == old(open) - {ctx}
    {
      open := open - {ctx};
    }
  }
}
