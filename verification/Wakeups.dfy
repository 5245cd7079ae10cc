/** Roots that wait in createTeam on one condition variable: addinQ wakes one of them for each member that arrives,
    whichever it is. A root looks when it starts to wait and when it is woken, and at no other time. */
module Wakeups {
  import opened Handshakes
  import opened Managers

  /** waiting: the teams whose root is blocked. */
  datatype Room = Room(s: State, waiting: set<Team>)

  ghost predicate Formed(r: Room, sizes: map<Team, nat>) { r.waiting <= sizes.Keys && r.waiting !! r.s.teams.Keys }

  /** The root's condition holds. */
  predicate Complete(s: State, sizes: map<Team, nat>, team: Team) {
    team in sizes && team !in s.teams && team in s.groups && |s.groups[team]| + 1 == sizes[team]
  }

  /** A root that is awake looks, and waits if the others are not there. */
  function LookOrWait(r: Room, team: Team, sizes: map<Team, nat>): (r': Room)
    requires team in sizes
    ensures team in r'.s.teams <==> team in r.s.teams || (Complete(r.s, sizes, team) && sizes[team] > 0)
    ensures team in r'.waiting <==> team !in r'.s.teams
  {
    var s := LookFor(r.s, team, sizes[team]);
    Room(s, if team in s.teams then r.waiting - {team} else r.waiting + {team})
  }

  /** A member's connection arrives; woken is the root that notify_one picks, if one waits. */
  function Join(r: Room, id: nat, team: Team, woken: Team, sizes: map<Team, nat>): Room
    requires r.waiting <= sizes.Keys
  {
    var r1 := Room(AddInQ(r.s, id, true, Joins(team)), r.waiting);
    if woken in r.waiting then LookOrWait(r1, woken, sizes) else r1
  }

  /** What notify_one may do: wake some waiting root, and none only when none waits. */
  predicate MayWake(r: Room, woken: Team) { r.waiting != {} ==> woken in r.waiting }

  datatype Act = Enter(team: Team) | Member(id: nat, team: Team, woken: Team)

  predicate Possible(r: Room, a: Act, sizes: map<Team, nat>) {
    match a
    case Enter(team) => team in sizes && team !in r.waiting && team !in r.s.teams
    case Member(_, _, woken) => MayWake(r, woken)
  }

  function Step(r: Room, a: Act, sizes: map<Team, nat>): Room
    requires r.waiting <= sizes.Keys && Possible(r, a, sizes)
  {
    match a
    case Enter(team) => LookOrWait(r, team, sizes)
    case Member(id, team, woken) => Join(r, id, team, woken, sizes)
  }

  /** A root sleeps although all its members are there. */
  ghost predicate Stranded(r: Room, sizes: map<Team, nat>) { exists t <- r.waiting :: Complete(r.s, sizes, t) }

  lemma StepKeepsFormed(r: Room, a: Act, sizes: map<Team, nat>)
    requires Formed(r, sizes) && Possible(r, a, sizes)
    ensures Formed(Step(r, a, sizes), sizes)
  {
  }

  /** An arrival that leaves team incomplete wakes no one in vain. */
  lemma OthersAsBefore(r: Room, id: nat, team: Team, sizes: map<Team, nat>, t: Team)
    requires t != team
    ensures Complete(AddInQ(r.s, id, true, Joins(team)), sizes, t) == Complete(r.s, sizes, t)
  {
  }

  /** The members of team are all there with this one. */
  predicate Completes(r: Room, id: nat, team: Team, sizes: map<Team, nat>) {
    Complete(AddInQ(r.s, id, true, Joins(team)), sizes, team)
  }

  lemma WakeTheRight(r: Room, id: nat, team: Team, woken: Team, sizes: map<Team, nat>)
    requires Formed(r, sizes) && !Stranded(r, sizes) && MayWake(r, woken)
    ensures Stranded(Join(r, id, team, woken, sizes), sizes)
       <==> team in r.waiting && Completes(r, id, team, sizes) && woken != team
  {
    var s1 := AddInQ(r.s, id, true, Joins(team));
    var r' := Join(r, id, team, woken, sizes);
    forall t | t in r.waiting && t != team ensures !Complete(s1, sizes, t) { OthersAsBefore(r, id, team, sizes, t); }
    if team in r.waiting && Completes(r, id, team, sizes) && woken != team {
      assert team in r'.waiting && Complete(r'.s, sizes, team);
    }
    if Stranded(r', sizes) {
      var t :| t in r'.waiting && Complete(r'.s, sizes, t);
      assert t in r.waiting;
    }
  }

  /** The wake-up of an arrival is safe, whichever root is picked, if and only if the arrival does not complete a team
      whose root waits, or that root is the only one waiting. */
  lemma WakeupSafeIffAlone(r: Room, id: nat, team: Team, sizes: map<Team, nat>)
    requires Formed(r, sizes) && !Stranded(r, sizes)
    ensures (forall woken: Team :: MayWake(r, woken) ==> !Stranded(Join(r, id, team, woken, sizes), sizes))
       <==> (team in r.waiting && Completes(r, id, team, sizes) ==> r.waiting == {team})
  {
    forall woken: Team | MayWake(r, woken)
      ensures Stranded(Join(r, id, team, woken, sizes), sizes)
         <==> team in r.waiting && Completes(r, id, team, sizes) && woken != team
    {
      WakeTheRight(r, id, team, woken, sizes);
    }
    if team in r.waiting && Completes(r, id, team, sizes) && r.waiting != {team} {
      var other :| other in r.waiting && other != team;
      assert MayWake(r, other);
    }
  }

  ghost predicate Allowed(r: Room, acts: seq<Act>, sizes: map<Team, nat>)
    requires Formed(r, sizes)
    decreases |acts|
  {
    acts != [] ==>
      && Possible(r, acts[0], sizes) && |r.waiting| <= 1
      && (StepKeepsFormed(r, acts[0], sizes); Allowed(Step(r, acts[0], sizes), acts[1..], sizes))
  }

  ghost function Run(r: Room, acts: seq<Act>, sizes: map<Team, nat>): Room
    requires Formed(r, sizes) && Allowed(r, acts, sizes)
    decreases |acts|
  {
    if acts == [] then r
    else
      StepKeepsFormed(r, acts[0], sizes);
      Run(Step(r, acts[0], sizes), acts[1..], sizes)
  }

  /** While no more than one root of the process waits at a time, no root ever sleeps through its team's completion. */
  lemma {:induction false} OneRootIsNeverStranded(r: Room, acts: seq<Act>, sizes: map<Team, nat>)
    requires Formed(r, sizes) && !Stranded(r, sizes) && Allowed(r, acts, sizes)
    ensures !Stranded(Run(r, acts, sizes), sizes)
    decreases |acts|
  {
    if acts != [] {
      StepKeepsFormed(r, acts[0], sizes);
      match acts[0] {
        case Enter(team) => EnterStrandsNoOne(r, team, sizes);
        case Member(id, team, woken) =>
          WakeTheRight(r, id, team, woken, sizes);
          if team in r.waiting { OnlyOne(r.waiting, team, woken); }
      }
      OneRootIsNeverStranded(Step(r, acts[0], sizes), acts[1..], sizes);
    }
  }

  lemma EnterStrandsNoOne(r: Room, team: Team, sizes: map<Team, nat>)
    requires Formed(r, sizes) && !Stranded(r, sizes) && team in sizes
    ensures !Stranded(LookOrWait(r, team, sizes), sizes)
  {
    var r' := LookOrWait(r, team, sizes);
    forall t | t in r'.waiting ensures !Complete(r'.s, sizes, t) {
      if t != team { assert t in r.waiting; }
    }
  }

  lemma OnlyOne(s: set<Team>, a: Team, b: Team)
    requires |s| <= 1 && a in s && b in s
    ensures a == b
  {
    assert |s - {a}| == 0;
    assert b !in s - {a};
  }
}
