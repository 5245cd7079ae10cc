/** The first half of Manager::createTeam: from the participants string and the configuration to the team's size,
    this process's rank and the implementation, or to the reason why there is no team. */
module Teams {
  import opened Blocks

  datatype Component = Component(protocols: seq<string>, endpoints: seq<string>)

  datatype Impl = MPI | UCC | GENERIC

  datatype Outcome =
    | AlreadyCreated
    | MissingComponent
    | RootCannotListen
    | RootNotListed
    | NotEnabled(missing: Impl)
    | Plan(size: nat, rank: nat, impl: Impl)

  const SEP := ':'

  // The participants string ----------------------------------------------------------------

  /** Length of the piece before the first separator. */
  function Piece(s: string): (n: nat)
    ensures n <= |s| && (n < |s| ==> s[n] == SEP) && SEP !in s[..n]
  {
    if s == [] || s[0] == SEP then 0
    else
      assert s[..Piece(s[1..]) + 1] == [s[0]] + s[1..][..Piece(s[1..])];
      Piece(s[1..]) + 1
  }

  /** The tokens std::getline reads: a separator at the very end opens no further token. */
  function Split(s: string): seq<string>
  {
    if s == [] then []
    else
      var n := Piece(s);
      [s[..n]] + if n < |s| then Split(s[n + 1..]) else []
  }

  function Join(names: seq<string>): string
  {
    if names == [] then [] else if |names| == 1 then names[0] else names[0] + [SEP] + Join(names[1..])
  }

  predicate Plain(name: string) { SEP !in name }

  lemma PieceIs(s: string, n: nat)
    requires n <= |s| && (n == |s| || s[n] == SEP) && forall k :: 0 <= k < n ==> s[k] != SEP
    ensures Piece(s) == n
  {
  }

  lemma PieceOf(name: string, rest: string)
    requires Plain(name) && (rest == [] || rest[0] == SEP)
    ensures Piece(name + rest) == |name|
  {
    PieceIs(name + rest, |name|);
  }

  lemma SplitStep(name: string, rest: string)
    requires Plain(name)
    ensures Split(name + [SEP] + rest) == [name] + Split(rest)
  {
    var s := name + [SEP] + rest;
    PieceOf(name, [SEP] + rest);
    assert name + ([SEP] + rest) == s;
    assert s[..|name|] == name && s[|name| + 1..] == rest;
  }

  lemma SplitLast(name: string)
    requires Plain(name)
    ensures Split(name) == if name == [] then [] else [name]
  {
    PieceOf(name, []);
    assert name + [] == name;
  }

  /** A list of names survives being written with separators exactly when its last name is not empty; an empty last
      name is lost. */
  lemma {:induction false} SplitJoin(names: seq<string>)
    requires forall i :: 0 <= i < |names| ==> Plain(names[i])
    ensures Split(Join(names)) == names <==> names == [] || names[|names| - 1] != []
    ensures names != [] && names[|names| - 1] == [] ==> Split(Join(names)) == names[..|names| - 1]
    decreases |names|
  {
    if |names| == 1 {
      SplitLast(names[0]);
    } else if |names| > 1 {
      SplitStep(names[0], Join(names[1..]));
      SplitJoin(names[1..]);
      HeadAndTail(names[0], Split(Join(names[1..])), names);
      assert names[..|names| - 1] == [names[0]] + names[1..][..|names| - 2];
    }
  }

  lemma HeadAndTail(head: string, tail: seq<string>, names: seq<string>)
    requires names != [] && names[0] == head
    ensures [head] + tail == names <==> tail == names[1..]
  {
    if [head] + tail == names { assert ([head] + tail)[1..] == tail; }
    if tail == names[1..] { assert names == [names[0]] + names[1..]; }
  }

  // What every process works out -----------------------------------------------------------

  /** The last position of app, or 0. */
  function Rank(names: seq<string>, app: string): nat
  {
    if names == [] then 0
    else if names[|names| - 1] == app then |names| - 1
    else Rank(names[..|names| - 1], app)
  }

  function Offers(comps: map<string, Component>, name: string, protocol: string): bool {
    name in comps && protocol in comps[name].protocols
  }

  predicate AllOffer(comps: map<string, Component>, names: seq<string>, protocol: string) {
    forall i :: 0 <= i < |names| ==> Offers(comps, names[i], protocol)
  }

  predicate AllKnown(comps: map<string, Component>, names: seq<string>) {
    forall i :: 0 <= i < |names| ==> names[i] in comps
  }

  function Choose(comps: map<string, Component>, names: seq<string>): Impl {
    if AllOffer(comps, names, "MPI") then MPI else if AllOffer(comps, names, "UCX") then UCC else GENERIC
  }

  predicate Enabled(impl: Impl, mpi: bool, ucc: bool) { (impl == MPI ==> mpi) && (impl == UCC ==> ucc) }

  function Decide(comps: map<string, Component>, names: seq<string>, root: string, app: string, mpi: bool,
                  ucc: bool): Outcome {
    if !AllKnown(comps, names) then MissingComponent
    else if root !in comps || comps[root].endpoints == [] then RootCannotListen
    else if root !in names then RootNotListed
    else
      var impl := Choose(comps, names);
      if !Enabled(impl, mpi, ucc) then NotEnabled(impl) else Plan(|names|, Rank(names, app), impl)
  }

  predicate Distinct(names: seq<string>) { forall i, j :: 0 <= i < j < |names| ==> names[i] != names[j] }

  lemma {:induction false} RankFinds(names: seq<string>, app: string)
    ensures app in names ==> Rank(names, app) < |names| && names[Rank(names, app)] == app
    ensures app in names ==> forall i :: Rank(names, app) < i < |names| ==> names[i] != app
    ensures app !in names ==> Rank(names, app) == 0
  {
    if names != [] && names[|names| - 1] != app {
      var less := names[..|names| - 1];
      RankFinds(less, app);
      assert app in names <==> app in less by { assert names == less + [names[|names| - 1]]; }
      forall i | app in names && Rank(names, app) < i < |names| ensures names[i] != app {
        if i < |less| { assert names[i] == less[i]; }
      }
    }
  }

  /** The ranks the listed processes give themselves. */
  function RanksTaken(names: seq<string>): seq<nat> {
    seq(|names|, i requires 0 <= i < |names| => Rank(names, names[i]))
  }

  /** They number the team 0 .. size-1 if and only if no name is listed twice. */
  lemma RanksNumberTheTeam(names: seq<string>)
    ensures Ranking(RanksTaken(names), |names|) <==> Distinct(names)
  {
    var ranks := RanksTaken(names);
    forall i | 0 <= i < |names| ensures ranks[i] < |names| && names[ranks[i]] == names[i]
    { RankFinds(names, names[i]); }
    if !Distinct(names) {
      var i, j :| 0 <= i < j < |names| && names[i] == names[j];
      assert ranks[i] == ranks[j];
    }
  }

  /** Whatever the process, the verdict is the same, and so are size and implementation; with distinct names the
      process at position i of the list has rank i. */
  lemma EveryoneAgrees(comps: map<string, Component>, names: seq<string>, root: string, a: string, b: string,
                       mpi: bool, ucc: bool)
    ensures var x, y := Decide(comps, names, root, a, mpi, ucc), Decide(comps, names, root, b, mpi, ucc);
            && (x.Plan? <==> y.Plan?) && (!x.Plan? ==> x == y)
            && (x.Plan? ==> x.size == y.size == |names| > 0 && x.impl == y.impl)
            && (x.Plan? && a in names ==> x.rank < x.size && names[x.rank] == a)
            && (x.Plan? && a in names && b in names ==> (x.rank == y.rank <==> a == b))
  {
    RankFinds(names, a);
    RankFinds(names, b);
  }

  /** A process that is not listed takes the first listed process's rank. */
  lemma UnlistedCollides(names: seq<string>, app: string)
    requires names != [] && Distinct(names) && app !in names
    ensures Rank(names, app) == Rank(names, names[0])
  {
    RankFinds(names, app);
    RankFinds(names, names[0]);
  }

  /** The implementation chosen is one that every member can use, MPI before UCC. */
  lemma ChoiceIsShared(comps: map<string, Component>, names: seq<string>, i: nat)
    requires i < |names| && AllKnown(comps, names)
    ensures Choose(comps, names) == MPI ==> "MPI" in comps[names[i]].protocols
    ensures Choose(comps, names) == UCC ==> "UCX" in comps[names[i]].protocols
    ensures Choose(comps, names) != MPI ==> exists k :: 0 <= k < |names| && "MPI" !in comps[names[k]].protocols
    ensures Choose(comps, names) == GENERIC ==> exists k :: 0 <= k < |names| && "UCX" !in comps[names[k]].protocols
  {
    assert AllOffer(comps, names, "MPI") ==> Offers(comps, names[i], "MPI");
    assert AllOffer(comps, names, "UCX") ==> Offers(comps, names[i], "UCX");
    if !AllOffer(comps, names, "MPI") { var k :| 0 <= k < |names| && !Offers(comps, names[k], "MPI");
      assert names[k] in comps; }
    if !AllOffer(comps, names, "UCX") { var k :| 0 <= k < |names| && !Offers(comps, names[k], "UCX");
      assert names[k] in comps; }
  }

  /** The whole verdict, from the configuration and the build. A team forms if and only if everyone is configured, the
      root is and can listen, it is listed, and what everyone offers - MPI, or else UCX - is built in; each of the
      refusals, in this order, for the first of these that fails. */
  lemma VerdictExact(comps: map<string, Component>, names: seq<string>, root: string, app: string, mpi: bool, ucc: bool)
    ensures var d := Decide(comps, names, root, app, mpi, ucc);
            var known := forall i :: 0 <= i < |names| ==> names[i] in comps;
            var listens := root in comps && comps[root].endpoints != [];
            var all, ready := known && listens && root in names, OfferReady(comps, names, mpi, ucc);
            && (d.MissingComponent? <==> !known)
            && (d.RootCannotListen? <==> known && !listens)
            && (d.RootNotListed? <==> known && listens && root !in names)
            && (d.NotEnabled? <==> all && !ready)
            && (d.Plan? <==> all && ready)
    ensures var d := Decide(comps, names, root, app, mpi, ucc);
            && (d.NotEnabled? && d.missing == MPI ==> AllOffer(comps, names, "MPI") && !mpi)
            && (d.NotEnabled? && d.missing != MPI ==>
                  d.missing == UCC && !AllOffer(comps, names, "MPI") && AllOffer(comps, names, "UCX") && !ucc)
    ensures var d := Decide(comps, names, root, app, mpi, ucc);
            && (d.Plan? ==> d.size == |names|)
            && (d.Plan? && AllOffer(comps, names, "MPI") ==> d.impl == MPI)
            && (d.Plan? && !AllOffer(comps, names, "MPI") ==>
                  d.impl == if AllOffer(comps, names, "UCX") then UCC else GENERIC)
  {
  }

  /** What everyone offers is built in: MPI if everyone does, otherwise UCX if everyone does. */
  predicate OfferReady(comps: map<string, Component>, names: seq<string>, mpi: bool, ucc: bool) {
    && (AllOffer(comps, names, "MPI") ==> mpi)
    && (!AllOffer(comps, names, "MPI") && AllOffer(comps, names, "UCX") ==> ucc)
  }

  lemma OfferedByAll(comps: map<string, Component>, names: seq<string>, p: string)
    ensures AllOffer(comps, names, p) <==>
              forall i :: 0 <= i < |names| ==> names[i] in comps && p in comps[names[i]].protocols
  {
    if AllOffer(comps, names, p) {
      forall i | 0 <= i < |names| ensures names[i] in comps && p in comps[names[i]].protocols {
        assert Offers(comps, names[i], p);
      }
    }
  }

  /** A failed call can change the answer of a later one: looking up an unknown root enters it, and a team that
      lists this name is from then on refused no more than if it were configured, only without protocols. */
  lemma LookupPollutes(comps: map<string, Component>, names: seq<string>, root: string, name: string, app: string,
                       mpi: bool, ucc: bool)
    requires name in names && name !in comps && name != root
    requires forall i :: 0 <= i < |names| && names[i] != name ==> names[i] in comps
    ensures Decide(comps, names, root, app, mpi, ucc) == MissingComponent
    ensures var after := comps[name := Component([], [])];
            (Decide(after, names, root, app, mpi, ucc) == Plan(|names|, Rank(names, app), GENERIC))
            <==> (root in names && comps[root].endpoints != [])
  {
    var i :| 0 <= i < |names| && names[i] == name;
    var after := comps[name := Component([], [])];
    assert !AllKnown(comps, names) && AllKnown(after, names);
    assert !Offers(after, names[i], "MPI") && !Offers(after, names[i], "UCX");
    if root in names { assert root in comps; }
  }

  /** The tokens from position pos on, none past the end. */
  function From(s: string, pos: nat): seq<string> { if pos <= |s| then Split(s[pos..]) else [] }

  lemma LineAt(s: string, pos: nat, end: nat)
    requires pos < |s| && pos <= end <= |s| && (end == |s| || s[end] == SEP)
    requires forall k :: pos <= k < end ==> s[k] != SEP
    ensures From(s, pos) == [s[pos..end]] + From(s, end + 1)
  {
    PieceIs(s[pos..], end - pos);
    assert s[pos..][..end - pos] == s[pos..end];
    if end < |s| { assert s[pos..][end - pos + 1..] == s[end + 1..]; }
  }

  lemma Regroup(names: seq<string>, line: string, rest: seq<string>)
    ensures names + ([line] + rest) == names + [line] + rest
  {
  }

  lemma StillUnknown(comps: map<string, Component>, names: seq<string>, rest: seq<string>)
    requires !AllKnown(comps, names)
    ensures !AllKnown(comps, names + rest)
  {
    var i :| 0 <= i < |names| && names[i] !in comps;
    assert (names + rest)[i] == names[i];
  }

  lemma AtTheEnd(s: string, pos: nat, names: seq<string>)
    requires pos >= |s|
    ensures names + From(s, pos) == names
  {
  }

  /** What the loop's variables stand for. */
  predicate Summary(comps: map<string, Component>, names: seq<string>, root: string, app: string,
                    size: nat, rank: nat, mpi: bool, ucc: bool, rootOk: bool)
  {
    && size == |names| && rank == Rank(names, app) && rootOk == (root in names)
    && mpi == AllOffer(comps, names, "MPI") && ucc == AllOffer(comps, names, "UCX")
  }

  lemma OneMoreOffers(comps: map<string, Component>, names: seq<string>, line: string, p: string)
    ensures AllOffer(comps, names + [line], p) == (AllOffer(comps, names, p) && Offers(comps, line, p))
  {
    var more := names + [line];
    assert more[|names|] == line && forall i :: 0 <= i < |names| ==> more[i] == names[i];
    if AllOffer(comps, more, p) {
      assert Offers(comps, more[|names|], p);
      forall i | 0 <= i < |names| ensures Offers(comps, names[i], p) { assert Offers(comps, more[i], p); }
    }
  }

  lemma OneMore(comps: map<string, Component>, names: seq<string>, line: string, root: string, app: string,
                size: nat, rank: nat, mpi: bool, ucc: bool, rootOk: bool)
    requires Summary(comps, names, root, app, size, rank, mpi, ucc, rootOk) && AllKnown(comps, names) && size == |names|
    ensures AllKnown(comps, names + [line]) == (line in comps)
    ensures Summary(comps, names + [line], root, app, size + 1, if app == line then size else rank,
                    mpi && Offers(comps, line, "MPI"), ucc && Offers(comps, line, "UCX"), rootOk || root == line)
  {
    var more := names + [line];
    assert more[..|names|] == names && more[|names|] == line;
    OneMoreOffers(comps, names, line, "MPI");
    OneMoreOffers(comps, names, line, "UCX");
  }

  // In place -----------------------------------------------------------------------------

  class Planner {
    const appName: string
    const mpiEnabled: bool
    const uccEnabled: bool
    var components: map<string, Component>
    var createdTeams: set<string>

    constructor (appName: string, mpiEnabled: bool, uccEnabled: bool, components: map<string, Component>)
      ensures this.appName == appName && this.mpiEnabled == mpiEnabled && this.uccEnabled == uccEnabled
      ensures this.components == components && createdTeams == {}
    {
      this.appName, this.mpiEnabled, this.uccEnabled := appName, mpiEnabled, uccEnabled;
      this.components, createdTeams := components, {};
    }

    /** Where the line that starts at pos ends. */
    method FindEnd(s: string, pos: nat) returns (end: nat)
      requires pos < |s|
      ensures pos <= end <= |s| && (end < |s| ==> s[end] == SEP) && forall k :: pos <= k < end ==> s[k] != SEP
    {
      end := pos;
      while end < |s| && s[end] != SEP
        invariant pos <= end <= |s| && forall k :: pos <= k < end ==> s[k] != SEP
      {
        end := end + 1;
      }
    }

    /** std::getline from position pos of s. */
    method GetLine(s: string, pos: nat) returns (line: string, next: nat)
      requires pos < |s|
      ensures pos < next <= |s| + 1 && From(s, pos) == [line] + From(s, next)
      ensures line == s[pos..next - 1] && ':' !in line && (next <= |s| ==> s[next - 1] == ':')
    {
      var end := FindEnd(s, pos);
      LineAt(s, pos, end);
      line, next := s[pos..end], end + 1;
    }

    /** The body of the loop over the participants. */
    method Visit(line: string, root: string, size: nat, rank: nat, mpi: bool, ucc: bool, rootOk: bool,
                 ghost names: seq<string>)
      returns (known: bool, rank': nat, mpi': bool, ucc': bool, rootOk': bool)
      requires AllKnown(components, names) && Summary(components, names, root, appName, size, rank, mpi, ucc, rootOk)
      ensures known == (line in components) == AllKnown(components, names + [line])
      ensures known ==> Summary(components, names + [line], root, appName, size + 1, rank', mpi', ucc', rootOk')
    {
      OneMore(components, names, line, root, appName, size, rank, mpi, ucc, rootOk);
      rank', mpi', ucc', rootOk' := rank, mpi, ucc, rootOk;
      if appName == line { rank' := size; }
      if root == line { rootOk' := true; }
      known := line in components;
      if !known { return; }
      mpi' := mpi && "MPI" in components[line].protocols;
      ucc' := ucc && "UCX" in components[line].protocols;
    }

    /** The loop over the participants. */
    method Survey(participants: string, root: string) returns (known: bool, size: nat, rank: nat, mpi: bool,
                  ucc: bool, rootOk: bool)
      ensures known == AllKnown(components, Split(participants))
      ensures known ==> Summary(components, Split(participants), root, appName, size, rank, mpi, ucc, rootOk)
    {
      ghost var all, names: seq<string> := Split(participants), [];
      known, size, rank, mpi, ucc, rootOk := true, 0, 0, true, true, false;
      var pos := 0;
      while pos < |participants|
        invariant known && pos <= |participants| + 1 && all == names + From(participants, pos)
        invariant AllKnown(components, names) && Summary(components, names, root, appName, size, rank, mpi, ucc, rootOk)
        decreases |participants| + 1 - pos
      {
        var line, next := GetLine(participants, pos);
        Regroup(names, line, From(participants, next));
        known, rank, mpi, ucc, rootOk := Visit(line, root, size, rank, mpi, ucc, rootOk, names);
        names := names + [line];
        if !known {
          StillUnknown(components, names, From(participants, next));
          return;
        }
        size := size + 1;
        pos := next;
      }
      AtTheEnd(participants, pos, names);
    }

    /** Up to the point where the team's context is created. The team id is remembered even when the call fails,
        and looking the root up enters it in the configuration. */
    method CreateTeam(teamID: string, participants: string, root: string) returns (o: Outcome)
      modifies this
      ensures teamID in old(createdTeams) ==> o == AlreadyCreated && components == old(components)
      ensures createdTeams == old(createdTeams) + {teamID}
      ensures teamID !in old(createdTeams) ==> o == Decide(old(components),
            Split(participants), root, appName, mpiEnabled, uccEnabled)
      ensures teamID !in old(createdTeams) ==>
                components == if AllKnown(old(components), Split(participants)) && root !in old(components)
                              then old(components)[root := Component([], [])] else old(components)
    {
      if teamID in createdTeams { return AlreadyCreated; }
      createdTeams := createdTeams + {teamID};
      var known, size, rank, mpi, ucc, rootOk := Survey(participants, root);
      if !known { return MissingComponent; }
      if root !in components { components := components[root := Component([], [])]; }
      if components[root].endpoints == [] { return RootCannotListen; }
      if !rootOk { return RootNotListed; }
      var impl := if mpi then MPI else if ucc then UCC else GENERIC;
      if (impl == MPI && !mpiEnabled) || (impl == UCC && !uccEnabled) { return NotEnabled(impl); }
      o := Plan(size, rank, impl);
    }
  }
}
