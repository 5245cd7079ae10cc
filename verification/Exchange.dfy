/** Team set-up exchanges: UCCCollective::oob_allgather and the rank exchange of the MPICollective constructor.
    The root and the members run as separate processes; every send or receive is one step, and between them run
    two FIFO queues per member, down from the root and up to it. */
module Exchange {
  import opened Wrappers
  import opened Bytes
  import opened Blocks

  datatype Kind = Oob | Mpi

  /** ranks[j] is the rank of the root's j-th handle. In round r of the oob exchange the process of rank p
      contributes data[r][p] and the root's rbuf holds bufs[r] before the call; of the MPI exchange only
      the root's array before the call is used. */
  datatype Config = Config(kind: Kind, rootRank: nat, ranks: seq<nat>, size: nat, data: seq<seq<Msg>>, bufs:
  seq<seq<byte>>)
  {
    function Rounds(): nat { |bufs| }
    /** Messages a member sends in a round: its rank and its block, or its rank alone. */
    function Replies(): nat { if kind == Oob then 2 else 1 }
    /** Length of one entry of the root's buffer. */
    function Unit(): nat { if kind == Oob then size else INT }
    /** Entry of the buffer that the j-th handle's contribution goes to. */
    function Spots(): seq<nat> { if kind == Oob then ranks else seq(|ranks|, j requires j >= 0 => j + 1) }
    function RootSpot(): nat { if kind == Oob then rootRank else 0 }
  }

  function RankList(c: Config): seq<Msg> {
    [Encode(c.rootRank, INT)] + seq(|c.ranks|, j requires 0 <= j < |c.ranks| => Encode(c.ranks[j], INT))
  }

  /** The entries every process must end round r with. */
  function Table(c: Config, r: nat): seq<Msg>
    requires r < c.Rounds() && (c.kind == Oob ==> |c.data| == c.Rounds())
  {
    if c.kind == Oob then c.data[r] else RankList(c)
  }

  ghost predicate WellFormed(c: Config) {
    && c.rootRank < Pow256(INT) && (forall j :: 0 <= j < |c.ranks| ==> c.ranks[j] < Pow256(INT))
    && (c.kind == Oob ==>
          && c.size > 0 && Ranking(c.ranks + [c.rootRank], |c.ranks| + 1) && |c.data| == c.Rounds()
          && forall r :: 0 <= r < c.Rounds() ==> |c.data[r]| == |c.ranks| + 1 && Uniform(c.data[r], c.size))
    && (forall r :: 0 <= r < c.Rounds() ==> |c.bufs[r]| == At(|c.ranks| + 1, c.Unit()))
  }

  /** What the rest of the proof needs of a table: one entry a process, in place and of the common length. */
  lemma TableShape(c: Config, r: nat)
    requires WellFormed(c) && r < c.Rounds()
    ensures |Table(c, r)| == |c.ranks| + 1 && Uniform(Table(c, r), c.Unit()) && c.Unit() > 0
    ensures |c.Spots()| == |c.ranks| && Ranking(c.Spots() + [c.RootSpot()], |c.ranks| + 1)
    ensures c.RootSpot() < |Table(c, r)| && forall j :: 0 <= j < |c.Spots()| ==> c.Spots()[j] < |Table(c, r)|
  {
    var all := c.Spots() + [c.RootSpot()];
    assert all[|c.ranks|] == c.RootSpot();
    forall j | 0 <= j < |c.Spots()| ensures c.Spots()[j] < |c.ranks| + 1 { assert all[j] == c.Spots()[j]; }
  }

  // The machine --------------------------------------------------------------------------

  datatype Pc = Collect(i: nat, sub: nat) | Cast(i: nat)

  /** Collect(i, 0): about to send its rank to handle i; Collect(i, s): waiting for that member's s-th message;
      Cast(i): about to send the buffer to handle i. spot: the last remote rank received. */
  datatype Root = Root(round: nat, pc: Pc, spot: nat, buf: seq<byte>, results: seq<seq<byte>>)

  /** sub 0: waiting for the root's rank; 1 .. Replies: about to send that message; then waiting for the result. */
  datatype Member = Member(round: nat, sub: nat, rootRank: Option<nat>, results: seq<seq<byte>>)

  /** fault: a receive failed or would have written outside its buffer. The machine stops there. */
  datatype State = State(root: Root, members: seq<Member>, down: seq<seq<Msg>>, up: seq<seq<Msg>>, fault: bool)

  datatype Actor = TheRoot | Peer(j: nat)

  ghost predicate Shaped(c: Config, g: State) {
    WellFormed(c) && |g.members| == |g.down| == |g.up| == |c.ranks|
  }

  /** The root's buffer when a round starts: the MPI root writes its own rank first. */
  function Begin(c: Config, r: nat): (b: seq<byte>)
    requires WellFormed(c)
    ensures r < c.Rounds() ==> |b| == At(|c.ranks| + 1, c.Unit())
  {
    if r >= c.Rounds() then [] else
    if c.kind == Oob then c.bufs[r] else
      SlotBound(0, |c.ranks| + 1, INT);
      Place(c.bufs[r], At(0, INT), Encode(c.rootRank, INT))
  }

  function Start(c: Config): State
    requires WellFormed(c)
  {
    State(Root(0, Collect(0, 0), 0, Begin(c, 0), []),
          seq(|c.ranks|, j => Member(0, 0, None, [])), seq(|c.ranks|, j => []), seq(|c.ranks|, j => []), false)
  }

  function Push(qs: seq<seq<Msg>>, j: nat, m: Msg): seq<seq<Msg>>
    requires j < |qs|
  {
    qs[j := qs[j] + [m]]
  }

  function Pop(qs: seq<seq<Msg>>, j: nat): seq<seq<Msg>>
    requires j < |qs| && qs[j] != []
  {
    qs[j := qs[j][1..]]
  }

  /** receiveFromHandle fails on an EOS and on a message larger than the buffer. */
  predicate Fails(m: Msg, cap: nat) { m == [] || |m| > cap }

  /** The root receives the sub-th message of handle i. */
  ghost function RootTakes(c: Config, g: State, i: nat, sub: nat): State
    requires Shaped(c, g) && i < |c.ranks| && g.up[i] != []
  {
    var m, g' := g.up[i][0], g.(up := Pop(g.up, i));
    if Fails(m, if c.kind == Oob && sub == 2 then c.size else INT) then g'.(fault := true)
    else if c.kind == Oob && sub == 1 then g'.(root := g.root.(pc := Collect(i, 2), spot := Decode(m)))
    else
      var off := At(if c.kind == Oob then g.root.spot else i + 1, c.Unit());
      if off + |m| > |g.root.buf| then g'.(fault := true)
      else g'.(root := g.root.(pc := Collect(i + 1, 0), buf := Place(g.root.buf, off, m)))
  }

  /** After the last member the oob root copies its own block in; the MPI root has done so already. */
  ghost function RootOwn(c: Config, g: State): State
    requires Shaped(c, g) && g.root.round < c.Rounds()
  {
    var off := At(c.RootSpot(), c.Unit());
    TableShape(c, g.root.round);
    var own := Table(c, g.root.round)[c.RootSpot()];
    if c.kind == Mpi then g.(root := g.root.(pc := Cast(0)))
    else if off + |own| > |g.root.buf| then g.(fault := true)
    else g.(root := g.root.(pc := Cast(0), buf := Place(g.root.buf, off, own)))
  }

  ghost function RootStep(c: Config, g: State): State
    requires Shaped(c, g)
  {
    if g.fault || g.root.round >= c.Rounds() then g else
    match g.root.pc
    case Collect(i, sub) =>
      if i >= |c.ranks| then RootOwn(c, g)
      else if sub == 0 then g.(root := g.root.(pc := Collect(i, 1)), down := Push(g.down, i, Encode(c.rootRank, INT)))
      else if g.up[i] == [] then g
      else RootTakes(c, g, i, sub)
    case Cast(i) =>
      if i < |c.ranks| then g.(root := g.root.(pc := Cast(i + 1)), down := Push(g.down, i, g.root.buf))
      else g.(root := Root(g.root.round + 1, Collect(0, 0), g.root.spot, Begin(c, g.root.round + 1),
                     g.root.results + [g.root.buf]))
  }

  /** The s-th message (from 1) that the member of handle j sends in round r. */
  function Reply(c: Config, j: nat, r: nat, s: nat): Msg
    requires WellFormed(c) && j < |c.ranks| && r < c.Rounds()
  {
    TableShape(c, r);
    if c.kind == Oob && s == 1 then Encode(c.ranks[j], INT) else Table(c, r)[c.Spots()[j]]
  }

  ghost function MemberStep(c: Config, g: State, j: nat): State
    requires Shaped(c, g) && j < |c.ranks|
  {
    var m := g.members[j];
    if g.fault || m.round >= c.Rounds() then g
    else if 1 <= m.sub <= c.Replies() then
      g.(members := g.members[j := m.(sub := m.sub + 1)], up := Push(g.up, j, Reply(c, j, m.round, m.sub)))
    else if g.down[j] == [] then g
    else
      var x, g' := g.down[j][0], g.(down := Pop(g.down, j));
      if Fails(x, if m.sub == 0 then INT else At(|c.ranks| + 1, c.Unit())) then g'.(fault := true)
      else if m.sub == 0 then g'.(members := g.members[j := m.(sub := 1, rootRank := Some(Decode(x)))])
      else g'.(members := g.members[j := Member(m.round + 1, 0, m.rootRank, m.results + [x])])
  }

  ghost function Step(c: Config, g: State, a: Actor): (g': State)
    requires Shaped(c, g)
    ensures Shaped(c, g')
  {
    match a
    case TheRoot => RootStep(c, g)
    case Peer(j) => if j < |c.ranks| then MemberStep(c, g, j) else g
  }

  ghost function Run(c: Config, g: State, turns: seq<Actor>): (g': State)
    requires Shaped(c, g)
    ensures Shaped(c, g')
    decreases |turns|
  {
    if turns == [] then g else Run(c, Step(c, g, turns[0]), turns[1..])
  }

  // One link -----------------------------------------------------------------------------

  /** How far one side of a link has got: phase 0 before the root's rank, s once it has passed and the s-th reply is
      next, and past the last reply only the result is missing. */
  datatype Pos = Pos(round: nat, phase: nat)

  function RootPos(c: Config, root: Root, j: nat): Pos {
    var last := c.Replies() + 1;
    match root.pc
    case Collect(i, sub) => Pos(root.round, if j < i then last else if j == i then sub else 0)
    case Cast(i) => if j < i then Pos(root.round + 1, 0) else Pos(root.round, last)
  }

  function MemberPos(m: Member): Pos { Pos(m.round, m.sub) }

  function Result(c: Config, r: nat): seq<byte>
    requires WellFormed(c) && r < c.Rounds()
  {
    Flatten(Table(c, r))
  }

  /** Replies from the a-th up to, not including, the b-th. */
  function Sent(c: Config, j: nat, r: nat, a: nat, b: nat): (ms: seq<Msg>)
    requires WellFormed(c) && j < |c.ranks| && r < c.Rounds() && a <= b
    ensures |ms| == b - a
  {
    seq(b - a, s requires 0 <= s < b - a => Reply(c, j, r, a + s))
  }

  function RankMsg(c: Config): Msg { Encode(c.rootRank, INT) }

  /** The root is at most one step of the exchange ahead of the member, or the member has replies under way. */
  predicate InStep(c: Config, p: Pos, m: Pos) {
    var last := c.Replies() + 1;
    if p.round == m.round then
      (p.phase <= 1 && m.phase == 0) || (p.round < c.Rounds() && 1 <= p.phase <= m.phase <= last)
    else
      p.round == m.round + 1 <= c.Rounds() && p.phase <= 1 && m.phase == last
  }

  /** What is on its way down then, and up. */
  function DownNow(c: Config, p: Pos, m: Pos): seq<Msg>
    requires WellFormed(c) && InStep(c, p, m)
  {
    (if p.round == m.round + 1 then [Result(c, m.round)] else [])
    + (if p.phase == 1 && (m.phase == 0 || p.round == m.round + 1) then [RankMsg(c)] else [])
  }

  function UpNow(c: Config, j: nat, p: Pos, m: Pos): seq<Msg>
    requires WellFormed(c) && InStep(c, p, m) && j < |c.ranks|
  {
    if p.round == m.round && 1 <= p.phase <= m.phase then Sent(c, j, p.round, p.phase, m.phase) else []
  }

  ghost predicate LinkOk(c: Config, j: nat, p: Pos, m: Pos, down: seq<Msg>, up: seq<Msg>)
    requires WellFormed(c) && j < |c.ranks|
  {
    InStep(c, p, m) && down == DownNow(c, p, m) && up == UpNow(c, j, p, m)
  }

  lemma Ask(c: Config, j: nat, p: Pos, m: Pos, down: seq<Msg>, up: seq<Msg>)
    requires WellFormed(c) && j < |c.ranks| && LinkOk(c, j, p, m, down, up) && p.phase == 0
    ensures LinkOk(c, j, Pos(p.round, 1), m, down + [RankMsg(c)], up)
  {
  }

  lemma Take(c: Config, j: nat, p: Pos, m: Pos, down: seq<Msg>, up: seq<Msg>)
    requires WellFormed(c) && j < |c.ranks| && LinkOk(c, j, p, m, down, up) && p.phase > 0 && up != []
    ensures p.round < c.Rounds() && p.phase <= c.Replies() && up[0] == Reply(c, j, p.round, p.phase)
    ensures LinkOk(c, j, Pos(p.round, p.phase + 1), m, down, up[1..])
  {
  }

  lemma CastOut(c: Config, j: nat, p: Pos, m: Pos, down: seq<Msg>, up: seq<Msg>)
    requires WellFormed(c) && j < |c.ranks| && LinkOk(c, j, p, m, down, up) && p.phase == c.Replies() + 1
    ensures p.round < c.Rounds() && LinkOk(c, j, Pos(p.round + 1, 0), m, down + [Result(c, p.round)], up)
  {
  }

  lemma Hear(c: Config, j: nat, p: Pos, m: Pos, down: seq<Msg>, up: seq<Msg>)
    requires WellFormed(c) && j < |c.ranks| && LinkOk(c, j, p, m, down, up) && m.phase == 0 && down != []
    requires m.round < c.Rounds()
    ensures !Fails(down[0], INT) && Decode(down[0]) == c.rootRank && LinkOk(c, j, p, Pos(m.round, 1), down[1..], up)
  {
    DecodeEncode(c.rootRank, INT);
  }

  lemma Say(c: Config, j: nat, p: Pos, m: Pos, down: seq<Msg>, up: seq<Msg>)
    requires WellFormed(c) && j < |c.ranks| && LinkOk(c, j, p, m, down, up) && 1 <= m.phase <= c.Replies()
    ensures m.round < c.Rounds()
    ensures LinkOk(c, j, p, Pos(m.round, m.phase + 1), down, up + [Reply(c, j, m.round, m.phase)])
  {
    assert Sent(c, j, p.round, p.phase, m.phase + 1)
      == Sent(c, j, p.round, p.phase, m.phase) + [Reply(c, j, m.round, m.phase)];
  }

  lemma Learn(c: Config, j: nat, p: Pos, m: Pos, down: seq<Msg>, up: seq<Msg>)
    requires WellFormed(c) && j < |c.ranks| && LinkOk(c, j, p, m, down, up) && m.phase == c.Replies() + 1 && down != []
    ensures m.round < c.Rounds() && down[0] == Result(c, m.round) && LinkOk(c, j, p, Pos(m.round + 1, 0), down[1..], up)
  {
  }

  // The invariant ------------------------------------------------------------------------

  function Results(c: Config, r: nat): (rs: seq<seq<byte>>)
    requires WellFormed(c) && r <= c.Rounds()
    ensures |rs| == r
  {
    if r == 0 then [] else Results(c, r - 1) + [Result(c, r - 1)]
  }

  /** The round's buffer once the first i members' entries are in. */
  function Filled(c: Config, r: nat, i: nat): (b: seq<byte>)
    requires WellFormed(c) && r < c.Rounds() && i <= |c.ranks|
    ensures |b| == At(|c.ranks| + 1, c.Unit())
  {
    TableShape(c, r);
    Assemble(Begin(c, r), c.Spots(), Table(c, r), c.Unit(), i)
  }

  ghost predicate RootOk(c: Config, root: Root)
    requires WellFormed(c)
  {
    && root.round <= c.Rounds() && root.results == Results(c, root.round)
    && (root.round == c.Rounds() ==> root.pc == Collect(0, 0))
    && (root.round < c.Rounds() ==>
          match root.pc
          case Collect(i, sub) =>
            && i <= |c.ranks| && sub <= c.Replies() && (i == |c.ranks| ==> sub == 0)
            && root.buf == Filled(c, root.round, i)
            && (c.kind == Oob && sub == 2 ==> root.spot == c.ranks[i])
          case Cast(i) => i <= |c.ranks| && root.buf == Result(c, root.round))
  }

  ghost predicate MemberOk(c: Config, m: Member)
    requires WellFormed(c)
  {
    && m.round <= c.Rounds() && m.sub <= c.Replies() + 1 && (m.round == c.Rounds() ==> m.sub == 0)
    && m.results == Results(c, m.round)
    && (m.round > 0 || m.sub > 0 ==> m.rootRank == Some(c.rootRank))
  }

  ghost predicate PeerOk(c: Config, g: State, j: nat)
    requires Shaped(c, g) && j < |c.ranks|
  {
    MemberOk(c, g.members[j]) && LinkOk(c, j, RootPos(c, g.root, j), MemberPos(g.members[j]), g.down[j], g.up[j])
  }

  ghost predicate Inv(c: Config, g: State) {
    && Shaped(c, g) && !g.fault && RootOk(c, g.root)
    && forall j :: 0 <= j < |c.ranks| ==> PeerOk(c, g, j)
  }

  lemma StartInv(c: Config)
    requires WellFormed(c)
    ensures Inv(c, Start(c))
  {
    var g := Start(c);
    if c.Rounds() > 0 { assert Filled(c, 0, 0) == Begin(c, 0); }
    forall j | 0 <= j < |c.ranks| ensures PeerOk(c, g, j) {}
  }

  /** The member's entry goes to its spot. */
  lemma FillNext(c: Config, r: nat, i: nat)
    requires WellFormed(c) && r < c.Rounds() && i < |c.ranks|
    ensures var off, m := At(c.Spots()[i], c.Unit()), Reply(c, i, r, c.Replies());
            && m != [] && |m| == c.Unit() && off + |m| <= At(|c.ranks| + 1, c.Unit())
            && Filled(c, r, i + 1) == Place(Filled(c, r, i), off, m)
  {
    TableShape(c, r);
    SlotBound(c.Spots()[i], |c.ranks| + 1, c.Unit());
  }

  lemma RankFits(c: Config, r: nat, j: nat)
    requires WellFormed(c) && j < |c.ranks| && r < c.Rounds() && c.kind == Oob
    ensures |Reply(c, j, r, 1)| == INT && Decode(Reply(c, j, r, 1)) == c.ranks[j]
  {
    DecodeEncode(c.ranks[j], INT);
  }

  /** Every slot of a buffer that every process has filled, the root first or last. */
  lemma AllFilled(c: Config, r: nat)
    requires WellFormed(c) && r < c.Rounds()
    ensures var off, t := At(c.RootSpot(), c.Unit()), Table(c, r);
            && off + c.Unit() <= At(|c.ranks| + 1, c.Unit())
            && c.RootSpot() < |t| && |t[c.RootSpot()]| == c.Unit()
            && (c.kind == Oob ==> Place(Filled(c, r, |c.ranks|), off, t[c.RootSpot()]) == Result(c, r))
            && (c.kind == Mpi ==> Filled(c, r, |c.ranks|) == Result(c, r))
  {
    TableShape(c, r);
    var t, u, first := Table(c, r), c.Unit(), c.RootSpot();
    SlotBound(first, |t|, u);
    if c.kind == Mpi {
      PlaceSlot(c.bufs[r], 0, 0, Encode(c.rootRank, INT), |t|, INT);
      AllPlaced(Begin(c, r), c.Spots(), first, t, u);
    } else {
      OwnLast(c.bufs[r], c.ranks, first, t, u);
    }
  }

  lemma OwnLast(buf: seq<byte>, ranks: seq<nat>, first: nat, bs: seq<Msg>, size: nat)
    requires Ranking(ranks + [first], |bs|) && Uniform(bs, size) && |buf| == At(|bs|, size)
    requires (forall i :: 0 <= i < |ranks| ==> ranks[i] < |bs|) && first < |bs| && At(first, size) + size <= |buf|
    ensures Place(Assemble(buf, ranks, bs, size, |ranks|), At(first, size), bs[first]) == Flatten(bs)
  {
    var b := Assemble(buf, ranks, bs, size, |ranks|);
    var b' := Place(b, At(first, size), bs[first]);
    forall r | 0 <= r < |bs| ensures Slot(b', r, |bs|, size) == bs[r] {
      PlaceSlot(b, first, r, bs[first], |bs|, size);
      AssembledSlots(buf, ranks, bs, size, |ranks|, r);
      RankingIsOnto(ranks + [first], |bs|, r);
      assert ranks[..|ranks|] == ranks;
    }
    SlotsDetermine(b', bs, size);
  }

  // Steps keep it ------------------------------------------------------------------------

  function MemberMove(g: State, j: nat, m: Member, down: seq<Msg>, up: seq<Msg>): State
    requires j < |g.members| == |g.down| == |g.up|
  {
    State(g.root, g.members[j := m], g.down[j := down], g.up[j := up], g.fault)
  }

  /** A member has moved: its link is in a situation of its own, the other links have not noticed. */
  lemma MemberMoved(c: Config, g: State, j: nat, m: Member, down: seq<Msg>, up: seq<Msg>)
    requires Inv(c, g) && j < |c.ranks| && MemberOk(c, m) && LinkOk(c, j, RootPos(c, g.root, j), MemberPos(m), down, up)
    ensures Inv(c, MemberMove(g, j, m, down, up))
  {
    var g' := MemberMove(g, j, m, down, up);
    forall k | 0 <= k < |c.ranks| ensures PeerOk(c, g', k) { assert PeerOk(c, g, k); }
  }

  function RootMove(g: State, i: nat, root: Root, down: seq<Msg>, up: seq<Msg>): State
    requires i < |g.down| == |g.up|
  {
    State(root, g.members, g.down[i := down], g.up[i := up], g.fault)
  }

  /** The root has moved on link i alone. */
  ghost predicate OnlyOn(c: Config, root: Root, root': Root, i: nat) {
    forall j :: 0 <= j < |c.ranks| && j != i ==> RootPos(c, root', j) == RootPos(c, root, j)
  }

  lemma RootMoved(c: Config, g: State, i: nat, root: Root, down: seq<Msg>, up: seq<Msg>)
    requires Inv(c, g) && i < |c.ranks| && RootOk(c, root) && OnlyOn(c, g.root, root, i)
    requires LinkOk(c, i, RootPos(c, root, i), MemberPos(g.members[i]), down, up)
    ensures Inv(c, RootMove(g, i, root, down, up))
  {
    var g' := RootMove(g, i, root, down, up);
    forall k | 0 <= k < |c.ranks| ensures PeerOk(c, g', k) { assert PeerOk(c, g, k); }
  }

  /** What one step of the root on link i comes to, seen from that link alone. */
  ghost predicate RootMoves(c: Config, g: State, i: nat, g': State, root: Root, down: seq<Msg>, up: seq<Msg>)
    requires Shaped(c, g) && i < |c.ranks|
  {
    && g' == RootMove(g, i, root, down, up)
    && OnlyOn(c, g.root, root, i) && LinkOk(c, i, RootPos(c, root, i), MemberPos(g.members[i]), down, up)
  }

  /** The root moves along link i. */
  lemma Along(c: Config, root: Root, root': Root, i: nat)
    requires root'.round == root.round
    requires || (root.pc.Collect? && root.pc.i == i
       && (root'.pc == Collect(i + 1, 0) || (root'.pc.Collect? && root'.pc.i == i)))
             || (root.pc == Cast(i) && root'.pc == Cast(i + 1))
    ensures OnlyOn(c, root, root', i)
  {
  }

  lemma RootAsks(c: Config, g: State, i: nat)
    requires Shaped(c, g) && !g.fault && i < |c.ranks| && PeerOk(c, g, i) && g.root.round < c.Rounds()
    requires g.root.pc == Collect(i, 0)
    ensures RootMoves(c, g, i, RootStep(c, g), g.root.(pc := Collect(i, 1)), g.down[i] + [RankMsg(c)], g.up[i])
  {
    Ask(c, i, Pos(g.root.round, 0), MemberPos(g.members[i]), g.down[i], g.up[i]);
    Along(c, g.root, g.root.(pc := Collect(i, 1)), i);
  }

  /** The reply that the root finds is the one it expects. */
  lemma Expected(c: Config, g: State, i: nat, sub: nat)
    requires Shaped(c, g) && i < |c.ranks| && PeerOk(c, g, i) && g.root.pc == Collect(i, sub) && sub > 0
    requires g.up[i] != []
    ensures sub <= c.Replies() && g.root.round < c.Rounds() && g.up[i][0] == Reply(c, i, g.root.round, sub)
    ensures LinkOk(c, i, Pos(g.root.round, sub + 1), MemberPos(g.members[i]), g.down[i], g.up[i][1..])
  {
    Take(c, i, Pos(g.root.round, sub), MemberPos(g.members[i]), g.down[i], g.up[i]);
  }

  function WithRank(root: Root, i: nat, m: Msg): Root { root.(pc := Collect(i, 2), spot := Decode(m)) }

  lemma RootTakesRank(c: Config, g: State, i: nat)
    requires Shaped(c, g) && i < |c.ranks| && PeerOk(c, g, i) && c.kind == Oob && g.root.pc == Collect(i, 1)
    requires g.up[i] != []
    requires !Fails(g.up[i][0], INT)
    ensures RootMoves(c, g, i, RootTakes(c, g, i, 1), WithRank(g.root, i, g.up[i][0]), g.down[i], g.up[i][1..])
  {
    Expected(c, g, i, 1);
    Along(c, g.root, WithRank(g.root, i, g.up[i][0]), i);
  }

  function EntryAt(c: Config, root: Root, i: nat): nat { At(if c.kind == Oob then root.spot else i + 1, c.Unit()) }

  function WithEntry(c: Config, root: Root, i: nat, m: Msg): Root
    requires EntryAt(c, root, i) + |m| <= |root.buf|
  {
    root.(pc := Collect(i + 1, 0), buf := Place(root.buf, EntryAt(c, root, i), m))
  }

  lemma RootTakesEntry(c: Config, g: State, i: nat)
    requires Shaped(c, g) && i < |c.ranks| && PeerOk(c, g, i) && g.root.pc == Collect(i, c.Replies()) && g.up[i] != []
    requires !Fails(g.up[i][0], c.Unit()) && EntryAt(c, g.root, i) + |g.up[i][0]| <= |g.root.buf|
    ensures RootMoves(c, g, i, RootTakes(c, g, i, c.Replies()),
                      WithEntry(c, g.root, i, g.up[i][0]), g.down[i], g.up[i][1..])
  {
    Expected(c, g, i, c.Replies());
    Along(c, g.root, WithEntry(c, g.root, i, g.up[i][0]), i);
  }

  /** The root's own state after a member's rank, and after its entry. */
  lemma TakenRank(c: Config, root: Root, i: nat, m: Msg)
    requires WellFormed(c) && RootOk(c, root) && root.round < c.Rounds() && root.pc == Collect(i, 1) && i < |c.ranks|
    requires c.kind == Oob && m == Reply(c, i, root.round, 1)
    ensures !Fails(m, INT) && RootOk(c, WithRank(root, i, m))
  {
    RankFits(c, root.round, i);
  }

  lemma TakenEntry(c: Config, root: Root, i: nat, m: Msg)
    requires WellFormed(c) && RootOk(c, root) && root.round < c.Rounds() && root.pc == Collect(i, c.Replies())
    requires i < |c.ranks|
    requires m == Reply(c, i, root.round, c.Replies())
    ensures !Fails(m, c.Unit()) && EntryAt(c, root, i) + |m| <= |root.buf| && RootOk(c, WithEntry(c, root, i, m))
  {
    FillNext(c, root.round, i);
  }

  lemma RootOwnKeeps(c: Config, g: State)
    requires Inv(c, g) && g.root.round < c.Rounds() && g.root.pc == Collect(|c.ranks|, 0)
    ensures Inv(c, RootOwn(c, g)) && RootOwn(c, g).root.pc == Cast(0) && RootOwn(c, g).root.round == g.root.round
  {
    AllFilled(c, g.root.round);
    var g' := RootOwn(c, g);
    forall j | 0 <= j < |c.ranks| ensures PeerOk(c, g', j) { assert PeerOk(c, g, j); }
  }

  lemma RootCasts(c: Config, g: State, i: nat)
    requires Shaped(c, g) && !g.fault && i < |c.ranks| && PeerOk(c, g, i)
    requires g.root.round < c.Rounds() && g.root.pc == Cast(i) && g.root.buf == Result(c, g.root.round)
    ensures RootMoves(c, g, i, RootStep(c, g), g.root.(pc := Cast(i + 1)), g.down[i] + [g.root.buf], g.up[i])
  {
    CastOut(c, i, RootPos(c, g.root, i), MemberPos(g.members[i]), g.down[i], g.up[i]);
    Along(c, g.root, g.root.(pc := Cast(i + 1)), i);
  }

  lemma ReturnedOk(c: Config, root: Root)
    requires WellFormed(c) && RootOk(c, root) && root.round < c.Rounds() && root.pc == Cast(|c.ranks|)
    ensures RootOk(c, Root(root.round + 1, Collect(0, 0), root.spot,
                          Begin(c, root.round + 1), root.results + [root.buf]))
  {
    if root.round + 1 < c.Rounds() { assert Filled(c, root.round + 1, 0) == Begin(c, root.round + 1); }
  }

  lemma RootReturns(c: Config, g: State)
    requires Inv(c, g) && g.root.round < c.Rounds() && g.root.pc == Cast(|c.ranks|)
    ensures Inv(c, RootStep(c, g))
  {
    ReturnedOk(c, g.root);
    var g' := RootStep(c, g);
    forall j | 0 <= j < |c.ranks| ensures PeerOk(c, g', j) {
      assert PeerOk(c, g, j);
      assert RootPos(c, g'.root, j) == Pos(g.root.round + 1, 0) == RootPos(c, g.root, j);
    }
  }

  /** What one step of member j comes to, seen from its link alone. */
  ghost predicate MemberMoves(c: Config, g: State, j: nat, g': State, m: Member, down: seq<Msg>, up: seq<Msg>)
    requires Shaped(c, g) && j < |c.ranks|
  {
    && g' == MemberMove(g, j, m, down, up)
    && MemberOk(c, m) && LinkOk(c, j, RootPos(c, g.root, j), MemberPos(m), down, up)
  }

  lemma MemberSays(c: Config, g: State, j: nat) returns (m: Member, up: seq<Msg>)
    requires Shaped(c, g) && !g.fault && j < |c.ranks| && PeerOk(c, g, j) && 1 <= g.members[j].sub <= c.Replies()
    ensures MemberMoves(c, g, j, MemberStep(c, g, j), m, g.down[j], up)
  {
    m := g.members[j];
    Say(c, j, RootPos(c, g.root, j), MemberPos(m), g.down[j], g.up[j]);
    up := g.up[j] + [Reply(c, j, m.round, m.sub)];
    m := m.(sub := m.sub + 1);
  }

  lemma MemberHears(c: Config, g: State, j: nat) returns (m: Member)
    requires Shaped(c, g) && !g.fault && j < |c.ranks| && PeerOk(c, g, j)
    requires g.members[j].sub == 0 && g.down[j] != [] && g.members[j].round < c.Rounds()
    ensures MemberMoves(c, g, j, MemberStep(c, g, j), m, g.down[j][1..], g.up[j])
  {
    m := g.members[j];
    Hear(c, j, RootPos(c, g.root, j), MemberPos(m), g.down[j], g.up[j]);
    m := m.(sub := 1, rootRank := Some(c.rootRank));
  }

  lemma MemberLearns(c: Config, g: State, j: nat) returns (m: Member)
    requires Shaped(c, g) && !g.fault && j < |c.ranks| && PeerOk(c, g, j)
    requires g.members[j].sub == c.Replies() + 1 && g.down[j] != []
    ensures MemberMoves(c, g, j, MemberStep(c, g, j), m, g.down[j][1..], g.up[j])
  {
    m := g.members[j];
    Learn(c, j, RootPos(c, g.root, j), MemberPos(m), g.down[j], g.up[j]);
    ResultLength(c, m.round);
    m := Member(m.round + 1, 0, m.rootRank, m.results + [Result(c, m.round)]);
  }

  /** A member that cannot move is finished or waits for a message. */
  lemma MemberKeepsInv(c: Config, g: State, j: nat)
    requires Inv(c, g) && j < |c.ranks|
    ensures Inv(c, MemberStep(c, g, j))
  {
    var m := g.members[j];
    assert PeerOk(c, g, j);
    if m.round < c.Rounds() {
      if 1 <= m.sub <= c.Replies() {
        var m', up := MemberSays(c, g, j);
        MemberMoved(c, g, j, m', g.down[j], up);
      } else if g.down[j] == [] {
      } else if m.sub == 0 {
        var m' := MemberHears(c, g, j);
        MemberMoved(c, g, j, m', g.down[j][1..], g.up[j]);
      } else {
        var m' := MemberLearns(c, g, j);
        MemberMoved(c, g, j, m', g.down[j][1..], g.up[j]);
      }
    }
  }

  lemma ResultLength(c: Config, r: nat)
    requires WellFormed(c) && r < c.Rounds()
    ensures |Result(c, r)| == At(|c.ranks| + 1, c.Unit()) > 0
  {
    AllFilled(c, r);
    TableShape(c, r);
  }

  lemma EntryKeepsInv(c: Config, g: State, i: nat)
    requires Inv(c, g) && g.root.round < c.Rounds() && g.root.pc == Collect(i, c.Replies()) && i < |c.ranks|
    requires g.up[i] != []
    ensures Inv(c, RootTakes(c, g, i, c.Replies()))
  {
    assert PeerOk(c, g, i);
    Expected(c, g, i, c.Replies());
    TakenEntry(c, g.root, i, g.up[i][0]);
    RootTakesEntry(c, g, i);
    RootMoved(c, g, i, WithEntry(c, g.root, i, g.up[i][0]), g.down[i], g.up[i][1..]);
  }

  lemma RankKeepsInv(c: Config, g: State, i: nat)
    requires Inv(c, g) && g.root.round < c.Rounds() && g.root.pc == Collect(i, 1) && i < |c.ranks| && g.up[i] != []
    requires c.kind == Oob
    ensures Inv(c, RootTakes(c, g, i, 1))
  {
    assert PeerOk(c, g, i);
    Expected(c, g, i, 1);
    TakenRank(c, g.root, i, g.up[i][0]);
    RootTakesRank(c, g, i);
    RootMoved(c, g, i, WithRank(g.root, i, g.up[i][0]), g.down[i], g.up[i][1..]);
  }

  lemma RootKeepsInv(c: Config, g: State)
    requires Inv(c, g)
    ensures Inv(c, RootStep(c, g))
  {
    if g.root.round < c.Rounds() {
      match g.root.pc
      case Collect(i, sub) =>
        if i == |c.ranks| { RootOwnKeeps(c, g); }
        else {
          assert PeerOk(c, g, i);
          if sub == 0 {
            assert RootOk(c, g.root.(pc := Collect(i, 1)));
            RootAsks(c, g, i);
            RootMoved(c, g, i, g.root.(pc := Collect(i, 1)), g.down[i] + [RankMsg(c)], g.up[i]);
          } else if g.up[i] != [] {
            if sub == c.Replies() { EntryKeepsInv(c, g, i); } else { RankKeepsInv(c, g, i); }
          }
        }
      case Cast(i) =>
        if i == |c.ranks| { RootReturns(c, g); }
        else {
          assert PeerOk(c, g, i);
          assert RootOk(c, g.root.(pc := Cast(i + 1)));
          RootCasts(c, g, i);
          RootMoved(c, g, i, g.root.(pc := Cast(i + 1)), g.down[i] + [g.root.buf], g.up[i]);
        }
    }
  }

  lemma StepKeepsInv(c: Config, g: State, a: Actor)
    requires Inv(c, g)
    ensures Inv(c, Step(c, g, a))
  {
    match a
    case Peer(j) => if j < |c.ranks| { MemberKeepsInv(c, g, j); }
    case TheRoot => RootKeepsInv(c, g);
  }

  lemma {:induction false} RunKeepsInv(c: Config, g: State, turns: seq<Actor>)
    requires Inv(c, g)
    ensures Inv(c, Run(c, g, turns))
    decreases |turns|
  {
    if turns != [] {
      StepKeepsInv(c, g, turns[0]);
      RunKeepsInv(c, Step(c, g, turns[0]), turns[1..]);
    }
  }

  // The theorems -------------------------------------------------------------------------

  /** Under every interleaving and at every moment: no receive has failed or left its buffer, and each process has
      so far ended its rounds with the same buffers, every entry in its rank's place whatever the order of the
      root's handles. */
  lemma EveryRunAgrees(c: Config, turns: seq<Actor>)
    requires WellFormed(c)
    ensures var g := Run(c, Start(c), turns);
      && !g.fault
      && g.root.round <= c.Rounds() && g.root.results == Results(c, g.root.round)
      && forall j :: 0 <= j < |c.ranks| ==>
           && g.members[j].round <= c.Rounds() && g.members[j].results == Results(c, g.members[j].round)
           && (g.members[j].results != [] ==> g.members[j].rootRank == Some(c.rootRank))
  {
    StartInv(c);
    RunKeepsInv(c, Start(c), turns);
    var g := Run(c, Start(c), turns);
    forall j | 0 <= j < |c.ranks|
      ensures g.members[j].round <= c.Rounds() && g.members[j].results == Results(c, g.members[j].round)
      ensures g.members[j].results != [] ==> g.members[j].rootRank == Some(c.rootRank)
    {
      assert PeerOk(c, g, j);
    }
  }

  /** The action the process is at can be taken: anything but waiting on an empty queue. */
  predicate RootCan(c: Config, g: State)
    requires |g.up| == |c.ranks|
  {
    g.root.round < c.Rounds()
    && (g.root.pc.Collect? && g.root.pc.i < |c.ranks| && g.root.pc.sub > 0 ==> g.up[g.root.pc.i] != [])
  }

  predicate MemberCan(c: Config, m: Member, down: seq<Msg>) {
    m.round < c.Rounds() && (m.sub == 0 || m.sub > c.Replies() ==> down != [])
  }

  ghost predicate Can(c: Config, g: State, a: Actor)
    requires Shaped(c, g)
  {
    match a
    case TheRoot => RootCan(c, g)
    case Peer(j) => j < |c.ranks| && MemberCan(c, g.members[j], g.down[j])
  }

  /** Every process has been through all the rounds. */
  ghost predicate Done(c: Config, g: State)
    requires Shaped(c, g)
  {
    g.root.round == c.Rounds() && forall j :: 0 <= j < |c.ranks| ==> g.members[j].round == c.Rounds()
  }

  /** A link is never dead: when the root waits on it, or the root is done and the member is not, the member can move.
      */
  lemma LinkAlive(c: Config, j: nat, p: Pos, m: Member, down: seq<Msg>, up: seq<Msg>)
    requires WellFormed(c) && j < |c.ranks| && LinkOk(c, j, p, MemberPos(m), down, up)
    requires (0 < p.phase <= c.Replies() && up == [] && p.round < c.Rounds())
         || (p == Pos(c.Rounds(), 0) && m.round != c.Rounds())
    ensures MemberCan(c, m, down)
  {
  }

  /** No reachable state is a deadlock. */
  lemma SomeoneCan(c: Config, g: State) returns (a: Actor)
    requires Inv(c, g) && !Done(c, g)
    ensures Can(c, g, a)
  {
    if RootCan(c, g) { return TheRoot; }
    var j: nat;
    if g.root.round < c.Rounds() { j := g.root.pc.i; }
    else { j :| j < |c.ranks| && g.members[j].round != c.Rounds(); }
    assert PeerOk(c, g, j);
    LinkAlive(c, j, RootPos(c, g.root, j), g.members[j], g.down[j], g.up[j]);
    a := Peer(j);
  }

  // Termination --------------------------------------------------------------------------

  /** Actions the root still has to take this round, and in all. */
  function RootRound(c: Config, pc: Pc): int {
    match pc
    case Collect(i, sub) => At(if i <= |c.ranks| then |c.ranks| - i else 0, c.Replies() + 1) - sub + |c.ranks| + 2
    case Cast(i) => |c.ranks| - i + 1
  }

  function RootLeft(c: Config, root: Root): int
    requires root.round <= c.Rounds()
  {
    if root.round == c.Rounds() then 0
    else At(c.Rounds() - root.round - 1, At(|c.ranks|, c.Replies() + 1) + |c.ranks| + 2) + RootRound(c, root.pc)
  }

  function MemberLeft(c: Config, m: Member): int
    requires m.round <= c.Rounds()
  {
    At(c.Rounds() - m.round, c.Replies() + 2) - m.sub
  }

  function MembersLeft(c: Config, ms: seq<Member>, n: nat): int
    requires n <= |ms| && forall j :: 0 <= j < n ==> ms[j].round <= c.Rounds()
  {
    if n == 0 then 0 else MembersLeft(c, ms, n - 1) + MemberLeft(c, ms[n - 1])
  }

  ghost function Work(c: Config, g: State): int
    requires Inv(c, g)
  {
    RoundsBounded(c, g);
    RootLeft(c, g.root) + MembersLeft(c, g.members, |g.members|)
  }

  lemma RoundsBounded(c: Config, g: State)
    requires Inv(c, g)
    ensures forall j :: 0 <= j < |g.members| ==> g.members[j].round <= c.Rounds()
  {
    forall j | 0 <= j < |g.members| ensures g.members[j].round <= c.Rounds() { assert PeerOk(c, g, j); }
  }

  lemma {:induction false} AtGrows(r: nat, s: nat, size: nat)
    requires r <= s
    ensures At(r, size) <= At(s, size)
    decreases s
  {
    if r < s { AtGrows(r, s - 1, size); }
  }

  lemma RootLeftPositive(c: Config, root: Root)
    requires WellFormed(c) && RootOk(c, root)
    ensures RootLeft(c, root) >= 0
  {
    if root.round < c.Rounds() && root.pc.Collect? && root.pc.i < |c.ranks| {
      AtGrows(1, |c.ranks| - root.pc.i, c.Replies() + 1);
    }
  }

  lemma MemberLeftPositive(c: Config, m: Member)
    requires WellFormed(c) && MemberOk(c, m)
    ensures MemberLeft(c, m) >= 0 && (m.round < c.Rounds() ==> MemberLeft(c, m) > 0)
  {
    if m.round < c.Rounds() { AtGrows(1, c.Rounds() - m.round, c.Replies() + 2); }
  }

  lemma {:induction false} MembersLeftPositive(c: Config, ms: seq<Member>, n: nat)
    requires WellFormed(c) && n <= |ms| && forall j :: 0 <= j < n ==> MemberOk(c, ms[j])
    ensures (forall j :: 0 <= j < n ==> ms[j].round <= c.Rounds()) && MembersLeft(c, ms, n) >= 0
  {
    if n > 0 { MembersLeftPositive(c, ms, n - 1); MemberLeftPositive(c, ms[n - 1]); }
  }

  lemma WorkPositive(c: Config, g: State)
    requires Inv(c, g)
    ensures Work(c, g) >= 0
  {
    forall j | 0 <= j < |g.members| ensures MemberOk(c, g.members[j]) { assert PeerOk(c, g, j); }
    RootLeftPositive(c, g.root);
    MembersLeftPositive(c, g.members, |g.members|);
  }

  lemma {:induction false} MembersLeftUpdate(c: Config, ms: seq<Member>, n: nat, j: nat, m: Member)
    requires n <= |ms| && j < |ms| && m.round <= c.Rounds() && forall k :: 0 <= k < |ms| ==> ms[k].round <= c.Rounds()
    ensures MembersLeft(c, ms[j := m], n) - MembersLeft(c, ms, n)
         == if j < n then MemberLeft(c, m) - MemberLeft(c, ms[j]) else 0
  {
    if n > 0 { MembersLeftUpdate(c, ms, n - 1, j, m); }
  }

  /** The next action in program order. */
  function Next(c: Config, round: nat, pc: Pc): (nat, Pc) {
    match pc
    case Collect(i, sub) =>
      if i >= |c.ranks| then (round, Cast(0))
      else if sub >= c.Replies() then (round, Collect(i + 1, 0))
      else (round, Collect(i, sub + 1))
    case Cast(i) => if i < |c.ranks| then (round, Cast(i + 1)) else (round + 1, Collect(0, 0))
  }

  lemma RootTurns(c: Config, g: State)
    requires Shaped(c, g) && RootCan(c, g) && !RootStep(c, g).fault && !g.fault
    requires g.root.pc.Collect? ==> g.root.pc.sub <= c.Replies()
    ensures var g' := RootStep(c, g);
            (g'.root.round, g'.root.pc) == Next(c, g.root.round, g.root.pc) && g'.members == g.members
  {
  }

  lemma RootLess(c: Config, root: Root, root': Root)
    requires root.round < c.Rounds() && (root'.round, root'.pc) == Next(c, root.round, root.pc)
    requires match root.pc
             case Collect(i, sub) => i <= |c.ranks| && sub <= c.Replies() && (i == |c.ranks| ==> sub == 0)
             case Cast(i) => i <= |c.ranks|
    ensures RootLeft(c, root') == RootLeft(c, root) - 1
  {
  }

  lemma MemberTurns(c: Config, g: State, j: nat) returns (m: Member)
    requires Shaped(c, g) && j < |c.ranks| && MemberCan(c, g.members[j], g.down[j]) && !g.fault
    requires !MemberStep(c, g, j).fault
    requires g.members[j].sub <= c.Replies() + 1
    ensures var g' := MemberStep(c, g, j); g'.root == g.root && g'.members == g.members[j := m]
    ensures m.round <= c.Rounds() && MemberLeft(c, m) == MemberLeft(c, g.members[j]) - 1
  {
    m := MemberStep(c, g, j).members[j];
  }

  lemma MemberWorks(c: Config, g: State, j: nat)
    requires Inv(c, g) && j < |c.ranks| && MemberCan(c, g.members[j], g.down[j]) && Inv(c, MemberStep(c, g, j))
    ensures Work(c, MemberStep(c, g, j)) == Work(c, g) - 1
  {
    RoundsBounded(c, g);
    assert PeerOk(c, g, j);
    var m := MemberTurns(c, g, j);
    MembersLeftUpdate(c, g.members, |g.members|, j, m);
  }

  lemma StepWorks(c: Config, g: State, a: Actor)
    requires Inv(c, g) && Can(c, g, a)
    ensures Inv(c, Step(c, g, a)) && Work(c, Step(c, g, a)) == Work(c, g) - 1
  {
    StepKeepsInv(c, g, a);
    match a
    case TheRoot =>
      RootTurns(c, g);
      RootLess(c, g.root, RootStep(c, g).root);
    case Peer(j) => MemberWorks(c, g, j);
  }

  lemma StepWaits(c: Config, g: State, a: Actor)
    requires Inv(c, g) && !Can(c, g, a)
    ensures Step(c, g, a) == g
  {
  }

  lemma {:induction false} RunWorks(c: Config, g: State, turns: seq<Actor>)
    requires Inv(c, g)
    ensures Inv(c, Run(c, g, turns)) && Work(c, Run(c, g, turns)) <= Work(c, g)
    decreases |turns|
  {
    if turns != [] {
      if Can(c, g, turns[0]) { StepWorks(c, g, turns[0]); } else { StepWaits(c, g, turns[0]); }
      RunWorks(c, Step(c, g, turns[0]), turns[1..]);
    }
  }

  /** A process that can move still can when its turn comes, so someone moves before the turns are over. */
  lemma {:induction false} TurnComes(c: Config, g: State, turns: seq<Actor>, a: Actor)
    requires Inv(c, g) && Can(c, g, a) && a in turns
    ensures Inv(c, Run(c, g, turns)) && Work(c, Run(c, g, turns)) < Work(c, g)
    decreases |turns|
  {
    if Can(c, g, turns[0]) {
      StepWorks(c, g, turns[0]);
      RunWorks(c, Step(c, g, turns[0]), turns[1..]);
    } else {
      StepWaits(c, g, turns[0]);
      TurnComes(c, g, turns[1..], a);
    }
  }

  /** Every process gets at least one turn. */
  predicate Sweep(c: Config, turns: seq<Actor>) {
    TheRoot in turns && forall j: nat :: j < |c.ranks| ==> Peer(j) in turns
  }

  ghost function RunSweeps(c: Config, g: State, sweeps: seq<seq<Actor>>): (g': State)
    requires Shaped(c, g)
    ensures Shaped(c, g')
    decreases |sweeps|
  {
    if sweeps == [] then g else RunSweeps(c, Run(c, g, sweeps[0]), sweeps[1..])
  }

  lemma {:induction false} DoneStays(c: Config, g: State, turns: seq<Actor>)
    requires Inv(c, g) && Done(c, g)
    ensures Run(c, g, turns) == g
    decreases |turns|
  {
    if turns != [] { DoneStays(c, g, turns[1..]); }
  }

  lemma {:induction false} SweepsFinish(c: Config, g: State, sweeps: seq<seq<Actor>>)
    requires Inv(c, g) && |sweeps| >= Work(c, g) && forall k :: 0 <= k < |sweeps| ==> Sweep(c, sweeps[k])
    ensures Inv(c, RunSweeps(c, g, sweeps)) && Done(c, RunSweeps(c, g, sweeps))
    decreases |sweeps|
  {
    WorkPositive(c, g);
    if Done(c, g) {
      if sweeps != [] {
        DoneStays(c, g, sweeps[0]);
        StillDone(c, g, sweeps);
      }
    } else {
      var a := SomeoneCan(c, g);
      StepWorks(c, g, a);
      WorkPositive(c, Step(c, g, a));
      TurnComes(c, g, sweeps[0], a);
      SweepsFinish(c, Run(c, g, sweeps[0]), sweeps[1..]);
    }
  }

  lemma {:induction false} StillDone(c: Config, g: State, sweeps: seq<seq<Actor>>)
    requires Inv(c, g) && Done(c, g)
    ensures RunSweeps(c, g, sweeps) == g
    decreases |sweeps|
  {
    if sweeps != [] {
      DoneStays(c, g, sweeps[0]);
      StillDone(c, g, sweeps[1..]);
    }
  }

  /** After any start whatever, as long as every process keeps getting turns all rounds end, and all processes hold
      the same buffers. No more sweeps are needed than there are actions left. */
  lemma ExchangeCompletes(c: Config, turns: seq<Actor>, sweeps: seq<seq<Actor>>)
    requires WellFormed(c) && forall k :: 0 <= k < |sweeps| ==> Sweep(c, sweeps[k])
    ensures Inv(c, Run(c, Start(c), turns))
    ensures |sweeps| >= Work(c, Run(c, Start(c), turns)) ==>
              var g := RunSweeps(c, Run(c, Start(c), turns), sweeps);
              && Done(c, g) && !g.fault && g.root.results == Results(c, c.Rounds())
              && forall j :: 0 <= j < |c.ranks| ==> g.members[j].results == Results(c, c.Rounds())
  {
    StartInv(c);
    RunKeepsInv(c, Start(c), turns);
    var g0 := Run(c, Start(c), turns);
    if |sweeps| >= Work(c, g0) {
      SweepsFinish(c, g0, sweeps);
      var g := RunSweeps(c, g0, sweeps);
      forall j | 0 <= j < |c.ranks| ensures g.members[j].results == Results(c, c.Rounds()) { assert PeerOk(c, g, j); }
    }
  }

  /** The oob result holds the block of the process of rank p at entry p. */
  lemma BlocksByRank(c: Config, r: nat, p: nat)
    requires WellFormed(c) && c.kind == Oob && r < c.Rounds() && p < |c.ranks| + 1
    ensures |Result(c, r)| == At(|c.ranks| + 1, c.size) && Slot(Result(c, r), p, |c.ranks| + 1, c.size) == c.data[r][p]
  {
    SlotOfFlatten(c.data[r], p, c.size);
  }

  /** The MPI result lists the root's rank first and then the ranks of its handles in order. */
  lemma RootRankFirst(c: Config, r: nat, p: nat)
    requires WellFormed(c) && c.kind == Mpi && r < c.Rounds() && p < |c.ranks| + 1
    ensures |Result(c, r)| == At(|c.ranks| + 1, INT)
    ensures Decode(Slot(Result(c, r), p, |c.ranks| + 1, INT)) == if p == 0 then c.rootRank else c.ranks[p - 1]
  {
    SlotOfFlatten(RankList(c), p, INT);
    DecodeEncode(if p == 0 then c.rootRank else c.ranks[p - 1], INT);
  }
}
