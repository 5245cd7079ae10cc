/** connectionHandshake: what the Manager makes of the first bytes of a new connection, on a stream that may stop
    short and a peer that may hang up. */
module Handshakes {
  import opened Wrappers
  import opened Arith
  import opened Bytes
  import opened Framing
  import opened Tcp

  type Team = seq<byte>

  const MAX_TEAM_ID := 1048576

  /** A new connection: all the bytes that will ever arrive on it; whether the peer then hangs up or goes on saying
      nothing; and what the memory allocated for the team id holds where no byte arrives. */
  datatype Peer = Peer(stream: seq<byte>, leaves: bool, junk: seq<byte>)

  /** Silent: the peer never sends what a blocking read waits for. */
  datatype Hello = Silent | Broken | PointToPoint | Joins(team: Team)

  /** teamID is used as a C string. */
  function CString(m: seq<byte>): (t: Team)
    ensures |t| <= |m| && 0 !in t
  {
    if m == [] || m[0] == 0 then [] else [m[0]] + CString(m[1..])
  }

  /** All that comes before the first NUL. */
  lemma {:induction false} CStringIs(m: seq<byte>)
    ensures CString(m) <= m && (|CString(m)| < |m| ==> m[|CString(m)|] == 0)
  {
    if m != [] && m[0] != 0 {
      CStringIs(m[1..]);
      assert m == [m[0]] + m[1..];
    }
  }

  predicate IsCollective(flag: seq<byte>) { exists k :: 0 <= k < |flag| && flag[k] != 0 }

  /** The team id, once the flag says that there is one. A header cut short gives an arbitrary size, and then
      there is nothing left to read. */
  function HandshakeId(p: Peer): Hello {
    var s := p.stream;
    if |s| < HEADER then (if p.leaves then Broken else Silent)
    else
      var size := Decode(s[..HEADER]);
      if size > MAX_TEAM_ID || size == 0 then Broken
      else if |s| >= HEADER + size then Joins(CString(s[HEADER..HEADER + size]))
      else if !p.leaves then Silent
      else if |s| == HEADER then Broken
      else Joins(CString(s[HEADER..] + Unread(p.junk, HEADER + size - |s|)))
  }

  /** Where the flag ends: an int, or the part of it that has arrived. */
  function FlagEnd(s: seq<byte>): (n: nat)
    requires |s| > HEADER
    ensures HEADER < n <= |s|
  {
    Min(HEADER + INT, |s|)
  }

  /** connectionHandshake. The length of the first message is read and not looked at. */
  function Handshake(p: Peer): Hello {
    var s := p.stream;
    if |s| < HEADER + INT && !p.leaves then Silent
    else if |s| <= HEADER then Broken
    else if !IsCollective(s[HEADER..FlagEnd(s)]) then PointToPoint
    else HandshakeId(p.(stream := s[FlagEnd(s)..]))
  }

  function TakenId(s: seq<byte>): (n: nat)
    ensures n <= |s|
  {
    if |s| < HEADER then |s|
    else
      var size := Decode(s[..HEADER]);
      if size > MAX_TEAM_ID then HEADER else Min(HEADER + size, |s|)
  }

  /** Bytes that it takes from the stream. */
  function Taken(s: seq<byte>): (n: nat)
    ensures n <= |s|
  {
    if |s| <= HEADER then |s|
    else if !IsCollective(s[HEADER..FlagEnd(s)]) then FlagEnd(s)
    else FlagEnd(s) + TakenId(s[FlagEnd(s)..])
  }

  /** A peer that hangs up makes no one wait; and whether it does is of no account once it has said enough. */
  lemma HangingUpEndsTheWait(p: Peer)
    ensures !Handshake(p.(leaves := true)).Silent?
    ensures !Handshake(p.(leaves := false)).Silent? ==> Handshake(p.(leaves := true)) == Handshake(p.(leaves := false))
  {
  }

  /** What becomes of a new connection, by the bytes that arrive. Before its first payload byte nothing is decided,
      unless the peer hangs up; a zero int, or the part of one that has come when the peer hangs up, makes it a
      user's. */
  lemma FlagDecides(p: Peer)
    ensures var s, hello := p.stream, Handshake(p);
      && (|s| <= 8 ==> hello == if p.leaves then Broken else Silent)
      && (8 < |s| < 12 && !p.leaves ==> hello == Silent)
      && (|s| >= 12 && s[8..12] == [0, 0, 0, 0] ==> hello == PointToPoint)
      && (8 < |s| < 12 && p.leaves && (forall i :: 8 <= i < |s| ==> s[i] == 0) ==> hello == PointToPoint)
      && (8 < |s| < 12 && p.leaves && (exists i :: 8 <= i < |s| && s[i] != 0) ==> hello == Broken)
      && (|s| >= 12 && s[8..12] != [0, 0, 0, 0] ==> hello == HandshakeId(p.(stream := s[12..])))
    ensures var s := p.stream;
      && (|s| < 12 ==> Taken(s) == |s|)
      && (|s| >= 12 && s[8..12] == [0, 0, 0, 0] ==> Taken(s) == 12)
      && (|s| >= 12 && s[8..12] != [0, 0, 0, 0] ==> Taken(s) == 12 + TakenId(s[12..]))
  {
    var s := p.stream;
    if |s| > 8 {
      var flag := s[8..FlagEnd(s)];
      assert |flag| == FlagEnd(s) - 8 && forall i :: 8 <= i < FlagEnd(s) ==> flag[i - 8] == s[i];
      if |s| >= 12 && flag != [0, 0, 0, 0] {
        var k :| 0 <= k < 4 && flag[k] != 0;
        assert IsCollective(flag);
      }
      if i :| 8 <= i < FlagEnd(s) && s[i] != 0 { assert IsCollective(flag); }
    }
  }

  /** A member's connection joins the group whose name the next message holds, up to a NUL; at most 1048576 bytes, the
      rest being what memory held if the peer hangs up in the middle. */
  lemma NameDecides(p: Peer, n: nat)
    requires |p.stream| >= 8 ==> BigEndian(p.stream[..8], n)
    ensures var s, hello := p.stream, HandshakeId(p);
      && (|s| < 8 ==> hello == if p.leaves then Broken else Silent)
      && (|s| >= 8 && (n == 0 || n > 1048576) ==> hello == Broken)
      && (|s| >= 8 && 0 < n <= 1048576 ==>
            && (|s| >= 8 + n ==> hello == Joins(CString(s[8..8 + n])))
            && (|s| < 8 + n && !p.leaves ==> hello == Silent)
            && (|s| == 8 && p.leaves ==> hello == Broken)
            && (8 < |s| < 8 + n && p.leaves ==> hello == Joins(CString(s[8..] + Unread(p.junk, 8 + n - |s|)))))
    ensures var s := p.stream;
      && (|s| < 8 ==> TakenId(s) == |s|)
      && (|s| >= 8 && n > 1048576 ==> TakenId(s) == 8)
      && (|s| >= 8 && n <= 1048576 ==> TakenId(s) == if |s| < 8 + n then |s| else 8 + n)
  {
    if |p.stream| >= 8 { BigEndianIs(p.stream[..8], n); }
  }

  /** What connect and createTeam send first: a flag, and for a team its id. */
  function Greeting(team: Option<Team>): seq<seq<byte>> {
    match team
    case None => [Encode(0, INT)]
    case Some(t) => [Encode(1, INT), t]
  }

  lemma FlagUnderstood(flag: seq<byte>, p: Peer)
    requires |flag| == INT
    ensures var s := Frame(flag) + p.stream;
            && Handshake(p.(stream := s)) == (if IsCollective(flag) then HandshakeId(p) else PointToPoint)
            && Taken(s) == HEADER + INT + if IsCollective(flag) then TakenId(p.stream) else 0
  {
    assert Pow256(HEADER) > INT;
    FrameHead(flag, p.stream);
  }

  lemma IdUnderstood(t: Team, rest: seq<byte>, leaves: bool, junk: seq<byte>)
    requires |t| < Pow256(HEADER)
    ensures HandshakeId(Peer(Frame(t) + rest, leaves, junk)) == if Sendable(t) then Joins(CString(t)) else Broken
    ensures Sendable(t) ==> TakenId(Frame(t) + rest) == HEADER + |t|
  {
    FrameHead(t, rest);
    var s := Frame(t) + rest;
    assert |s| >= HEADER + |t| && Decode(s[..HEADER]) == |t| && s[HEADER..HEADER + |t|] == t;
  }

  predicate Sendable(t: Team) { 0 < |t| <= MAX_TEAM_ID }

  lemma AnnouncementUnderstood(t: Team, rest: seq<byte>, leaves: bool, junk: seq<byte>)
    requires |t| < Pow256(HEADER)
    ensures var s := Frames(Greeting(Some(t))) + rest;
            && Handshake(Peer(s, leaves, junk)) == (if Sendable(t) then Joins(CString(t)) else Broken)
            && (Sendable(t) ==> Taken(s) == |Frames(Greeting(Some(t)))|)
  {
    EncodeSmall();
    var flag, more := Encode(1, INT), Frame(t) + rest;
    assert flag[3] == 1;
    assert Frames([t]) == Frame(t) + [] == Frame(t);
    assert Frames(Greeting(Some(t))) + rest == Frame(flag) + more;
    FlagUnderstood(flag, Peer(more, leaves, junk));
    IdUnderstood(t, rest, leaves, junk);
  }

  /** The root makes of a greeting what the other side meant, and reads not a byte more. An empty id or one over the
      limit is refused; the group a member joins is the one it named exactly when the id holds no NUL. */
  lemma GreetingUnderstood(team: Option<Team>, rest: seq<byte>, leaves: bool, junk: seq<byte>)
    requires team.Some? ==> |team.value| < Pow256(HEADER)
    ensures var hello := Handshake(Peer(Frames(Greeting(team)) + rest, leaves, junk));
            && (team.None? <==> hello == PointToPoint)
            && (team.Some? ==> (hello.Broken? <==> !Sendable(team.value)))
            && (team.Some? && Sendable(team.value) ==> hello.Joins? && (hello.team == team.value <==> 0 !in team.value))
    ensures team.None? || Sendable(team.value) ==> Taken(Frames(Greeting(team)) + rest) == |Frames(Greeting(team))|
  {
    if team.Some? {
      AnnouncementUnderstood(team.value, rest, leaves, junk);
      if 0 !in team.value { NoNul(team.value); }
    } else {
      EncodeSmall();
      assert Frames(Greeting(None)) + rest == Frame(Encode(0, INT)) + rest;
      FlagUnderstood(Encode(0, INT), Peer(rest, leaves, junk));
    }
  }

  lemma EncodeSmall()
    ensures Encode(0, INT) == [0, 0, 0, 0] && Encode(1, INT) == [0, 0, 0, 1]
  {
    assert Encode(0, 1) == [0] && Encode(0, 2) == [0, 0] && Encode(0, 3) == [0, 0, 0];
  }

  lemma {:induction false} NoNul(t: Team)
    requires 0 !in t
    ensures CString(t) == t
  {
    if t != [] { NoNul(t[1..]); }
  }

  // In place -----------------------------------------------------------------------------

  /** The first message: r <= 0 when not a byte of the flag arrives. */
  method ReadFlag(h: HandleTCP) returns (r: int, collective: bool)
    requires h.inp.healthy
    modifies h.inp
    ensures r <= 0 <==> |old(h.inp.bytes)| <= HEADER
    ensures r <= 0 ==> h.inp.bytes == []
    ensures r > 0 ==>
              var s := old(h.inp.bytes);
              h.inp.bytes == s[FlagEnd(s)..] && collective == IsCollective(s[HEADER..FlagEnd(s)])
  {
    ghost var s := h.inp.bytes;
    collective := false;
    var size;
    r, size := h.Probe(true);
    if r <= 0 { return; }
    var flag := new byte[INT](_ => 0);
    r := h.Receive(flag, INT);
    if r <= 0 { return; }
    FlagRead(s, r, flag[..]);
    collective := !forall k :: 0 <= k < INT ==> flag[k] == 0;
  }

  /** 0 with the team's id if it is a member's connection, -1 when the handshake fails. The stream of h holds all that
      the peer writes before it hangs up; junk is what the new buffer held. */
  method ConnectionHandshake(h: HandleTCP) returns (r: int, teamID: Option<Team>, ghost junk: seq<byte>)
    requires h.inp.healthy
    modifies h.inp
    ensures h.inp.bytes == old(h.inp.bytes)[Taken(old(h.inp.bytes))..]
    ensures var hello := Handshake(Peer(old(h.inp.bytes), true, junk));
            && (r == -1 <==> hello.Broken?) && (r == -1 || r == 0)
            && teamID == if hello.Joins? then Some(hello.team) else None
  {
    junk := [];
    var n, collective := ReadFlag(h);
    if n <= 0 { return -1, None, junk; }
    if !collective { return 0, None, junk; }
    r, teamID, junk := ReadTeamID(h);
  }

  /** The flag that was zero before the bytes came in is nonzero when one of them is. */
  lemma FlagRead(s: seq<byte>, n: nat, flag: seq<byte>)
    requires |s| > HEADER && n == FlagEnd(s) - HEADER && flag == s[HEADER..FlagEnd(s)] + seq(INT - n, _ => 0)
    ensures IsCollective(s[HEADER..FlagEnd(s)]) <==> !(forall k :: 0 <= k < INT ==> flag[k] == 0)
  {
    var read := s[HEADER..FlagEnd(s)];
    assert forall k :: 0 <= k < n ==> flag[k] == read[k];
    assert forall k :: n <= k < INT ==> flag[k] == 0;
  }

  /** What the new buffer holds as a C string after n bytes have been received into it. */
  lemma IdRead(s: seq<byte>, was: seq<byte>, now: seq<byte>, size: nat, n: nat)
    requires |s| >= HEADER && size == Decode(s[..HEADER]) && 0 < size <= MAX_TEAM_ID
    requires |was| == size + 1 && 0 < n == Min(size, |s| - HEADER) && now == Place(was, 0, s[HEADER..][..n])
    ensures HandshakeId(Peer(s, true, was[n..size])) == Joins(CString(now[..size]))
  {
    assert s[HEADER..][..n] == s[HEADER..HEADER + n];
    assert now[..size] == s[HEADER..HEADER + n] + was[n..size];
    if n == size {
      assert now[..size] == s[HEADER..HEADER + size];
    } else {
      assert s[HEADER..HEADER + n] == s[HEADER..];
      assert Unread(was[n..size], size - n) == was[n..size];
    }
  }

  method ReadTeamID(h: HandleTCP) returns (r: int, teamID: Option<Team>, ghost junk: seq<byte>)
    requires h.inp.healthy
    modifies h.inp
    ensures h.inp.bytes == old(h.inp.bytes)[TakenId(old(h.inp.bytes))..]
    ensures var hello := HandshakeId(Peer(old(h.inp.bytes), true, junk));
            && (r == -1 <==> hello.Broken?) && (r == -1 || r == 0)
            && teamID == if hello.Joins? then Some(hello.team) else None
  {
    ghost var s := h.inp.bytes;
    junk := [];
    var n, size := h.Probe(true);
    if n <= 0 { return -1, None, junk; }
    if size > MAX_TEAM_ID { return -1, None, junk; }
    var buff := new byte[size + 1];
    ghost var was := buff[..];
    n := h.Receive(buff, size);
    if n <= 0 { return -1, None, junk; }
    junk := was[n..size];
    IdRead(s, was, buff[..], size, n);
    r, teamID := 0, Some(CString(buff[..size]));
  }
}
