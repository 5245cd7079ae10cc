/** The two exchanges as the processes run them: loops over handles that send, receive and fill a buffer in place.
    A handle's inbox holds all that its peer will send; the contracts are in terms of Exchange's tables. */
module ExchangeCalls {
  import opened Bytes
  import opened Blocks
  import opened Links
  import X = Exchange

  ghost predicate Fresh(h: Link)
    reads h
  {
    h.Valid() && !h.known && !h.closed
  }

  method TakeNext(h: Link, cap: nat) returns (m: Msg)
    requires Fresh(h) && h.inbox != [] && h.inbox[0] != [] && |h.inbox[0]| <= cap
    modifies h`inbox, h`known, h`knownSize, h`closed
    ensures m == old(h.inbox[0]) && Fresh(h) && h.inbox == old(h.inbox)[1..]
  {
    var r;
    r, m := h.ReceiveFromHandle(cap);
  }

  /** What the root's turn with a handle needs of its inbox, and what it does to the buffer. */
  ghost predicate OobTurnOk(inbox: seq<Msg>, before: seq<byte>, after: seq<byte>, msglen: nat) {
    && |inbox| >= 2 && |inbox[0]| == INT && 0 < |inbox[1]| <= msglen
    && At(Decode(inbox[0]), msglen) + |inbox[1]| <= |before|
    && after == Place(before, At(Decode(inbox[0]), msglen), inbox[1])
  }

  ghost predicate MpiTurnOk(inbox: seq<Msg>, before: seq<byte>, after: seq<byte>, i: nat) {
    && |inbox| >= 1 && |inbox[0]| == INT && At(i + 1, INT) + INT <= |before|
    && after == Place(before, At(i + 1, INT), inbox[0])
  }

  /** h has handed over its first taken messages and been sent these. */
  ghost predicate Visited(h: Link, inbox: seq<Msg>, taken: nat, outbox: seq<Msg>)
    reads h
  {
    Fresh(h) && taken <= |inbox| && h.inbox == inbox[taken..] && h.outbox == outbox
  }

  /** One handle's turn at the oob root. */
  method OobTurn(h: Link, rank: nat, rbuf: array<byte>, msglen: nat, ghost after: seq<byte>)
    requires Fresh(h) && OobTurnOk(h.inbox, rbuf[..], after, msglen)
    modifies h, rbuf
    ensures rbuf[..] == after && Visited(h, old(h.inbox), 2, old(h.outbox) + [Encode(rank, INT)])
  {
    h.Send(Encode(rank, INT));
    var m := TakeNext(h, INT);
    var remoteRank := Decode(m);
    m := TakeNext(h, msglen);
    CopyIn(rbuf, At(remoteRank, msglen), m);
  }

  /** One handle's turn at the root of the MPI exchange. */
  method MpiTurn(h: Link, rank: nat, ranks: array<byte>, i: nat, ghost after: seq<byte>)
    requires Fresh(h) && MpiTurnOk(h.inbox, ranks[..], after, i)
    modifies h, ranks
    ensures ranks[..] == after && Visited(h, old(h.inbox), 1, old(h.outbox) + [Encode(rank, INT)])
  {
    h.Send(Encode(rank, INT));
    var remoteRank := TakeNext(h, INT);
    CopyIn(ranks, At(i + 1, INT), remoteRank);
  }

  ghost predicate Apart(handles: seq<Link>) { forall i, j :: 0 <= i < j < |handles| ==> handles[i] != handles[j] }

  /** The first i handles have handed over so many messages and been sent these; the others are as they were. */
  ghost predicate Through(handles: seq<Link>, i: nat, ins: seq<seq<Msg>>, taken: nat, outs: seq<seq<Msg>>,
                          said: seq<Msg>)
    requires |handles| == |ins| == |outs|
    reads handles
  {
    forall k :: 0 <= k < |handles| ==>
      Visited(handles[k], ins[k], if k < i then taken else 0, if k < i then outs[k] + said else outs[k])
  }

  /** The second loop of either root: the buffer goes to every handle. */
  method Broadcast(handles: seq<Link>, buf: seq<byte>,
                   ghost ins: seq<seq<Msg>>, ghost taken: nat, ghost outs: seq<seq<Msg>>, ghost said: seq<Msg>)
    requires |handles| == |ins| == |outs| && Apart(handles) && Through(handles, |handles|, ins, taken, outs, said)
    modifies handles
    ensures Through(handles, |handles|, ins, taken, outs, said + [buf])
  {
    for i := 0 to |handles|
      invariant forall k :: 0 <= k < |handles| ==>
                  Visited(handles[k], ins[k], taken, if k < i then outs[k] + (said + [buf]) else outs[k] + said)
    {
      assert Visited(handles[i], ins[i], taken, outs[i] + said);
      handles[i].Send(buf);
      assert outs[i] + said + [buf] == outs[i] + (said + [buf]);
    }
  }

  ghost function Inboxes(handles: seq<Link>): (q: seq<seq<Msg>>)
    reads handles
    ensures |q| == |handles| && forall i :: 0 <= i < |q| ==> q[i] == handles[i].inbox
  {
    seq(|handles|, i requires 0 <= i < |handles| reads handles => handles[i].inbox)
  }

  ghost function Outboxes(handles: seq<Link>): (q: seq<seq<Msg>>)
    reads handles
    ensures |q| == |handles| && forall i :: 0 <= i < |q| ==> q[i] == handles[i].outbox
  {
    seq(|handles|, i requires 0 <= i < |handles| reads handles => handles[i].outbox)
  }

  /** The root's buffer before the loop and after each handle. */
  ghost function Fills(c: X.Config, r: nat): (f: seq<seq<byte>>)
    requires X.WellFormed(c) && r < c.Rounds()
    ensures |f| == |c.ranks| + 1
  {
    seq(|c.ranks| + 1, i requires 0 <= i <= |c.ranks| => X.Filled(c, r, i))
  }

  lemma FillsAt(c: X.Config, r: nat, i: nat)
    requires X.WellFormed(c) && r < c.Rounds() && i <= |c.ranks|
    ensures Fills(c, r)[i] == X.Filled(c, r, i)
  {
  }

  /** The first loop of oob_allgather at the root. */
  method OobCollect(handles: seq<Link>, rank: nat, rbuf: array<byte>, msglen: nat,
                    ghost ins: seq<seq<Msg>>, ghost outs: seq<seq<Msg>>, ghost fills: seq<seq<byte>>)
    requires |handles| == |outs| == |ins| == |fills| - 1 && Apart(handles) && rbuf[..] == fills[0]
    requires forall i :: 0 <= i < |ins| ==> OobTurnOk(ins[i], fills[i], fills[i + 1], msglen)
    requires Through(handles, 0, ins, 2, outs, [Encode(rank, INT)])
    modifies handles, rbuf
    ensures rbuf[..] == fills[|handles|] && Through(handles, |handles|, ins, 2, outs, [Encode(rank, INT)])
  {
    for i := 0 to |handles|
      invariant rbuf[..] == fills[i] && Through(handles, i, ins, 2, outs, [Encode(rank, INT)])
    {
      assert Visited(handles[i], ins[i], 0, outs[i]);
      OobTurn(handles[i], rank, rbuf, msglen, fills[i + 1]);
    }
  }

  /** Both loops of oob_allgather at the root, and its own block between them. */
  method OobBody(handles: seq<Link>, rank: nat, sbuf: Msg, rbuf: array<byte>, msglen: nat,
                 ghost ins: seq<seq<Msg>>, ghost outs: seq<seq<Msg>>, ghost fills: seq<seq<byte>>)
    requires |handles| == |outs| == |ins| == |fills| - 1 && Apart(handles) && rbuf[..] == fills[0]
    requires forall i :: 0 <= i < |ins| ==> OobTurnOk(ins[i], fills[i], fills[i + 1], msglen)
    requires Through(handles, 0, ins, 2, outs, [Encode(rank, INT)])
    requires At(rank, msglen) + |sbuf| <= |fills[|handles|]|
    modifies handles, rbuf
    ensures rbuf[..] == Place(fills[|handles|], At(rank, msglen), sbuf)
    ensures Through(handles, |handles|, ins, 2, outs, [Encode(rank, INT)] + [rbuf[..]])
  {
    OobCollect(handles, rank, rbuf, msglen, ins, outs, fills);
    CopyIn(rbuf, At(rank, msglen), sbuf);
    Broadcast(handles, rbuf[..], ins, 2, outs, [Encode(rank, INT)]);
  }

  /** oob_allgather at the root, in round r: the buffer ends as the blocks by rank, and every handle is sent the
      root's rank and then that buffer. */
  method OobRoot(handles: seq<Link>, rank: nat, sbuf: Msg, rbuf: array<byte>, msglen: nat, ghost c: X.Config,
                 ghost r: nat)
    requires Peers(c, r, handles) && c.kind == X.Oob && rank == c.rootRank && msglen == c.size
    requires sbuf == OwnEntry(c, r) && rbuf[..] == c.bufs[r]
    modifies handles, rbuf
    ensures rbuf[..] == X.Result(c, r)
    ensures Through(handles, |handles|, old(Inboxes(handles)), 2, old(Outboxes(handles)),
                    [X.RankMsg(c)] + [X.Result(c, r)])
  {
    OobFills(c, r, Inboxes(handles));
    X.AllFilled(c, r);
    OobBody(handles, rank, sbuf, rbuf, msglen, Inboxes(handles), Outboxes(handles), Fills(c, r));
  }

  lemma OobFills(c: X.Config, r: nat, ins: seq<seq<Msg>>)
    requires X.WellFormed(c) && r < c.Rounds() && c.kind == X.Oob
    requires |ins| == |c.ranks| && forall i :: 0 <= i < |ins| ==> Answer(c, r, i) <= ins[i]
    ensures Fills(c, r)[0] == c.bufs[r]
    ensures forall i :: 0 <= i < |ins| ==> OobTurnOk(ins[i], Fills(c, r)[i], Fills(c, r)[i + 1], c.size)
  {
    forall i | 0 <= i < |ins|
      ensures OobTurnOk(ins[i], Fills(c, r)[i], Fills(c, r)[i + 1], c.size) { OobReady(c, r, i, ins[i]); }
  }

  /** Every handle is the caller's own, and the peer of handle i answers as in round r of c. */
  ghost predicate Peers(c: X.Config, r: nat, handles: seq<Link>)
    reads handles
  {
    && X.WellFormed(c) && r < c.Rounds() && |handles| == |c.ranks|
    && Apart(handles) && forall i :: 0 <= i < |handles| ==> Fresh(handles[i]) && Answer(c, r, i) <= handles[i].inbox
  }

  function Answer(c: X.Config, r: nat, i: nat): seq<Msg>
    requires X.WellFormed(c) && r < c.Rounds() && i < |c.ranks|
  {
    X.Sent(c, i, r, 1, c.Replies() + 1)
  }

  /** The block of the root itself. */
  function OwnEntry(c: X.Config, r: nat): Msg
    requires X.WellFormed(c) && r < c.Rounds()
  {
    X.TableShape(c, r);
    X.Table(c, r)[c.RootSpot()]
  }

  lemma AnswerParts(c: X.Config, r: nat, i: nat, inbox: seq<Msg>)
    requires X.WellFormed(c) && r < c.Rounds() && i < |c.ranks| && Answer(c, r, i) <= inbox
    ensures |inbox| >= c.Replies() && inbox[0] == X.Reply(c, i, r, 1)
    ensures inbox[c.Replies() - 1] == X.Reply(c, i, r, c.Replies())
  {
    assert inbox[0] == Answer(c, r, i)[0] && inbox[c.Replies() - 1] == Answer(c, r, i)[c.Replies() - 1];
  }

  /** A member's answer leads from one filling to the next. */
  lemma OobShape(c: X.Config)
    requires c.kind == X.Oob
    ensures c.Spots() == c.ranks && c.Unit() == c.size && c.Replies() == 2
  {
  }

  lemma OobHead(c: X.Config, r: nat, i: nat, inbox: seq<Msg>)
    requires X.WellFormed(c) && c.kind == X.Oob && r < c.Rounds() && i < |c.ranks| && Answer(c, r, i) <= inbox
    ensures |inbox| >= 2 && |inbox[0]| == INT && Decode(inbox[0]) == c.ranks[i] && inbox[1] == X.Reply(c, i, r, 2)
  {
    OobShape(c);
    AnswerParts(c, r, i, inbox);
    X.RankFits(c, r, i);
  }

  lemma OobPlace(c: X.Config, r: nat, i: nat)
    requires X.WellFormed(c) && c.kind == X.Oob && r < c.Rounds() && i < |c.ranks|
    ensures var off, m := At(c.ranks[i], c.size), X.Reply(c, i, r, 2);
            && 0 < |m| == c.size && off + |m| <= |Fills(c, r)[i]|
            && Fills(c, r)[i + 1] == Place(Fills(c, r)[i], off, m)
  {
    FillsAt(c, r, i);
    FillsAt(c, r, i + 1);
    OobShape(c);
    X.FillNext(c, r, i);
  }

  lemma OobReady(c: X.Config, r: nat, i: nat, inbox: seq<Msg>)
    requires X.WellFormed(c) && c.kind == X.Oob && r < c.Rounds() && i < |c.ranks| && Answer(c, r, i) <= inbox
    ensures OobTurnOk(inbox, Fills(c, r)[i], Fills(c, r)[i + 1], c.size)
  {
    OobHead(c, r, i, inbox);
    OobPlace(c, r, i);
  }

  /** oob_allgather at a member. */
  method OobMember(root: Link, rank: nat, sbuf: Msg, rbuf: array<byte>, ghost c: X.Config,
                   ghost r: nat) returns (rootRank: nat)
    requires X.WellFormed(c) && r < c.Rounds() && Fresh(root) && [X.RankMsg(c), X.Result(c, r)] <= root.inbox
    requires rbuf.Length == At(|c.ranks| + 1, c.Unit())
    modifies root, rbuf
    ensures rootRank == c.rootRank && rbuf[..] == X.Result(c, r)
    ensures Fresh(root) && root.inbox == old(root.inbox)[2..]
    ensures root.outbox == old(root.outbox) + [Encode(rank, INT), sbuf]
  {
    assert root.inbox[0] == X.RankMsg(c) && root.inbox[1] == X.Result(c, r);
    var m := TakeNext(root, INT);
    rootRank := Decode(m);
    DecodeEncode(c.rootRank, INT);
    root.Send(Encode(rank, INT));
    root.Send(sbuf);
    X.ResultLength(c, r);
    var _, sz := root.ProbeHandle();
    var _, buf := root.ReceiveFromHandle(sz);
    CopyIn(rbuf, 0, buf);
  }

  /** The collecting loop of the MPI exchange. */
  method MpiCollect(handles: seq<Link>, rank: nat, ranks: array<byte>,
                    ghost ins: seq<seq<Msg>>, ghost outs: seq<seq<Msg>>, ghost fills: seq<seq<byte>>)
    requires |handles| == |outs| == |ins| == |fills| - 1 && Apart(handles) && ranks[..] == fills[0]
    requires forall i :: 0 <= i < |ins| ==> MpiTurnOk(ins[i], fills[i], fills[i + 1], i)
    requires Through(handles, 0, ins, 1, outs, [Encode(rank, INT)])
    modifies handles, ranks
    ensures ranks[..] == fills[|handles|] && Through(handles, |handles|, ins, 1, outs, [Encode(rank, INT)])
  {
    for i := 0 to |handles|
      invariant ranks[..] == fills[i] && Through(handles, i, ins, 1, outs, [Encode(rank, INT)])
    {
      assert Visited(handles[i], ins[i], 0, outs[i]);
      MpiTurn(handles[i], rank, ranks, i, fills[i + 1]);
    }
  }

  /** The rank exchange at the root of an MPI collective; ranks is its array as the bytes it is sent as. */
  method MpiRoot(handles: seq<Link>, rank: nat, ranks: array<byte>, ghost c: X.Config, ghost r: nat)
    requires Peers(c, r, handles) && c.kind == X.Mpi && rank == c.rootRank && ranks[..] == c.bufs[r]
    modifies handles, ranks
    ensures ranks[..] == X.Result(c, r)
    ensures Through(handles, |handles|, old(Inboxes(handles)), 1, old(Outboxes(handles)),
                    [X.RankMsg(c)] + [X.Result(c, r)])
  {
    SlotBound(0, |c.ranks| + 1, INT);
    CopyIn(ranks, At(0, INT), Encode(rank, INT));
    ghost var ins, outs := Inboxes(handles), Outboxes(handles);
    MpiFills(c, r, ins);
    X.AllFilled(c, r);
    MpiCollect(handles, rank, ranks, ins, outs, Fills(c, r));
    Broadcast(handles, ranks[..], ins, 1, outs, [Encode(rank, INT)]);
  }

  lemma MpiFills(c: X.Config, r: nat, ins: seq<seq<Msg>>)
    requires X.WellFormed(c) && r < c.Rounds() && c.kind == X.Mpi
    requires |ins| == |c.ranks| && forall i :: 0 <= i < |ins| ==> Answer(c, r, i) <= ins[i]
    ensures Fills(c, r)[0] == X.Begin(c, r)
    ensures forall i :: 0 <= i < |ins| ==> MpiTurnOk(ins[i], Fills(c, r)[i], Fills(c, r)[i + 1], i)
  {
    forall i | 0 <= i < |ins|
      ensures MpiTurnOk(ins[i], Fills(c, r)[i], Fills(c, r)[i + 1], i) { MpiReady(c, r, i, ins[i]); }
  }

  lemma MpiReady(c: X.Config, r: nat, i: nat, inbox: seq<Msg>)
    requires X.WellFormed(c) && c.kind == X.Mpi && r < c.Rounds() && i < |c.ranks| && Answer(c, r, i) <= inbox
    ensures MpiTurnOk(inbox, Fills(c, r)[i], Fills(c, r)[i + 1], i)
  {
    FillsAt(c, r, i);
    FillsAt(c, r, i + 1);
    AnswerParts(c, r, i, inbox);
    X.FillNext(c, r, i);
  }

  /** The rank exchange at a member: it allocates for what the root announces. */
  method MpiMember(root: Link, rank: nat, ghost c: X.Config, ghost r: nat) returns (rootRank: nat, collSize: nat,
                   ranks: seq<byte>)
    requires X.WellFormed(c) && c.kind == X.Mpi && r < c.Rounds() && Fresh(root)
    requires [X.RankMsg(c), X.Result(c, r)] <= root.inbox
    modifies root
    ensures rootRank == c.rootRank && ranks == X.Result(c, r) && collSize == |c.ranks| + 1
    ensures Fresh(root) && root.inbox == old(root.inbox)[2..] && root.outbox == old(root.outbox) + [Encode(rank, INT)]
  {
    assert root.inbox[0] == X.RankMsg(c) && root.inbox[1] == X.Result(c, r);
    var m := TakeNext(root, INT);
    rootRank := Decode(m);
    DecodeEncode(c.rootRank, INT);
    root.Send(Encode(rank, INT));
    X.ResultLength(c, r);
    var _, sz := root.ProbeHandle();
    collSize := sz / INT;
    AtIsProduct(|c.ranks| + 1, INT);
    var _, buf := root.ReceiveFromHandle(sz);
    ranks := buf;
  }
}
