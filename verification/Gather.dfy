/** GatherGeneric: every non-root process sends its rank and a block, and the root puts each block at the
    offset its rank gives, whatever the order of its participants. */
module Gather {
  import opened Bytes
  import opened Blocks
  import opened Links

  /** The two messages of one round of send. Ranks travel in the sender's native int layout, the same on both ends. */
  function RoundMessages(rank: nat, block: Msg): seq<Msg> { [Encode(rank, INT), block] }

  /** Everything a sender ever sends: one round after the other, with no waiting in between. */
  function Traffic(rank: nat, blocks: seq<Msg>): seq<Msg>
  {
    if blocks == [] then [] else RoundMessages(rank, blocks[0]) + Traffic(rank, blocks[1..])
  }

  /** Result of the root's receive: its return value, the buffer and the participants' links. */
  datatype Outcome = Outcome(r: int, buf: seq<byte>, links: seq<LinkState>)

  /** remote_rank after a message of at most its length has been read into it. Where no byte arrived it holds what its
      memory held before: junk. */
  function RankOf(m: Msg, junk: seq<byte>): nat
    requires |m| <= INT
  {
    Decode(m + Unread(junk, INT - |m|))
  }

  lemma WholeRank(m: Msg, junk: seq<byte>)
    requires |m| == INT
    ensures RankOf(m, junk) == Decode(m)
  {
    assert m + Unread(junk, 0) == m;
  }

  /** The link answers what receive asks of it, and a block that will be written has room at the rank read. A rank
      message longer than an int is refused before anything else. */
  predicate Ready(l: LinkState, len: nat, size: nat, junk: seq<byte>) {
    || l.closed
    || (l.inbox != [] && (l.inbox[0] == [] || |l.inbox[0]| > INT))
    || (|l.inbox| >= 2 && |l.inbox[0]| <= INT
        && (|l.inbox[1]| <= size ==> At(RankOf(l.inbox[0], junk), size) + |l.inbox[1]| <= len))
  }

  datatype Turn = Turn(r: int, buf: seq<byte>, l: LinkState)

  /** One participant's rank and block; junk is what remote_rank's memory held. */
  function TakeTurn(l: LinkState, buf: seq<byte>, size: nat, junk: seq<byte>): (t: Turn)
    requires Ready(l, |buf|, size, junk)
    ensures |t.buf| == |buf|
  {
    var g1 := Recv(l, INT);
    if g1.r <= 0 then Turn(g1.r, buf, g1.l)
    else
      var g2 := Recv(g1.l, size);
      if g2.r <= 0 then Turn(g2.r, buf, g2.l)
      else Turn(g2.r, Place(buf, At(RankOf(g1.m, junk), size), g2.m), g2.l)
  }

  /** The loop of receive from participant j on. */
  function ReceiveFrom(links: seq<LinkState>, j: nat, buf: seq<byte>, size: nat, junk: seq<seq<byte>>): (o: Outcome)
    requires j <= |links| && AllReady(links, j, |buf|, size, junk)
    ensures |o.links| == |links| && |o.buf| == |buf|
    decreases |links| - j
  {
    if j == |links| then Outcome(HEADER, buf, links)
    else
      var t := TakeTurn(links[j], buf, size, junk[j]);
      if t.r <= 0 then Outcome(t.r, buf, links[j := t.l])
      else ReceiveFrom(links[j := t.l], j + 1, t.buf, size, junk)
  }

  /** The participant's stream is over before its rank or before its block. */
  predicate Ended(l: LinkState) {
    || l.closed
    || (l.inbox != [] && l.inbox[0] == [])
    || (|l.inbox| >= 2 && |l.inbox[0]| <= 4 && l.inbox[1] == [])
  }

  /** Its rank is longer than an int, or its block than the size given. */
  predicate TooLong(l: LinkState, size: nat) {
    && !l.closed
    && l.inbox != [] && l.inbox[0] != []
    && (|l.inbox[0]| > 4 || (|l.inbox| >= 2 && |l.inbox[1]| > size))
  }

  /** What a turn returns. */
  lemma TurnReturns(l: LinkState, buf: seq<byte>, size: nat, junk: seq<byte>)
    requires Ready(l, |buf|, size, junk)
    ensures var r := TakeTurn(l, buf, size, junk).r;
            && (Ended(l) ==> r == 0)
            && (!Ended(l) && TooLong(l, size) ==> r == -1)
            && (!Ended(l) && !TooLong(l, size) ==> r > 0)
  {
  }

  /** The loop stops at the first participant whose rank or block does not come through: it returns 0 if that one's
      stream is over and -1 if it sent too much, and later participants have not been touched. */
  lemma {:induction false} FirstFailureStops(links: seq<LinkState>, j: nat, buf: seq<byte>, size: nat,
                                             junk: seq<seq<byte>>) returns (k: nat)
    requires j <= |links| && AllReady(links, j, |buf|, size, junk)
    ensures j <= k <= |links|
    ensures var o := ReceiveFrom(links, j, buf, size, junk);
            && (k == |links| ==> o.r == HEADER)
            && (k < |links| ==> o.links[k + 1..] == links[k + 1..])
            && (k < |links| && Ended(links[k]) ==> o.r == 0)
            && (k < |links| && !Ended(links[k]) ==> TooLong(links[k], size) && o.r == -1)
            && (forall i :: j <= i < k ==> !Ended(links[i]) && !TooLong(links[i], size))
            && o.links[..j] == links[..j]
    decreases |links| - j
  {
    k := j;
    if j < |links| {
      var t := TakeTurn(links[j], buf, size, junk[j]);
      TurnReturns(links[j], buf, size, junk[j]);
      if t.r > 0 {
        k := FirstFailureStops(links[j := t.l], j + 1, t.buf, size, junk);
        var o := ReceiveFrom(links[j := t.l], j + 1, t.buf, size, junk);
        assert o.links[..j] == o.links[..j + 1][..j] == links[..j];
      }
    }
  }

  /** What a participant that has sent its rank and its block looks like to the root. */
  function HasSent(rank: nat, block: Msg, rest: seq<Msg>): LinkState { LinkState(RoundMessages(rank, block) + rest,
                   false, false) }

  /** A turn delivers if and only if the block fits the size given. Then the block is in the buffer at its rank's offset
      and the rest of the traffic is next; otherwise the buffer is as before, the rank is gone and the block is next. */
  lemma TurnDeliversIffFits(rank: nat, block: Msg, rest: seq<Msg>, buf: seq<byte>, size: nat, junk: seq<byte>)
    requires block != [] && rank < Pow256(INT) && (|block| <= size ==> At(rank, size) + |block| <= |buf|)
    ensures Ready(HasSent(rank, block, rest), |buf|, size, junk)
    ensures var t := TakeTurn(HasSent(rank, block, rest), buf, size, junk);
            && (t.r > 0 <==> |block| <= size)
            && (|block| <= size ==> t == Turn(|block|, Place(buf, At(rank, size), block),
                                                 LinkState(rest, false, false)))
            && (|block| > size ==> t == Turn(-1, buf, Refused(block, rest)))
  {
    DecodeEncode(rank, INT);
    WholeRank(Encode(rank, INT), junk);
    var l := HasSent(rank, block, rest);
    assert l.inbox[0] == Encode(rank, INT) && l.inbox[1..] == [block] + rest;
    var g1 := Recv(l, INT);
    assert g1.l.inbox[0] == block && g1.l.inbox[1..] == rest;
  }

  /** The link after a block has been refused: its header is cached. */
  function Refused(block: Msg, rest: seq<Msg>): LinkState { LinkState([block] + rest, true, false) }

  /** The next call takes the refused block for a rank. Longer than an int, it is refused for ever, whatever the
      size and the buffer; otherwise it is taken, with stale bytes of remote_rank for those it lacks, and the message
      after it becomes the block. */
  lemma AfterRefusal(block: Msg, rest: seq<Msg>, buf: seq<byte>, size: nat, junk: seq<byte>)
    requires block != []
    ensures |block| > INT ==>
              && Ready(Refused(block, rest), |buf|, size, junk)
              && TakeTurn(Refused(block, rest), buf, size, junk) == Turn(-1, buf, Refused(block, rest))
    ensures |block| <= INT && rest != [] && 0 < |rest[0]| <= size
            && At(RankOf(block, junk), size) + |rest[0]| <= |buf| ==>
              && Ready(Refused(block, rest), |buf|, size, junk)
              && TakeTurn(Refused(block, rest), buf, size, junk)
                 == Turn(|rest[0]|, Place(buf, At(RankOf(block, junk), size), rest[0]),
                         LinkState(rest[1..], false, false))
  {
    var l := Refused(block, rest);
    assert l.inbox[0] == block && l.inbox[1..] == rest;
  }

  /** A participant refused once can deliver again, whatever remote_rank holds, if and only if its block is no longer
      than an int. */
  lemma RetryCanDeliverIffNotLonger(block: Msg, rest: seq<Msg>, junk: seq<byte>)
    requires block != [] && rest != [] && rest[0] != []
    ensures |block| <= INT <==>
              exists buf: seq<byte>, size: nat ::
                Ready(Refused(block, rest), |buf|, size, junk)
                && TakeTurn(Refused(block, rest), buf, size, junk).r > 0
  {
    if |block| <= INT {
      var size := |rest[0]|;
      var buf: seq<byte> := seq(At(RankOf(block, junk), size) + size, _ => 0);
      AfterRefusal(block, rest, buf, size, junk);
    } else {
      forall buf: seq<byte>, size: nat | Ready(Refused(block, rest), |buf|, size, junk)
        ensures TakeTurn(Refused(block, rest), buf, size, junk).r <= 0
      {
        AfterRefusal(block, rest, buf, size, junk);
      }
    }
  }

  /** So every block that fits an int can be taken for a rank: refused once and tried again with room for an int, the
      call succeeds, the block is gone, and the slot of the rank it reads as holds the rank that begins the sender's
      next round. */
  lemma RankTakenForBlock(rank: nat, block: Msg, next: Msg, rest: seq<Msg>, buf: seq<byte>, junk: seq<byte>)
    requires rank < Pow256(INT) && 0 < |block| <= INT && At(RankOf(block, junk), INT) + INT <= |buf|
    ensures var l := HasSent(rank, block, RoundMessages(rank, next) + rest);
            && Ready(l, |buf|, |block| - 1, junk)
            && var t := TakeTurn(l, buf, |block| - 1, junk);
               && t.r == -1 && Ready(t.l, |buf|, INT, junk)
               && TakeTurn(t.l, buf, INT, junk)
                  == Turn(INT, Place(buf, At(RankOf(block, junk), INT), Encode(rank, INT)),
                          LinkState([next] + rest, false, false))
  {
    var more := RoundMessages(rank, next) + rest;
    TurnDeliversIffFits(rank, block, more, buf, |block| - 1, junk);
    assert more[0] == Encode(rank, INT) && more[1..] == [next] + rest;
    AfterRefusal(block, more, buf, INT, junk);
  }

  // The property -------------------------------------------------------------------------

  /** Participant i has rank ranks[i] and will send blocks[i], one block a round. */
  ghost predicate Senders(links: seq<LinkState>, ranks: seq<nat>, blocks: seq<seq<Msg>>, size: nat) {
    && |links| == |ranks| == |blocks| && size > 0
    && (forall i :: 0 <= i < |links| ==>
          && ranks[i] < Pow256(INT)
          && (forall k :: 0 <= k < |blocks[i]| ==> |blocks[i][k]| == size)
          && links[i] == Waiting(ranks[i], blocks[i]))
  }

  /** The blocks of one round by rank: the root's own and one from each participant. */
  ghost predicate ByRank(bs: seq<Msg>, ranks: seq<nat>, own: Msg, rootRank: nat, round: seq<Msg>) {
    && rootRank < |bs| && bs[rootRank] == own && |ranks| == |round|
    && forall i :: 0 <= i < |ranks| ==> ranks[i] < |bs| && bs[ranks[i]] == round[i]
  }

  /** What one round asks of a participant: rank in range and a next block, of the common size. */
  ghost predicate HasBlock(rank: nat, blocks: seq<Msg>, bs: seq<Msg>, size: nat) {
    rank < |bs| <= Pow256(INT) && blocks != [] && bs[rank] == blocks[0] && |blocks[0]| == size > 0
  }

  function Waiting(rank: nat, blocks: seq<Msg>): LinkState { LinkState(Traffic(rank, blocks), false, false) }

  /** Participants before j have sent this round's block, the others not yet. */
  ghost predicate MidRound(links: seq<LinkState>, j: nat, ranks: seq<nat>, blocks: seq<seq<Msg>>, bs: seq<Msg>,
                           size: nat) {
    && |links| == |ranks| == |blocks|
    && (forall i :: 0 <= i < |bs| ==> |bs[i]| == size)
    && (forall i :: 0 <= i < |ranks| ==> ranks[i] < |bs|)
    && (forall i :: 0 <= i < |ranks| ==> HasBlock(ranks[i], blocks[i], bs, size))
    && (forall i :: 0 <= i < |links| ==> links[i] == Waiting(ranks[i], if i < j then blocks[i][1..] else blocks[i]))
  }

  predicate AllReady(links: seq<LinkState>, j: nat, len: nat, size: nat, junk: seq<seq<byte>>) {
    |junk| == |links| && forall i :: j <= i < |links| ==> Ready(links[i], len, size, junk[i])
  }

  lemma MidRoundReady(links: seq<LinkState>, j: nat, ranks: seq<nat>, blocks: seq<seq<Msg>>, bs: seq<Msg>,
                      buf: seq<byte>, size: nat, junk: seq<seq<byte>>)
    requires MidRound(links, j, ranks, blocks, bs, size) && |buf| == At(|bs|, size) && |junk| == |links|
    ensures AllReady(links, j, |buf|, size, junk)
  {
    forall i | j <= i < |links| ensures Ready(links[i], |buf|, size, junk[i]) {
      assert HasBlock(ranks[i], blocks[i], bs, size);
      SlotBound(ranks[i], |bs|, size);
      TurnDeliversIffFits(ranks[i], blocks[i][0], Traffic(ranks[i], blocks[i][1..]), buf, size, junk[i]);
    }
  }

  /** A participant's turn puts its block in place. */
  lemma MidRoundTurn(links: seq<LinkState>, j: nat, size: nat, junk: seq<byte>,
                     ranks: seq<nat>, blocks: seq<seq<Msg>>, bs: seq<Msg>, buf0: seq<byte>)
    requires MidRound(links, j, ranks, blocks, bs, size) && j < |links| && |buf0| == At(|bs|, size)
    requires Ready(links[j], |buf0|, size, junk)
    ensures TakeTurn(links[j], Assemble(buf0, ranks, bs, size, j), size, junk)
         == Turn(size, Assemble(buf0, ranks, bs, size, j + 1), Waiting(ranks[j], blocks[j][1..])) && size > 0
  {
    assert HasBlock(ranks[j], blocks[j], bs, size);
    SlotBound(ranks[j], |bs|, size);
    var later := Traffic(ranks[j], blocks[j][1..]);
    TurnDeliversIffFits(ranks[j], blocks[j][0], later, Assemble(buf0, ranks, bs, size, j), size, junk);
  }

  lemma Unfold(links: seq<LinkState>, j: nat, buf: seq<byte>, size: nat, junk: seq<seq<byte>>, t: Turn)
    requires j < |links| && AllReady(links, j, |buf|, size, junk)
    requires t == TakeTurn(links[j], buf, size, junk[j]) && t.r > 0
    ensures AllReady(links[j := t.l], j + 1, |buf|, size, junk)
    ensures ReceiveFrom(links, j, buf, size, junk) == ReceiveFrom(links[j := t.l], j + 1, t.buf, size, junk)
  {
  }

  /** Its turn done, the rest of the round is the others'. */
  lemma MidRoundStep(links: seq<LinkState>, j: nat, size: nat, junk: seq<seq<byte>>,
                     ranks: seq<nat>, blocks: seq<seq<Msg>>, bs: seq<Msg>, buf0: seq<byte>) returns (l: LinkState)
    requires MidRound(links, j, ranks, blocks, bs, size) && j < |links| && |buf0| == At(|bs|, size)
    requires AllReady(links, j, |buf0|, size, junk)
    ensures MidRound(links[j := l], j + 1, ranks, blocks, bs, size)
    ensures AllReady(links[j := l], j + 1, |buf0|, size, junk)
    ensures ReceiveFrom(links, j, Assemble(buf0, ranks, bs, size, j), size, junk)
         == ReceiveFrom(links[j := l], j + 1, Assemble(buf0, ranks, bs, size, j + 1), size, junk)
  {
    l := Waiting(ranks[j], blocks[j][1..]);
    MidRoundTurn(links, j, size, junk[j], ranks, blocks, bs, buf0);
    Unfold(links, j, Assemble(buf0, ranks, bs, size, j), size, junk,
           Turn(size, Assemble(buf0, ranks, bs, size, j + 1), l));
  }

  /** One round consumes one block of every participant and builds the buffer of Blocks.Assemble. */
  lemma {:induction false} ReceiveAssembles(links: seq<LinkState>, j: nat, size: nat, junk: seq<seq<byte>>,
                                            ranks: seq<nat>, blocks: seq<seq<Msg>>, bs: seq<Msg>, buf0: seq<byte>)
    requires MidRound(links, j, ranks, blocks, bs, size) && j <= |links| && |buf0| == At(|bs|, size)
    requires AllReady(links, j, |buf0|, size, junk)
    ensures var o := ReceiveFrom(links, j, Assemble(buf0, ranks, bs, size, j), size, junk);
            && o.r == HEADER && o.buf == Assemble(buf0, ranks, bs, size, |ranks|)
            && MidRound(o.links, |ranks|, ranks, blocks, bs, size)
    decreases |links| - j
  {
    if j < |links| {
      var l := MidRoundStep(links, j, size, junk, ranks, blocks, bs, buf0);
      ReceiveAssembles(links[j := l], j + 1, size, junk, ranks, blocks, bs, buf0);
    }
  }

  /** sendrecv at the root: its own block first, then everyone else's. */
  function SendRecv(links: seq<LinkState>, rootRank: nat, own: Msg, buf: seq<byte>, size: nat,
                    junk: seq<seq<byte>>): Outcome
    requires At(rootRank, |own|) + |own| <= |buf|
    requires AllReady(links, 0, |buf|, size, junk)
  {
    ReceiveFrom(links, 0, Place(buf, At(rootRank, |own|), own), size, junk)
  }

  /** Every process has its next block ready and the buffer has a slot for each rank. */
  ghost predicate RoundSetup(links: seq<LinkState>, ranks: seq<nat>, blocks: seq<seq<Msg>>, rootRank: nat, own: Msg,
                             bs: seq<Msg>, size: nat)
  {
    && Senders(links, ranks, blocks, size) && Ranking(ranks + [rootRank], |bs|) && |bs| <= Pow256(INT)
    && Uniform(bs, size) && |own| == size
    && (forall i :: 0 <= i < |blocks| ==> blocks[i] != [])
    && ByRank(bs, ranks, own, rootRank, Column(blocks, 0))
  }

  lemma SetupReady(links: seq<LinkState>, ranks: seq<nat>, blocks: seq<seq<Msg>>, rootRank: nat, own: Msg,
                   bs: seq<Msg>, buf: seq<byte>, size: nat, junk: seq<seq<byte>>)
    requires RoundSetup(links, ranks, blocks, rootRank, own, bs, size) && |buf| == At(|bs|, size)
    requires |junk| == |links|
    ensures At(rootRank, size) + size <= |buf| && AllReady(links, 0, |buf|, size, junk)
    ensures MidRound(links, 0, ranks, blocks, bs, size) && RootSlot(ranks, rootRank, own, bs, size)
    ensures size > 0 && MoreBlocks(ranks, blocks, size)
  {
    RankBounds(ranks, rootRank, |bs|);
    SlotBound(rootRank, |bs|, size);
    forall i | 0 <= i < |ranks| ensures HasBlock(ranks[i], blocks[i], bs, size) {
      assert Column(blocks, 0)[i] == blocks[i][0];
    }
    MidRoundReady(links, 0, ranks, blocks, bs, buf, size, junk);
  }

  ghost predicate RootSlot(ranks: seq<nat>, rootRank: nat, own: Msg, bs: seq<Msg>, size: nat) {
    Ranking(ranks + [rootRank], |bs|) && rootRank < |bs| && own == bs[rootRank] && |own| == size
  }

  ghost predicate MoreBlocks(ranks: seq<nat>, blocks: seq<seq<Msg>>, size: nat) {
    && |ranks| == |blocks|
    && forall i :: 0 <= i < |blocks| ==>
         blocks[i] != [] && ranks[i] < Pow256(INT) && forall k :: 0 <= k < |blocks[i]| ==> |blocks[i][k]| == size
  }

  /** One round at the root: the buffer holds every rank's block at At(rank, size) and nothing else, whatever the
      participants' order and the buffer's old contents, and the next round's blocks are next on every link. */
  lemma GatherRound(links: seq<LinkState>, ranks: seq<nat>, blocks: seq<seq<Msg>>, rootRank: nat, own: Msg,
                    bs: seq<Msg>, buf: seq<byte>, size: nat, junk: seq<seq<byte>>)
    requires RoundSetup(links, ranks, blocks, rootRank, own, bs, size) && |buf| == At(|bs|, size)
    requires |junk| == |links|
    ensures At(rootRank, size) + size <= |buf| && AllReady(links, 0, |buf|, size, junk)
    ensures var o := SendRecv(links, rootRank, own, buf, size, junk);
            o.r == HEADER && o.buf == Flatten(bs) && Senders(o.links, ranks, Tails(blocks), size)
  {
    SetupReady(links, ranks, blocks, rootRank, own, bs, buf, size, junk);
    RoundFrom(links, ranks, blocks, rootRank, own, bs, buf, size, junk);
  }

  lemma RoundFrom(links: seq<LinkState>, ranks: seq<nat>, blocks: seq<seq<Msg>>, rootRank: nat, own: Msg,
                  bs: seq<Msg>, buf: seq<byte>, size: nat, junk: seq<seq<byte>>)
    requires MidRound(links, 0, ranks, blocks, bs, size) && |buf| == At(|bs|, size)
    requires RootSlot(ranks, rootRank, own, bs, size) && size > 0 && MoreBlocks(ranks, blocks, size)
    requires At(rootRank, size) + size <= |buf| && AllReady(links, 0, |buf|, size, junk)
    ensures var o := SendRecv(links, rootRank, own, buf, size, junk);
            o.r == HEADER && o.buf == Flatten(bs) && Senders(o.links, ranks, Tails(blocks), size)
  {
    OwnBlock(buf, rootRank, own, |bs|);
    var buf0 := Place(buf, At(rootRank, |own|), own);
    RoundCore(links, ranks, blocks, rootRank, bs, buf0, size, junk);
    SendersLater(ReceiveFrom(links, 0, buf0, size, junk).links, ranks, blocks, bs, size);
  }

  lemma OwnBlock(buf: seq<byte>, rank: nat, own: Msg, n: nat)
    requires rank < n && |buf| == At(n, |own|)
    ensures At(rank, |own|) + |own| <= |buf|
    ensures Slot(Place(buf, At(rank, |own|), own), rank, n, |own|) == own
  {
    SlotBound(rank, n, |own|);
    PlaceSlot(buf, rank, rank, own, n, |own|);
  }

  lemma RoundCore(links: seq<LinkState>, ranks: seq<nat>, blocks: seq<seq<Msg>>, rootRank: nat,
                  bs: seq<Msg>, buf0: seq<byte>, size: nat, junk: seq<seq<byte>>)
    requires MidRound(links, 0, ranks, blocks, bs, size) && |buf0| == At(|bs|, size)
    requires Ranking(ranks + [rootRank], |bs|) && rootRank < |bs| && Slot(buf0, rootRank, |bs|, size) == bs[rootRank]
    requires AllReady(links, 0, |buf0|, size, junk)
    ensures var o := ReceiveFrom(links, 0, buf0, size, junk);
            o.r == HEADER && o.buf == Flatten(bs) && MidRound(o.links, |ranks|, ranks, blocks, bs, size)
  {
    ReceiveAssembles(links, 0, size, junk, ranks, blocks, bs, buf0);
    AllPlaced(buf0, ranks, rootRank, bs, size);
  }

  lemma RankBounds(ranks: seq<nat>, rootRank: nat, n: nat)
    requires Ranking(ranks + [rootRank], n)
    ensures rootRank < n && forall i :: 0 <= i < |ranks| ==> ranks[i] < n
  {
    var all := ranks + [rootRank];
    assert all[|ranks|] == rootRank;
    forall i | 0 <= i < |ranks| ensures ranks[i] < n { assert all[i] == ranks[i]; }
  }

  lemma SendersLater(links: seq<LinkState>, ranks: seq<nat>, blocks: seq<seq<Msg>>, bs: seq<Msg>, size: nat)
    requires size > 0 && MidRound(links, |ranks|, ranks, blocks, bs, size) && MoreBlocks(ranks, blocks, size)
    ensures Senders(links, ranks, Tails(blocks), size)
  {
  }

  /** The k-th block of every participant. */
  function Column(blocks: seq<seq<Msg>>, k: nat): (c: seq<Msg>)
    requires forall i :: 0 <= i < |blocks| ==> k < |blocks[i]|
    ensures |c| == |blocks| && forall i :: 0 <= i < |c| ==> c[i] == blocks[i][k]
  {
    seq(|blocks|, i requires 0 <= i < |blocks| => blocks[i][k])
  }

  function Tails(blocks: seq<seq<Msg>>): seq<seq<Msg>>
    requires forall i :: 0 <= i < |blocks| ==> blocks[i] != []
  {
    seq(|blocks|, i requires 0 <= i < |blocks| => blocks[i][1..])
  }

  /** The root's buffers over consecutive rounds; owns[k] and bufs[k] are its block and its buffer in round k. */
  ghost predicate RoundsOk(links: seq<LinkState>, rootRank: nat, owns: seq<Msg>, bufs: seq<seq<byte>>, size: nat,
                           junks: seq<seq<seq<byte>>>, tables: seq<seq<Msg>>)
    decreases |tables|
  {
    && |owns| == |bufs| == |junks| == |tables|
    && (tables != [] ==>
          && At(rootRank, |owns[0]|) + |owns[0]| <= |bufs[0]|
          && AllReady(links, 0, |bufs[0]|, size, junks[0])
          && var o := SendRecv(links, rootRank, owns[0], bufs[0], size, junks[0]);
             o.r == HEADER && o.buf == Flatten(tables[0]) &&
                RoundsOk(o.links, rootRank, owns[1..], bufs[1..], size, junks[1..], tables[1..]))
  }

  /** The k-th round: its table lists the root's own block and everyone's k-th, all of the same size. */
  ghost predicate RoundOf(k: nat, ranks: seq<nat>, blocks: seq<seq<Msg>>, rootRank: nat,
                          owns: seq<Msg>, bufs: seq<seq<byte>>, tables: seq<seq<Msg>>, n: nat, size: nat)
    requires k < |tables| == |owns| == |bufs| && forall i :: 0 <= i < |blocks| ==> |blocks[i]| == |tables|
  {
    && |tables[k]| == n && Uniform(tables[k], size) && |owns[k]| == size && |bufs[k]| == At(n, size)
    && ByRank(tables[k], ranks, owns[k], rootRank, Column(blocks, k))
  }

  lemma NextRoundOf(k: nat, ranks: seq<nat>, blocks: seq<seq<Msg>>, rootRank: nat,
                    owns: seq<Msg>, bufs: seq<seq<byte>>, tables: seq<seq<Msg>>, n: nat, size: nat)
    requires k + 1 < |tables| == |owns| == |bufs| && forall i :: 0 <= i < |blocks| ==> |blocks[i]| == |tables|
    requires RoundOf(k + 1, ranks, blocks, rootRank, owns, bufs, tables, n, size)
    ensures RoundOf(k, ranks, Tails(blocks), rootRank, owns[1..], bufs[1..], tables[1..], n, size)
  {
    assert Column(Tails(blocks), k) == Column(blocks, k + 1);
  }

  /** Any number of rounds, the senders free to run ahead of the root: in round k the root holds exactly the
      k-th block of every rank, in rank order. tables[k] is that round's blocks by rank. */
  lemma {:induction false} GatherRounds(links: seq<LinkState>, ranks: seq<nat>, blocks: seq<seq<Msg>>, rootRank: nat,
                                        owns: seq<Msg>, bufs: seq<seq<byte>>, junks: seq<seq<seq<byte>>>,
                                        tables: seq<seq<Msg>>, n: nat, size: nat)
    requires Senders(links, ranks, blocks, size) && Ranking(ranks + [rootRank], n) && n <= Pow256(INT)
    requires |owns| == |bufs| == |junks| == |tables| && forall i :: 0 <= i < |blocks| ==> |blocks[i]| == |tables|
    requires forall k :: 0 <= k < |junks| ==> |junks[k]| == |links|
    requires forall k :: 0 <= k < |tables| ==> RoundOf(k, ranks, blocks, rootRank, owns, bufs, tables, n, size)
    ensures RoundsOk(links, rootRank, owns, bufs, size, junks, tables)
    decreases |tables|
  {
    if tables != [] {
      assert RoundOf(0, ranks, blocks, rootRank, owns, bufs, tables, n, size);
      GatherRound(links, ranks, blocks, rootRank, owns[0], tables[0], bufs[0], size, junks[0]);
      var o := SendRecv(links, rootRank, owns[0], bufs[0], size, junks[0]);
      forall k | 0 <= k < |tables| - 1
        ensures RoundOf(k, ranks, Tails(blocks), rootRank, owns[1..], bufs[1..], tables[1..], n, size)
      {
        NextRoundOf(k, ranks, blocks, rootRank, owns, bufs, tables, n, size);
      }
      GatherRounds(o.links, ranks, Tails(blocks), rootRank, owns[1..], bufs[1..], junks[1..],
                   tables[1..], n, size);
    }
  }

  // In place -----------------------------------------------------------------------------

  class GatherRoot {
    const participants: seq<Link>
    const rank: nat

    constructor (participants: seq<Link>, rank: nat)
      ensures this.participants == participants && this.rank == rank
    {
      this.participants, this.rank := participants, rank;
    }

    ghost predicate Valid()
      reads participants
    {
      && (forall i, j :: 0 <= i < j < |participants| ==> participants[i] != participants[j])
      && (forall i :: 0 <= i < |participants| ==> participants[i].Valid())
    }

    ghost function States(): (s: seq<LinkState>)
      reads participants
      ensures |s| == |participants|
      ensures forall i :: 0 <= i < |s| ==> s[i] == participants[i].State()
    {
      seq(|participants|, i requires 0 <= i < |participants| reads participants => participants[i].State())
    }

    /** One participant's turn in receive. */
    method ReceiveOne(j: nat, buff: array<byte>, size: nat, junk: seq<byte>) returns (r: int)
      requires Valid() && j < |participants| && Ready(participants[j].State(), buff.Length, size, junk)
      modifies buff, participants[j]
      ensures participants[j].Valid()
      ensures Turn(r, buff[..], participants[j].State()) 
           == TakeTurn(old(participants[j].State()), old(buff[..]), size, junk)
    {
      var h := participants[j];
      var m;
      r, m := h.ReceiveFromHandle(INT);
      if r <= 0 { return; }
      var remoteRank := RankOf(m, junk);
      r, m := h.ReceiveFromHandle(size);
      if r <= 0 { return; }
      CopyIn(buff, At(remoteRank, size), m);
    }

    /** One iteration, in terms of what the loop has left to do. */
    method Iterate(j: nat, buff: array<byte>, size: nat, junk: seq<seq<byte>>) returns (r: int)
      requires Valid() && j < |participants| && AllReady(States(), j, buff.Length, size, junk)
      modifies buff, participants
      ensures Valid()
      ensures r <= 0 ==> Outcome(r, buff[..], States()) == ReceiveFrom(old(States()), j, old(buff[..]), size, junk)
      ensures r > 0 ==> AllReady(States(), j + 1, buff.Length, size, junk)
      ensures r > 0 ==>
                ReceiveFrom(States(), j + 1, buff[..], size, junk)
                == ReceiveFrom(old(States()), j, old(buff[..]), size, junk)
    {
      ghost var before := States();
      assert Ready(before[j], buff.Length, size, junk[j]);
      r := ReceiveOne(j, buff, size, junk[j]);
      assert States() == before[j := participants[j].State()];
    }

    method Receive(buff: array<byte>, size: nat, junk: seq<seq<byte>>) returns (r: int)
      requires Valid() && AllReady(States(), 0, buff.Length, size, junk)
      modifies buff, participants
      ensures Valid()
      ensures Outcome(r, buff[..], States()) == ReceiveFrom(old(States()), 0, old(buff[..]), size, junk)
    {
      ghost var goal := ReceiveFrom(States(), 0, buff[..], size, junk);
      for j := 0 to |participants|
        invariant Valid() && AllReady(States(), j, buff.Length, size, junk)
        invariant ReceiveFrom(States(), j, buff[..], size, junk) == goal
      {
        r := Iterate(j, buff, size, junk);
        if r <= 0 { return; }
      }
      r := HEADER;
    }

    method SendRecvRoot(own: Msg, buff: array<byte>, size: nat, junk: seq<seq<byte>>) returns (r: int)
      requires Valid() && At(rank, |own|) + |own| <= buff.Length
      requires AllReady(States(), 0, buff.Length, size, junk)
      modifies buff, participants
      ensures Valid()
      ensures Outcome(r, buff[..], States()) == SendRecv(old(States()), rank, own, old(buff[..]), size, junk)
    {
      CopyIn(buff, At(rank, |own|), own);
      r := Receive(buff, size, junk);
    }
  }

  /** The non-root side: rank, then block, to the root. */
  method SendToRoot(root: Link, rank: nat, block: Msg)
    modifies root`outbox
    ensures root.outbox == old(root.outbox) + RoundMessages(rank, block)
    ensures root.outbox == old(root.outbox) + [Encode(rank, 4), block]
  {
    root.Send(Encode(rank, INT));
    root.Send(block);
  }
}
