/** The two processes of a shared-memory connection over whole runs: safety in every interleaving, delivery under every
    fair schedule, and which messages are delivered whole. */
module ShmRuns {
  import opened Bytes
  import opened Arith
  import opened Binary32
  import opened ShmChannel

  /** No message is one the reader miscounts. */
  ghost predicate Countable(msgs: seq<seq<byte>>)
    requires Payloads(msgs)
  {
    forall i :: 0 <= i < |msgs| ==> !Swallowed(|msgs[i]|)
  }

  /** Safety in every interleaving: what get returned is a byte-exact prefix of what was put, every size
      getsize reported is the size get delivers at that position (0 meaning end of stream), and the end
      is reported only after the last message. */
  lemma EveryRunIsExact(data: seq<byte>, msgs: seq<seq<byte>>, turns: seq<Turn>)
    requires |data| == CHUNK && Payloads(msgs) && Countable(msgs)
    ensures var s := Run(Init(data), msgs, turns);
            && s.delivered <= msgs
            && (forall e <- s.sizes :: e.0 <= |msgs| && e.1 == SizeAt(msgs, e.0))
            && (s.eos ==> s.delivered == msgs)
  {
    RunKeepsInv(Init(data), msgs, turns);
    var s := Run(Init(data), msgs, turns);
    if s.eos { assert msgs[..|msgs|] == msgs; }
  }

  /** A round gives each side at least one turn. */
  predicate BothMove(turns: seq<Turn>) { PutTurn in turns && GetTurn in turns }

  function RunRounds(s: State, msgs: seq<seq<byte>>, rounds: seq<seq<Turn>>): (r: State)
    requires Payloads(msgs) && Formed(s, msgs)
    ensures Formed(r, msgs)
    decreases |rounds|
  {
    if rounds == [] then s else RunRounds(Run(s, msgs, rounds[0]), msgs, rounds[1..])
  }

  lemma {:induction false} RoundProgress(s: State, msgs: seq<seq<byte>>, turns: seq<Turn>)
    requires Payloads(msgs) && FirstBad(msgs, |msgs|) && Inv(s, msgs, |msgs|) && !s.eos
    requires NextTurn(s) in turns
    ensures Remaining(Run(s, msgs, turns), msgs) < Remaining(s, msgs)
    decreases |turns|
  {
    var s' := Step(s, msgs, turns[0]);
    StepKeepsInv(s, msgs, |msgs|, turns[0]);
    TurnProgress(s, msgs, |msgs|, turns[0]);
    if turns[0] == NextTurn(s) {
      RunKeepsInv(s', msgs, turns[1..]);
    } else {
      RoundProgress(s', msgs, turns[1..]);
    }
  }

  /** Liveness: neither side is ever stuck for good. Any schedule of enough fair rounds delivers everything and ends. */
  lemma {:induction false} FairRoundsFinish(s: State, msgs: seq<seq<byte>>, rounds: seq<seq<Turn>>)
    requires Payloads(msgs) && Countable(msgs) && Inv(s, msgs, |msgs|)
    requires forall r <- rounds :: BothMove(r)
    requires |rounds| >= Remaining(s, msgs)
    ensures Done(RunRounds(s, msgs, rounds), msgs)
    decreases |rounds|
  {
    if s.eos {
      assert msgs[..|msgs|] == msgs;
      if rounds != [] {
        RunKeepsInv(s, msgs, rounds[0]);
        OverStaysOver(s, msgs, rounds[0]);
        FairRoundsFinish(Run(s, msgs, rounds[0]), msgs, rounds[1..]);
      }
    } else {
      RemainingPositive(s, msgs);
      assert BothMove(rounds[0]);
      RunKeepsInv(s, msgs, rounds[0]);
      RoundProgress(s, msgs, rounds[0]);
      FairRoundsFinish(Run(s, msgs, rounds[0]), msgs, rounds[1..]);
    }
  }

  /** The same from every reachable state: no interleaving can leave the two sides deadlocked. */
  lemma NeverStuck(data: seq<byte>, msgs: seq<seq<byte>>, turns: seq<Turn>, rounds: seq<seq<Turn>>)
    requires |data| == CHUNK && Payloads(msgs) && Countable(msgs)
    requires forall r <- rounds :: BothMove(r)
    requires |rounds| >= Remaining(Run(Init(data), msgs, turns), msgs)
    ensures Done(RunRounds(Run(Init(data), msgs, turns), msgs, rounds), msgs)
  {
    RunKeepsInv(Init(data), msgs, turns);
    FairRoundsFinish(Run(Init(data), msgs, turns), msgs, rounds);
  }

  /** Messages of at most 2^24 bytes are all countable. */
  lemma UpTo16MiBIsCountable(msgs: seq<seq<byte>>)
    requires Payloads(msgs) && forall i :: 0 <= i < |msgs| ==> |msgs[i]| <= SIGNIFICANDS
    ensures Countable(msgs)
  {
    forall i | 0 <= i < |msgs| ensures !Swallowed(|msgs[i]|) { CountsUpTo2To24(|msgs[i]|); }
  }

  lemma RemainingPositive(s: State, msgs: seq<seq<byte>>)
    requires Payloads(msgs) && Inv(s, msgs, |msgs|) && !s.eos
    ensures Remaining(s, msgs) > 0
  {
    if |s.delivered| < |msgs| {
      var m, p := msgs[|s.delivered|], Offset(s.reader);
      ChunkStep(|m|, p, Min(|m| - p, CHUNK));
    }
  }

  lemma {:induction false} OverStaysOver(s: State, msgs: seq<seq<byte>>, turns: seq<Turn>)
    requires Payloads(msgs) && FirstBad(msgs, |msgs|) && Inv(s, msgs, |msgs|) && s.eos
    ensures Run(s, msgs, turns).eos
    ensures Remaining(Run(s, msgs, turns), msgs) == 0
    decreases |turns|
  {
    if turns != [] {
      StepKeepsInv(s, msgs, |msgs|, turns[0]);
      TurnProgress(s, msgs, |msgs|, turns[0]);
      OverStaysOver(Step(s, msgs, turns[0]), msgs, turns[1..]);
    }
  }

  /** Until the reader reaches the first miscounted message it can always be driven on, and then it truncates it. */
  lemma {:induction false} DrivenToTruncation(s: State, msgs: seq<seq<byte>>, bad: nat) returns (turns: seq<Turn>)
    requires Payloads(msgs) && FirstBad(msgs, bad) && bad < |msgs| && Inv(s, msgs, bad)
    ensures Truncated(Run(s, msgs, turns), msgs, bad)
    decreases Remaining(s, msgs)
  {
    var t := NextTurn(s);
    var s' := Step(s, msgs, t);
    StepKeepsInv(s, msgs, bad, t);
    if Inv(s', msgs, bad) {
      TurnProgress(s, msgs, bad, t);
      var rest := DrivenToTruncation(s', msgs, bad);
      turns := [t] + rest;
    } else {
      turns := [t];
      assert Run(s, msgs, turns) == Run(s', msgs, []);
    }
  }

  /** Every run delivers an exact prefix if and only if no message's last chunk is lost when its size is
      converted to binary32. */
  lemma ExactIffCountable(data: seq<byte>, msgs: seq<seq<byte>>)
    requires |data| == CHUNK && Payloads(msgs)
    ensures Countable(msgs) <==> forall turns :: Run(Init(data), msgs, turns).delivered <= msgs
  {
    if Countable(msgs) {
      forall turns ensures Run(Init(data), msgs, turns).delivered <= msgs {
        EveryRunIsExact(data, msgs, turns);
      }
    } else {
      var bad := LeastBad(msgs, 0);
      assert Inv(Init(data), msgs, bad);
      var turns := DrivenToTruncation(Init(data), msgs, bad);
      assert Run(Init(data), msgs, turns).delivered[bad] != msgs[bad];
      assert !(Run(Init(data), msgs, turns).delivered <= msgs);
    }
  }

  lemma {:induction false} LeastBad(msgs: seq<seq<byte>>, i: nat) returns (bad: nat)
    requires Payloads(msgs) && i <= |msgs|
    requires forall j :: 0 <= j < i ==> !Swallowed(|msgs[j]|)
    requires !Countable(msgs)
    ensures bad < |msgs| && FirstBad(msgs, bad)
    decreases |msgs| - i
  {
    if Swallowed(|msgs[i]|) { bad := i; } else { bad := LeastBad(msgs, i + 1); }
  }

  /** The size that getsize announced is the length of the message that the next get handed over. */
  lemma AnnouncedIsDelivered(data: seq<byte>, msgs: seq<seq<byte>>, turns: seq<Turn>, k: nat)
    requires |data| == CHUNK && Payloads(msgs) && Countable(msgs)
    requires k < |Run(Init(data), msgs, turns).sizes|
    ensures var s := Run(Init(data), msgs, turns);
            s.sizes[k].0 < |s.delivered| ==> |s.delivered[s.sizes[k].0]| == s.sizes[k].1
  {
    EveryRunIsExact(data, msgs, turns);
    var s := Run(Init(data), msgs, turns);
    assert s.sizes[k] in s.sizes;
  }

  /** getsize answers whenever a message, or the end, is in the slot and no get is under way: with the size of the next
      message, or 0 after the last. It changes nothing else, and otherwise nothing. */
  lemma GetSizeAnswers(data: seq<byte>, msgs: seq<seq<byte>>, turns: seq<Turn>)
    requires |data| == CHUNK && Payloads(msgs) && Countable(msgs)
    ensures var s := Run(Init(data), msgs, turns);
            Step(s, msgs, SizeTurn) == if s.slot.full && s.reader.Idle? then
                                         s.(sizes := s.sizes + [(|s.delivered|, SizeAt(msgs, |s.delivered|))])
                                       else s
  {
    RunKeepsInv(Init(data), msgs, turns);
  }
}
