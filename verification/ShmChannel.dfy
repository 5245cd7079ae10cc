/** One direction of a shared-memory connection: a single slot guarded by a spinlock
    and a full/empty flag, one writing process and one reading process. Everything
    done while the lock is held is one atomic step, and a run is any interleaving of
    such steps. A step taken while the flag says "not now" is one turn of the spin loop. */
module ShmChannel {
  import opened Bytes
  import opened Arith
  import opened Binary32

  datatype Slot = Slot(full: bool, size: nat, data: seq<byte>)

  /** Reading: inside get, at least one chunk copied and chunks more expected. */
  datatype Reader = Idle | Reading(size: nat, left: nat, chunks: nat, got: seq<byte>)

  /** next/sent: the message put is working on and its offset p; |msgs| stands for the
      zero-size message that ends the stream. sizes: every (message index, size) getsize
      has returned. */
  datatype State = State(
    slot: Slot, next: nat, sent: nat,
    reader: Reader, delivered: seq<seq<byte>>, eos: bool, sizes: seq<(nat, nat)>)

  datatype Turn = PutTurn | GetTurn | SizeTurn

  /** What the writer will send: any messages, none empty because size 0 means end of stream. */
  ghost predicate Payloads(msgs: seq<seq<byte>>) {
    forall i :: 0 <= i < |msgs| ==> 0 < |msgs[i]| <= 0x4000_0000_0000
  }

  ghost predicate Formed(s: State, msgs: seq<seq<byte>>) {
    && |s.slot.data| == CHUNK
    && s.next <= |msgs| + 1
    && (if s.next < |msgs| then s.sent < |msgs[s.next]| else s.sent == 0)
    && (s.reader.Reading? ==> s.reader.chunks > 0)
  }

  function Init(data: seq<byte>): State
  {
    State(Slot(false, 0, data), 0, 0, Idle, [], false, [])
  }

  lemma ReaderChunksPositive(n: nat)
    ensures n > 0 ==> ReaderChunks(n) > 0
  {
    if n > 0 {
      RoundBetween(n);
      UlpBounds(n);
      var u := Ulp(n);
      if u > 1 {
        QuotientAtLeast(1, u, n);
        MultipleOrder(1, n / u, u);
      }
    }
  }

  /** The slot holding a chunk of a message of the given size. */
  function Filled(slot: Slot, size: nat, chunk: seq<byte>): Slot
    requires |chunk| <= |slot.data|
  {
    Slot(true, size, Place(slot.data, 0, chunk))
  }

  /** The next chunk of m goes into the slot, with the size of the whole. */
  function PutChunk(s: State, m: seq<byte>): State
    requires |s.slot.data| == CHUNK && s.sent <= |m|
  {
    var n := Min(|m| - s.sent, CHUNK);
    var slot := Filled(s.slot, |m|, m[s.sent..s.sent + n]);
    if s.sent + n == |m|
    then s.(slot := slot, next := s.next + 1, sent := 0)
    else s.(slot := slot, sent := s.sent + n)
  }

  /** One locked pass of the loop of put. */
  function Put(s: State, msgs: seq<seq<byte>>): (r: State)
    requires Payloads(msgs) && Formed(s, msgs)
    ensures Formed(r, msgs)
  {
    if s.slot.full || s.next > |msgs| then s
    else if s.next == |msgs| then
      s.(slot := s.slot.(full := true, size := 0), next := s.next + 1)
    else PutChunk(s, msgs[s.next])
  }

  /** The chunk in the slot goes after what the reader has got; chunks counts this one too. */
  function TakeChunk(s: State, size: nat, left: nat, chunks: nat, got: seq<byte>): State
    requires |s.slot.data| == CHUNK && chunks > 0
  {
    var n := Min(left, CHUNK);
    var got' := got + s.slot.data[..n];
    var s' := s.(slot := s.slot.(full := false));
    if chunks == 1
    then s'.(reader := Idle, delivered := s.delivered + [got'])
    else s'.(reader := Reading(size, left - n, chunks - 1, got'))
  }

  /** One locked pass of get: the first pass reads the size and fixes how many chunks to expect. */
  function Get(s: State, msgs: seq<seq<byte>>): (r: State)
    requires Payloads(msgs) && Formed(s, msgs)
    ensures Formed(r, msgs)
  {
    if !s.slot.full then s
    else if s.reader.Reading? then TakeChunk(s, s.reader.size, s.reader.left, s.reader.chunks, s.reader.got)
    else if s.slot.size == 0 then s.(slot := s.slot.(full := false), eos := true)
    else
      ReaderChunksPositive(s.slot.size);
      TakeChunk(s, s.slot.size, s.slot.size, ReaderChunks(s.slot.size), [])
  }

  /** getsize: reports the size in the slot and takes nothing. */
  function GetSize(s: State): State
  {
    if s.slot.full && s.reader.Idle? then s.(sizes := s.sizes + [(|s.delivered|, s.slot.size)]) else s
  }

  function Step(s: State, msgs: seq<seq<byte>>, t: Turn): (r: State)
    requires Payloads(msgs) && Formed(s, msgs)
    ensures Formed(r, msgs)
  {
    match t
    case PutTurn => Put(s, msgs)
    case GetTurn => Get(s, msgs)
    case SizeTurn => GetSize(s)
  }

  function Run(s: State, msgs: seq<seq<byte>>, turns: seq<Turn>): (r: State)
    requires Payloads(msgs) && Formed(s, msgs)
    ensures Formed(r, msgs)
    decreases |turns|
  {
    if turns == [] then s else Run(Step(s, msgs, turns[0]), msgs, turns[1..])
  }

  /** Where the reader stands inside the message it is reading. */
  function Offset(r: Reader): nat
  {
    if r.Reading? then |r.got| else 0
  }

  /** bad: the first message whose count the reader gets wrong, or |msgs| when there is none. */
  ghost predicate FirstBad(msgs: seq<seq<byte>>, bad: nat)
    requires Payloads(msgs)
  {
    && bad <= |msgs|
    && (forall i :: 0 <= i < bad ==> !Swallowed(|msgs[i]|))
    && (bad < |msgs| ==> Swallowed(|msgs[bad]|))
  }

  ghost predicate ReaderInv(s: State, msgs: seq<seq<byte>>, bad: nat) {
    var d := |s.delivered|;
    && d <= |msgs| && d <= bad
    && s.delivered == msgs[..d]
    && (s.reader.Reading? ==>
          var r := s.reader;
          && d < |msgs| && r.size == |msgs[d]| && 0 < |r.got| < r.size && |r.got| % CHUNK == 0
          && r.got == msgs[d][..|r.got|] && r.left == r.size - |r.got|
          && r.chunks == WriterChunks(r.left) - if d == bad then 1 else 0)
  }

  /** The full slot holds exactly the next chunk the reader needs, and the writer is one chunk ahead;
      the empty slot means both stand at the same place. */
  ghost predicate SlotInv(s: State, msgs: seq<seq<byte>>)
    requires |s.delivered| <= |msgs| && |s.slot.data| == CHUNK
    requires |s.delivered| < |msgs| ==> Offset(s.reader) < |msgs[|s.delivered|]|
  {
    var d, p := |s.delivered|, Offset(s.reader);
    if s.eos then
      !s.slot.full && d == |msgs| && s.reader.Idle? && s.next == |msgs| + 1
    else if !s.slot.full then
      s.next == d && s.sent == p
    else if d == |msgs| then
      s.slot.size == 0 && s.next == |msgs| + 1
    else
      var m := msgs[d];
      var n := Min(|m| - p, CHUNK);
      && s.slot.size == |m|
      && s.slot.data[..n] == m[p..p + n]
      && (if p + n == |m| then s.next == d + 1 && s.sent == 0 else s.next == d && s.sent == p + n)
  }

  ghost predicate SizesInv(s: State, msgs: seq<seq<byte>>) {
    forall e <- s.sizes :: e.0 <= |msgs| && e.1 == SizeAt(msgs, e.0)
  }

  /** The size the k-th get returns: 0 once the messages are over. */
  function SizeAt(msgs: seq<seq<byte>>, k: nat): nat
  {
    if k < |msgs| then |msgs[k]| else 0
  }

  ghost predicate Inv(s: State, msgs: seq<seq<byte>>, bad: nat)
    requires Payloads(msgs)
  {
    && Formed(s, msgs)
    && ReaderInv(s, msgs, bad) && SlotInv(s, msgs) && SizesInv(s, msgs)
  }

  lemma PutKeepsInv(s: State, msgs: seq<seq<byte>>, bad: nat)
    requires Payloads(msgs) && Inv(s, msgs, bad)
    ensures Inv(Put(s, msgs), msgs, bad)
  {
    var d, p := |s.delivered|, Offset(s.reader);
    if !s.slot.full && !s.eos && d < |msgs| {
      var m := msgs[d];
      var n := Min(|m| - p, CHUNK);
      assert Place(s.slot.data, 0, m[p..p + n])[..n] == m[p..p + n];
    }
  }

  lemma SizeKeepsInv(s: State, msgs: seq<seq<byte>>, bad: nat)
    requires Payloads(msgs) && Inv(s, msgs, bad)
    ensures Inv(GetSize(s), msgs, bad)
  {
  }

  /** The reader hands over a message cut before its last chunk. */
  ghost predicate Truncated(s: State, msgs: seq<seq<byte>>, bad: nat)
    requires Payloads(msgs)
  {
    && bad < |msgs|
    && s.delivered == msgs[..bad] + [msgs[bad][..|msgs[bad]| - LastChunk(|msgs[bad]|)]]
  }

  lemma ChunkStep(size: nat, p: nat, n: nat)
    requires p % CHUNK == 0 && p < size && n == Min(size - p, CHUNK)
    ensures WriterChunks(size - p) == 1 + WriterChunks(size - p - n)
    ensures WriterChunks(size - p - n) == 0 <==> p + n == size
    ensures p + n < size ==> (p + n) % CHUNK == 0
    ensures WriterChunks(size - p) == 2 ==> p + n == size - LastChunk(size)
  {
    WriterChunksIsCeiling(size - p - n);
    WriterChunksIsCeiling(size - p);
    WriterChunksIsCeiling(size);
  }

  /** Chunks the reader still expects before its next copy, against the chunks the writer makes of what is left. */
  lemma ChunksExpected(s: State, msgs: seq<seq<byte>>, bad: nat)
    requires Payloads(msgs) && FirstBad(msgs, bad) && Inv(s, msgs, bad) && |s.delivered| < |msgs|
    ensures var m := msgs[|s.delivered|];
            Expecting(s, m) == WriterChunks(|m| - Offset(s.reader)) - (if |s.delivered| == bad then 1 else 0)
    ensures Expecting(s, msgs[|s.delivered|]) > 0
  {
    ChunkCountsAgree(|msgs[|s.delivered|]|);
    ReaderChunksPositive(|msgs[|s.delivered|]|);
  }

  function Expecting(s: State, m: seq<byte>): nat
  {
    if s.reader.Idle? then ReaderChunks(|m|) else s.reader.chunks
  }

  lemma GetKeepsInv(s: State, msgs: seq<seq<byte>>, bad: nat)
    requires Payloads(msgs) && FirstBad(msgs, bad) && Inv(s, msgs, bad)
    ensures Inv(Get(s, msgs), msgs, bad) || Truncated(Get(s, msgs), msgs, bad)
  {
    var d, p := |s.delivered|, Offset(s.reader);
    if s.slot.full && d < |msgs| {
      var m := msgs[d];
      ChunkStep(|m|, p, Min(|m| - p, CHUNK));
      ChunksExpected(s, msgs, bad);
      GetCopies(s, msgs, bad, m, Min(|m| - p, CHUNK));
      CopyKeepsInv(s, Get(s, msgs), msgs, bad, Expecting(s, m));
    }
  }

  lemma CopyKeepsInv(s: State, s': State, msgs: seq<seq<byte>>, bad: nat, chunks: nat)
    requires Payloads(msgs) && Inv(s, msgs, bad) && s.slot.full && |s.delivered| < |msgs| && chunks > 0
    requires chunks == WriterChunks(|msgs[|s.delivered|]| - Offset(s.reader)) - if |s.delivered| == bad then 1 else 0
    requires Formed(s', msgs) && Copied(s, s', msgs[|s.delivered|], chunks)
    ensures Inv(s', msgs, bad) || Truncated(s', msgs, bad)
  {
    var d, p := |s.delivered|, Offset(s.reader);
    var m := msgs[d];
    var n := Min(|m| - p, CHUNK);
    ChunkStep(|m|, p, n);
    if chunks == 1 {
      if d != bad {
        assert m[..p + n] == m;
        assert msgs[..d] + [m] == msgs[..d + 1];
      }
    }
  }

  /** s' is s after one effective get: a chunk of m moved out of the slot. */
  ghost predicate Copied(s: State, s': State, m: seq<byte>, chunks: nat)
    requires Offset(s.reader) < |m| && chunks > 0
  {
    var p := Offset(s.reader);
    var n := Min(|m| - p, CHUNK);
    && s'.slot == s.slot.(full := false)
    && s'.next == s.next && s'.sent == s.sent && s'.eos == s.eos && s'.sizes == s.sizes
    && (if chunks == 1
        then s'.reader == Idle && s'.delivered == s.delivered + [m[..p + n]]
        else s'.reader == Reading(|m|, |m| - p - n, chunks - 1, m[..p + n]) && s'.delivered == s.delivered)
  }

  /** Progress of one effective get, in terms of the message and offset it serves. */
  lemma GetCopies(s: State, msgs: seq<seq<byte>>, bad: nat, m: seq<byte>, n: nat)
    requires Payloads(msgs) && Inv(s, msgs, bad) && s.slot.full && |s.delivered| < |msgs|
    requires m == msgs[|s.delivered|] && n == Min(|m| - Offset(s.reader), CHUNK)
    ensures Expecting(s, m) > 0 && Copied(s, Get(s, msgs), m, Expecting(s, m))
  {
    var p := Offset(s.reader);
    ReaderChunksPositive(|m|);
    assert m[..p] + m[p..p + n] == m[..p + n];
  }

  /** Chunks (and the final zero-size message) from offset p of message i to the end. */
  function ChunksFrom(msgs: seq<seq<byte>>, i: nat, p: nat): nat
    decreases |msgs| - i
  {
    if i > |msgs| then 0
    else if i == |msgs| then 1
    else WriterChunks(if p < |msgs[i]| then |msgs[i]| - p else 0) + ChunksFrom(msgs, i + 1, 0)
  }

  /** Effective steps still to come: chunks to put plus chunks to get. */
  function Remaining(s: State, msgs: seq<seq<byte>>): nat
  {
    ChunksFrom(msgs, s.next, s.sent) + if s.eos then 0 else ChunksFrom(msgs, |s.delivered|, Offset(s.reader))
  }

  /** Every message handed over and the end of the stream read. */
  predicate Done(s: State, msgs: seq<seq<byte>>) { s.eos && s.delivered == msgs }

  function NextTurn(s: State): Turn { if s.slot.full then GetTurn else PutTurn }

  predicate SameButSizes(s: State, r: State) { r == s.(sizes := r.sizes) }

  /** From any state of a run that is not over, the side whose turn the flag announces takes an effective step. */
  lemma TurnProgress(s: State, msgs: seq<seq<byte>>, bad: nat, t: Turn)
    requires Payloads(msgs) && FirstBad(msgs, bad) && Inv(s, msgs, bad)
    ensures var s' := Step(s, msgs, t);
            && (t != NextTurn(s) || s.eos ==> SameButSizes(s, s'))
            && (t == NextTurn(s) && !s.eos && Inv(s', msgs, bad) ==> Remaining(s', msgs) == Remaining(s, msgs) - 1)
  {
    if t == NextTurn(s) && !s.eos {
      if t == PutTurn { PutProgress(s, msgs, bad); } else { GetProgress(s, msgs, bad); }
    }
  }

  lemma PutProgress(s: State, msgs: seq<seq<byte>>, bad: nat)
    requires Payloads(msgs) && Inv(s, msgs, bad) && !s.slot.full && !s.eos
    ensures Remaining(Put(s, msgs), msgs) == Remaining(s, msgs) - 1
  {
    var d, p := |s.delivered|, Offset(s.reader);
    if d < |msgs| { ChunkStep(|msgs[d]|, p, Min(|msgs[d]| - p, CHUNK)); }
  }

  lemma GetProgress(s: State, msgs: seq<seq<byte>>, bad: nat)
    requires Payloads(msgs) && FirstBad(msgs, bad) && Inv(s, msgs, bad) && s.slot.full
    ensures Inv(Get(s, msgs), msgs, bad) ==> Remaining(Get(s, msgs), msgs) == Remaining(s, msgs) - 1
  {
    var d, p := |s.delivered|, Offset(s.reader);
    if d < |msgs| {
      var m := msgs[d];
      ChunkStep(|m|, p, Min(|m| - p, CHUNK));
      ChunksExpected(s, msgs, bad);
      GetCopies(s, msgs, bad, m, Min(|m| - p, CHUNK));
      CopyProgress(s, Get(s, msgs), msgs, bad, Expecting(s, m));
    }
  }

  lemma CopyProgress(s: State, s': State, msgs: seq<seq<byte>>, bad: nat, chunks: nat)
    requires Payloads(msgs) && Inv(s, msgs, bad) && s.slot.full && !s.eos && |s.delivered| < |msgs| && chunks > 0
    requires chunks == WriterChunks(|msgs[|s.delivered|]| - Offset(s.reader)) - if |s.delivered| == bad then 1 else 0
    requires Formed(s', msgs) && Copied(s, s', msgs[|s.delivered|], chunks)
    ensures Inv(s', msgs, bad) ==> Remaining(s', msgs) == Remaining(s, msgs) - 1
  {
    var m, p := msgs[|s.delivered|], Offset(s.reader);
    ChunkStep(|m|, p, Min(|m| - p, CHUNK));
  }

  lemma StepKeepsInv(s: State, msgs: seq<seq<byte>>, bad: nat, t: Turn)
    requires Payloads(msgs) && FirstBad(msgs, bad) && Inv(s, msgs, bad)
    ensures Inv(Step(s, msgs, t), msgs, bad) || (t == GetTurn && Truncated(Step(s, msgs, t), msgs, bad))
  {
    match t
    case PutTurn => PutKeepsInv(s, msgs, bad);
    case GetTurn => GetKeepsInv(s, msgs, bad);
    case SizeTurn => SizeKeepsInv(s, msgs, bad);
  }

  lemma {:induction false} RunKeepsInv(s: State, msgs: seq<seq<byte>>, turns: seq<Turn>)
    requires Payloads(msgs) && FirstBad(msgs, |msgs|) && Inv(s, msgs, |msgs|)
    ensures Inv(Run(s, msgs, turns), msgs, |msgs|)
    ensures Remaining(Run(s, msgs, turns), msgs) <= Remaining(s, msgs)
    decreases |turns|
  {
    if turns != [] {
      StepKeepsInv(s, msgs, |msgs|, turns[0]);
      TurnProgress(s, msgs, |msgs|, turns[0]);
      RunKeepsInv(Step(s, msgs, turns[0]), msgs, turns[1..]);
    }
  }
}
