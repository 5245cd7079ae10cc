/** The shared segment updated in place. Each method is one locked section of put, get or
    getsize; the ghost-free snapshot function relates it to the transition system of ShmChannel. */
module ShmBuffer {
  import opened Bytes
  import opened Arith
  import opened Binary32
  import opened ShmChannel

  class Connection {
    const msgs: seq<seq<byte>>         // what the writer's successive calls of put pass in
    // the segment
    var guard: bool
    var size: nat
    const data: array<byte>
    // locals of put in the writing process
    var next: nat
    var sent: nat
    // locals of get in the reading process, and what its calls have returned
    var inGet: bool
    var want: nat
    var left: nat
    var nmsgs: nat
    var dest: seq<byte>
    var delivered: seq<seq<byte>>
    var eos: bool
    var sizes: seq<(nat, nat)>

    ghost predicate Valid()
      reads this, data
    {
      Payloads(msgs) && (inGet ==> nmsgs > 0) && Formed(Snapshot(), msgs)
    }

    ghost function Snapshot(): State
      reads this, data
    {
      State(Slot(guard, size, data[..]), next, sent,
            if inGet then Reading(want, left, nmsgs, dest) else Idle, delivered, eos, sizes)
    }

    constructor (msgs: seq<seq<byte>>)
      requires Payloads(msgs)
      ensures Valid() && this.msgs == msgs && fresh(data)
      ensures Snapshot() == Init(data[..])
    {
      this.msgs := msgs;
      data := new byte[CHUNK](_ => 0);
      guard, size, next, sent := false, 0, 0, 0;
      inGet, want, left, nmsgs, dest := false, 0, 0, 0, [];
      delivered, eos, sizes := [], false, [];
    }

    method PutPass()
      requires Valid()
      modifies this, data
      ensures Valid() && Snapshot() == Put(old(Snapshot()), msgs)
    {
      if guard || next > |msgs| { return; }
      if next == |msgs| {
        size := 0;
        guard := true;
        next := next + 1;
        return;
      }
      PutNext(msgs[next]);
    }

    /** The body of put's loop, with the slot empty. */
    method PutNext(m: seq<byte>)
      requires data.Length == CHUNK && sent <= |m|
      modifies this`guard, this`size, this`next, this`sent, data
      ensures Snapshot() == PutChunk(old(Snapshot()), m)
    {
      var sz := |m|;
      var s := Min(sz - sent, CHUNK);
      FillSlot(sz, m[sent..sent + s]);
      if sent + s == sz { next, sent := next + 1, 0; } else { sent := sent + s; }
    }

    method FillSlot(sz: nat, chunk: seq<byte>)
      requires |chunk| <= data.Length
      modifies this`guard, this`size, data
      ensures Snapshot() == old(Snapshot()).(slot := Filled(old(Snapshot()).slot, sz, chunk))
    {
      size := sz;
      CopyIn(data, 0, chunk);
      guard := true;
    }

    method GetPass()
      requires Valid()
      modifies this
      ensures Valid() && Snapshot() == Get(old(Snapshot()), msgs)
    {
      if !guard { return; }
      if !inGet {
        if size == 0 {
          guard, eos := false, true;
          return;
        }
        ReaderChunksPositive(size);
        GetNext(size, size, ReaderChunks(size), []);
      } else {
        GetNext(want, left, nmsgs, dest);
      }
    }

    /** The body of get's loop, with the slot full. */
    method GetNext(want: nat, left: nat, nmsgs: nat, dest: seq<byte>)
      requires data.Length == CHUNK && nmsgs > 0
      modifies this`guard, this`dest, this`nmsgs, this`inGet, this`delivered, this`want, this`left
      ensures Snapshot() == TakeChunk(old(Snapshot()), want, left, nmsgs, dest)
      ensures inGet ==> this.nmsgs > 0
    {
      var s := Min(left, CHUNK);
      guard := false;
      this.dest, this.nmsgs := dest + data[..s], nmsgs - 1;
      if nmsgs == 1 {
        inGet, delivered := false, delivered + [this.dest];
      } else {
        inGet, this.want, this.left := true, want, left - s;
      }
    }

    /** getsize; trygetsize is the same section, and answers "try again" where this one would spin. */
    method SizePass() returns (r: int)
      requires Valid()
      modifies this`sizes
      ensures Valid() && Snapshot() == GetSize(old(Snapshot()))
      ensures r == if guard && !inGet then size else -1
    {
      r := -1;
      if guard && !inGet {
        r := size;
        sizes := sizes + [(|delivered|, size)];
      }
    }

    /** Any interleaving of the two processes. */
    method Interleave(turns: seq<Turn>)
      requires Valid()
      modifies this, data
      ensures Valid() && Snapshot() == Run(old(Snapshot()), msgs, turns)
    {
      for i := 0 to |turns|
        invariant Valid() && Run(Snapshot(), msgs, turns[i..]) == Run(old(Snapshot()), msgs, turns)
      {
        match turns[i] {
          case PutTurn => PutPass();
          case GetTurn => GetPass();
          case SizeTurn => var _ := SizePass();
        }
        assert turns[i..][1..] == turns[i + 1..];
      }
    }
  }
}
