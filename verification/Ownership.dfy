/** Who may read a TCP handle and when it is destroyed: the reference counter, the wrappers users hold
    (including those waiting in the ready queue), the select set and the connection table, under any
    sequence of library operations. Handles and wrappers are named by fresh numbers. */
module Ownership {
  import opened Wrappers

  /** User: reaches users through wrappers. Internal: owned by a collective, or dropped by a failed handshake. */
  datatype Role = User | Internal

  datatype Handle = Handle(role: Role, closedRd: bool, closedWr: bool, counter: int, inTable: bool, deletes: nat)

  datatype Wrapper = Wrapper(h: Option<nat>, readable: bool)

  datatype State = State(handles: map<nat, Handle>, watched: set<nat>, wrappers: map<nat, Wrapper>)

  const Start: State := State(map[], {}, map[])

  datatype Op =
    | Connect(h: nat, w: nat)               // also an accepted point-to-point connection
    | AcceptInternal(h: nat)                // accepted for a team, or handshake failed
    | Ready(h: nat, w: nat)                 // update found a watched descriptor ready
    | Yield(w: nat)
    | ReadEos(w: nat)                       // a probe that reads EOS
    | ReadEof(w: nat)                       // a probe that finds the stream over without EOS
    | ReadReset(w: nat)                     // a probe that fails with ECONNRESET
    | UserClose(w: nat)
    | Move(src: nat, dst: nat)              // into a new wrapper or by assignment; getNext moves out of the queue
    | Destroy(w: nat)
    | CloseInternal(h: nat, wr: bool, rd: bool)
    | Finalize(h: nat)                      // setAsClosed on an entry of the connection table
    | Listen

  /** delete this, when nothing refers to a fully closed handle. */
  function Reap(x: Handle): Handle
  {
    if x.counter == 0 && x.closedRd && x.closedWr then x.(deletes := x.deletes + 1) else x
  }

  /** Handle::close with notify_close. */
  function Close(s: State, h: nat, wr: bool, rd: bool): State
    requires h in s.handles
  {
    var x := s.handles[h];
    var y := x.(closedWr := x.closedWr || wr, closedRd := x.closedRd || rd);
    s.(handles := s.handles[h := Reap(y.(inTable := y.inTable && !y.closedRd))],
       watched := if y.closedRd then s.watched - {h} else s.watched)
  }

  /** Handle::yield with notify_yield. */
  function YieldHandle(s: State, h: nat): State
    requires h in s.handles
  {
    if s.handles[h].closedRd then s else s.(watched := s.watched + {h})
  }

  /** What the code may be asked to do: names that exist where it dereferences, fresh where it allocates. */
  predicate Callable(s: State, op: Op) {
    match op
    case Connect(h, w) => h !in s.handles && w !in s.wrappers
    case AcceptInternal(h) => h !in s.handles
    case Ready(h, w) => h in s.watched && h in s.handles && w !in s.wrappers
    case Yield(w) => w in s.wrappers && Bound(s, w)
    case ReadEos(w) => CanRead(s, w)
    case ReadEof(w) => CanRead(s, w)
    case ReadReset(w) => CanRead(s, w)
    case UserClose(w) => w in s.wrappers && Bound(s, w)
    case Move(src, dst) => src in s.wrappers
    case Destroy(w) => w in s.wrappers && Bound(s, w)
    case CloseInternal(h, _, _) => h in s.handles && s.handles[h].role == Internal && s.handles[h].deletes == 0
    case Finalize(h) => h in s.handles && s.handles[h].inTable
    case Listen => true
  }

  /** The wrapper is empty or names a known handle. */
  predicate Bound(s: State, w: nat)
    requires w in s.wrappers
  {
    s.wrappers[w].h.Some? ==> s.wrappers[w].h.value in s.handles
  }

  predicate CanRead(s: State, w: nat) {
    w in s.wrappers && s.wrappers[w].readable && s.wrappers[w].h.Some? && Bound(s, w)
    && !s.handles[s.wrappers[w].h.value].closedRd
  }

  function NewHandle(role: Role, counter: int): Handle { Handle(role, false, false, counter, true, 0) }

  function Step(s: State, op: Op): State
    requires Callable(s, op)
  {
    match op
    case Connect(h, w) =>
      s.(handles := s.handles[h := NewHandle(User, 1)], wrappers := s.wrappers[w := Wrapper(Some(h), true)])
    case AcceptInternal(h) =>
      s.(handles := s.handles[h := NewHandle(Internal, 0)])
    case Ready(h, w) =>
      var s1 := s.(watched := s.watched - {h});
      var x := s.handles[h];
      if !x.inTable then s1
      else s1.(handles := s.handles[h := x.(counter := x.counter + 1)],
               wrappers := s.wrappers[w := Wrapper(Some(h), true)])
    case Yield(w) => YieldWrapper(s, w)
    case ReadEos(w) =>
      var h := s.wrappers[w].h.value;
      Close(s, h, false, true).(wrappers := s.wrappers[w := Wrapper(Some(h), false)])
    case ReadEof(w) =>
      var h := s.wrappers[w].h.value;
      Close(s, h, true, true).(wrappers := s.wrappers[w := Wrapper(Some(h), false)])
    case ReadReset(w) => Close(s, s.wrappers[w].h.value, true, true)
    case UserClose(w) =>
      if s.wrappers[w].h.None? then s else Close(s, s.wrappers[w].h.value, true, false)
    case Move(src, dst) =>
      if src == dst then s
      else s.(wrappers := s.wrappers[dst := s.wrappers[src]][src := Wrapper(None, false)])
    case Destroy(w) => Release(if s.wrappers[w].readable then YieldWrapper(s, w) else s, w)
    case CloseInternal(h, wr, rd) => Close(s, h, wr, rd)
    case Finalize(h) => Close(if s.handles[h].closedWr then s else Close(s, h, true, false), h, false, true)
    case Listen => s.(watched := {})
  }

  function YieldWrapper(s: State, w: nat): State
    requires w in s.wrappers && Bound(s, w)
  {
    var x := s.wrappers[w];
    var s1 := s.(wrappers := s.wrappers[w := x.(readable := false)]);
    if x.h.None? then s1 else YieldHandle(s1, x.h.value)
  }

  /** The end of ~HandleUser: decrementReferenceCounter. */
  function Release(s: State, w: nat): State
    requires w in s.wrappers && Bound(s, w)
  {
    var s1 := s.(wrappers := s.wrappers - {w});
    if s.wrappers[w].h.None? then s1
    else
      var h := s.wrappers[w].h.value;
      var x := s.handles[h];
      s1.(handles := s.handles[h := Reap(x.(counter := x.counter - 1))])
  }

  function Refs(ws: map<nat, Wrapper>, h: nat): set<nat> { set w | w in ws && ws[w].h == Some(h) }

  function Readers(ws: map<nat, Wrapper>, h: nat): set<nat> { set w | w in ws && ws[w] == Wrapper(Some(h), true) }

  /** Reference counting: the counter is the number of live wrappers, and a handle has been destroyed exactly
      once when both sides are closed and no wrapper is left, not at all otherwise. */
  ghost predicate Counted(s: State, h: nat)
    requires h in s.handles
  {
    var x := s.handles[h];
    && x.counter == |Refs(s.wrappers, h)|
    && x.deletes == (if x.closedRd && x.closedWr && Refs(s.wrappers, h) == {} then 1 else 0)
    && x.inTable == !x.closedRd
  }

  /** One reader at a time: an open handle is either watched or has one readable wrapper; a handle closed for
      reading is not watched, and an internal one is in no one's hands. */
  ghost predicate Exclusive(s: State, h: nat)
    requires h in s.handles
  {
    var x := s.handles[h];
    && (x.closedRd || x.role == Internal ==> h !in s.watched)
    && (x.role == Internal ==> Refs(s.wrappers, h) == {})
    && (!x.closedRd && x.role == User ==>
          |Readers(s.wrappers, h)| == if h in s.watched then 0 else 1)
  }

  ghost predicate Inv(s: State) {
    && s.watched <= s.handles.Keys
    && (forall w :: w in s.wrappers ==> s.wrappers[w].h.Some? ==> s.wrappers[w].h.value in s.handles)
    && (forall w :: w in s.wrappers ==> s.wrappers[w].readable ==> s.wrappers[w].h.Some?)
    && (forall h :: h in s.handles ==> Counted(s, h) && Exclusive(s, h))
  }

  /** The three things the code leaves to its callers. */
  predicate Disciplined(s: State, op: Op)
    requires Callable(s, op)
  {
    match op
    case Yield(w) => !Breaks(s, w)
    case Move(src, dst) => src == dst || dst !in s.wrappers || s.wrappers[dst].h.None?
    case Listen => s.watched == {}
    case _ => true
  }

  /** A wrapper that may not read yields an open handle someone else is reading. */
  predicate Breaks(s: State, w: nat)
    requires w in s.wrappers && Bound(s, w)
  {
    var x := s.wrappers[w];
    !x.readable && x.h.Some? && !s.handles[x.h.value].closedRd && x.h.value !in s.watched
  }

  // Effect of wrapper updates on the two sets ------------------------------------

  lemma SetsAfterPut(ws: map<nat, Wrapper>, w: nat, x: Wrapper, h: nat)
    ensures Refs(ws[w := x], h) == (Refs(ws, h) - {w}) + if x.h == Some(h) then {w} else {}
    ensures Readers(ws[w := x], h) == (Readers(ws, h) - {w}) + if x == Wrapper(Some(h), true) then {w} else {}
  {
  }

  lemma SetsAfterDrop(ws: map<nat, Wrapper>, w: nat, h: nat)
    ensures Refs(ws - {w}, h) == Refs(ws, h) - {w}
    ensures Readers(ws - {w}, h) == Readers(ws, h) - {w}
  {
  }

  function One(b: bool): nat { if b then 1 else 0 }

  predicate Names(ws: map<nat, Wrapper>, w: nat, h: nat) { w in ws && ws[w].h == Some(h) }

  predicate Reads(ws: map<nat, Wrapper>, w: nat, h: nat) { w in ws && ws[w] == Wrapper(Some(h), true) }

  lemma CountsAfterPut(ws: map<nat, Wrapper>, w: nat, x: Wrapper, h: nat)
    ensures |Refs(ws[w := x], h)| == |Refs(ws, h)| - One(Names(ws, w, h)) + One(x.h == Some(h))
    ensures |Readers(ws[w := x], h)| == |Readers(ws, h)| - One(Reads(ws, w, h)) + One(x == Wrapper(Some(h), true))
  {
    SetsAfterPut(ws, w, x, h);
    assert w in Refs(ws, h) <==> Names(ws, w, h);
    assert w in Readers(ws, h) <==> Reads(ws, w, h);
  }

  // One lemma per kind of state change ---------------------------------------------

  lemma CloseKeepsInv(s: State, h: nat, wr: bool, rd: bool)
    requires Inv(s) && h in s.handles && s.handles[h].deletes == 0
    ensures Inv(Close(s, h, wr, rd))
  {
    var r := Close(s, h, wr, rd);
    forall g | g in r.handles ensures Counted(r, g) && Exclusive(r, g) {
      assert Counted(s, g) && Exclusive(s, g);
    }
  }

  /** Making w unreadable when its handle is closed for reading, or yielded right after. */
  lemma UnreadKeepsInv(s: State, w: nat, watch: bool)
    requires Inv(s) && w in s.wrappers && s.wrappers[w].h.Some?
    requires var h := s.wrappers[w].h.value;
             s.handles[h].closedRd || (watch && (s.wrappers[w].readable || h in s.watched))
    ensures var h := s.wrappers[w].h.value;
            var s1 := s.(wrappers := s.wrappers[w := Wrapper(Some(h), false)]);
            Inv(if watch then YieldHandle(s1, h) else s1)
  {
    var h := s.wrappers[w].h.value;
    var s1 := s.(wrappers := s.wrappers[w := Wrapper(Some(h), false)]);
    var r := if watch then YieldHandle(s1, h) else s1;
    NotDeleted(s, w);
    forall g | g in r.handles ensures Counted(r, g) && Exclusive(r, g) {
      assert Counted(s, g) && Exclusive(s, g);
      CountsAfterPut(s.wrappers, w, Wrapper(Some(h), false), g);
      SameRefs(s, r, w, g);
    }
  }

  lemma SameRefs(s: State, r: State, w: nat, g: nat)
    requires w in s.wrappers && r.wrappers == s.wrappers[w := s.wrappers[w].(readable := false)]
    ensures Refs(r.wrappers, g) == Refs(s.wrappers, g)
  {
  }

  lemma NewWrapperKeepsInv(s: State, h: nat, w: nat)
    requires Inv(s) && w !in s.wrappers
    requires h in s.handles ==> h in s.watched
    ensures var x := if h in s.handles then s.handles[h] else NewHandle(User, 0);
            Inv(State(s.handles[h := x.(counter := x.counter + 1)],
                  s.watched - {h}, s.wrappers[w := Wrapper(Some(h), true)]))
  {
    var x := if h in s.handles then s.handles[h] else NewHandle(User, 0);
    var r := State(s.handles[h := x.(counter := x.counter + 1)],
          s.watched - {h}, s.wrappers[w := Wrapper(Some(h), true)]);
    forall g | g in r.handles ensures Counted(r, g) && Exclusive(r, g) {
      if g == h { NewWrapperOwn(s, r, x, h, w); } else { NewWrapperOther(s, r, h, w, g); }
    }
  }

  lemma NewWrapperOwn(s: State, r: State, x: Handle, h: nat, w: nat)
    requires Inv(s) && w !in s.wrappers
    requires if h in s.handles then h in s.watched && x == s.handles[h] else x == NewHandle(User, 0)
    requires r == State(s.handles[h := x.(counter := x.counter + 1)],
          s.watched - {h}, s.wrappers[w := Wrapper(Some(h), true)])
    ensures Counted(r, h) && Exclusive(r, h)
  {
    if h in s.handles {
      assert Counted(s, h) && Exclusive(s, h);
    } else {
      assert Refs(s.wrappers, h) == {} && Readers(s.wrappers, h) == {};
    }
    CountsAfterPut(s.wrappers, w, Wrapper(Some(h), true), h);
    assert w in Refs(r.wrappers, h);
  }

  lemma NewWrapperOther(s: State, r: State, h: nat, w: nat, g: nat)
    requires w !in s.wrappers && g in s.handles && g != h && g in r.handles
    requires Counted(s, g) && Exclusive(s, g)
    requires r.wrappers == s.wrappers[w := Wrapper(Some(h), true)]
    requires r.handles[g] == s.handles[g] && r.watched == s.watched - {h}
    ensures Counted(r, g) && Exclusive(r, g)
  {
    assert Refs(r.wrappers, g) == Refs(s.wrappers, g) && Readers(r.wrappers, g) == Readers(s.wrappers, g);
  }

  lemma MoveKeepsInv(s: State, src: nat, dst: nat)
    requires Inv(s) && src in s.wrappers && src != dst
    requires dst !in s.wrappers || s.wrappers[dst].h.None?
    ensures Inv(Step(s, Move(src, dst)))
  {
    var x := s.wrappers[src];
    var mid := s.wrappers[dst := x];
    var r := Step(s, Move(src, dst));
    forall g | g in r.handles ensures Counted(r, g) && Exclusive(r, g) {
      assert Counted(s, g) && Exclusive(s, g);
      CountsAfterPut(s.wrappers, dst, x, g);
      CountsAfterPut(mid, src, Wrapper(None, false), g);
      assert Names(mid, src, g) == (x.h == Some(g));
      assert |Refs(r.wrappers, g)| == |Refs(s.wrappers, g)| && |Readers(r.wrappers, g)| == |Readers(s.wrappers, g)|;
    }
  }

  lemma ReleaseKeepsInv(s: State, w: nat)
    requires Inv(s) && w in s.wrappers
    requires s.wrappers[w].readable ==> s.handles[s.wrappers[w].h.value].closedRd
    ensures Inv(Release(s, w))
  {
    var r := Release(s, w);
    forall g | g in r.handles ensures Counted(r, g) && Exclusive(r, g) {
      assert Counted(s, g) && Exclusive(s, g);
      ReleaseKeepsHandle(s, r, w, g);
    }
  }

  lemma ReleaseKeepsHandle(s: State, r: State, w: nat, g: nat)
    requires w in s.wrappers && g in s.handles && Counted(s, g) && Exclusive(s, g)
    requires s.wrappers[w].h == Some(g) && s.wrappers[w].readable ==> s.handles[g].closedRd
    requires g in r.handles && r.watched == s.watched && r.wrappers == s.wrappers - {w}
    requires var x := s.handles[g];
             r.handles[g] == if s.wrappers[w].h == Some(g) then Reap(x.(counter := x.counter - 1)) else x
    ensures Counted(r, g) && Exclusive(r, g)
  {
    SetsAfterDrop(s.wrappers, w, g);
    assert s.wrappers[w].h == Some(g) <==> w in Refs(s.wrappers, g);
    assert w in Readers(s.wrappers, g) ==> w in Refs(s.wrappers, g) && s.wrappers[w].readable;
  }

  lemma StepKeepsInv(s: State, op: Op)
    requires Inv(s) && Callable(s, op) && Disciplined(s, op)
    ensures Inv(Step(s, op))
  {
    match op
    case Connect(h, w) => NewWrapperKeepsInv(s, h, w);
    case AcceptInternal(h) =>
      var r := Step(s, op);
      assert Refs(s.wrappers, h) == {};
      forall g | g in r.handles ensures Counted(r, g) && Exclusive(r, g) {
        if g != h { assert Counted(s, g) && Exclusive(s, g); }
      }
    case Ready(h, w) =>
      assert Counted(s, h) && Exclusive(s, h);
      NewWrapperKeepsInv(s, h, w);
    case Yield(w) => YieldKeepsInv(s, w);
    case ReadEos(w) => ReadEndKeepsInv(s, w, false);
    case ReadEof(w) => ReadEndKeepsInv(s, w, true);
    case ReadReset(w) => NotDeleted(s, w); CloseKeepsInv(s, s.wrappers[w].h.value, true, true);
    case UserClose(w) =>
      if s.wrappers[w].h.Some? { NotDeleted(s, w); CloseKeepsInv(s, s.wrappers[w].h.value, true, false); }
    case Move(src, dst) => if src != dst { MoveKeepsInv(s, src, dst); }
    case Destroy(w) =>
      if s.wrappers[w].readable { YieldKeepsInv(s, w); }
      ReleaseKeepsInv(if s.wrappers[w].readable then YieldWrapper(s, w) else s, w);
    case CloseInternal(h, wr, rd) => CloseKeepsInv(s, h, wr, rd);
    case Finalize(h) =>
      assert Counted(s, h);
      if !s.handles[h].closedWr { CloseKeepsInv(s, h, true, false); }
      CloseKeepsInv(if s.handles[h].closedWr then s else Close(s, h, true, false), h, false, true);
    case Listen =>
  }

  lemma NotDeleted(s: State, w: nat)
    requires Inv(s) && w in s.wrappers && s.wrappers[w].h.Some?
    ensures s.handles[s.wrappers[w].h.value].deletes == 0 && s.handles[s.wrappers[w].h.value].counter > 0
    ensures s.handles[s.wrappers[w].h.value].role == User
  {
    var h := s.wrappers[w].h.value;
    assert Counted(s, h) && Exclusive(s, h);
    assert w in Refs(s.wrappers, h);
  }

  lemma YieldKeepsInv(s: State, w: nat)
    requires Inv(s) && w in s.wrappers && !Breaks(s, w)
    ensures Inv(YieldWrapper(s, w))
  {
    if s.wrappers[w].h.Some? {
      UnreadKeepsInv(s, w, true);
    } else {
      assert s.wrappers[w := s.wrappers[w].(readable := false)] == s.wrappers;
    }
  }

  lemma ReadEndKeepsInv(s: State, w: nat, wr: bool)
    requires Inv(s) && CanRead(s, w)
    ensures var h := s.wrappers[w].h.value;
            Inv(Close(s, h, wr, true).(wrappers := s.wrappers[w := Wrapper(Some(h), false)]))
  {
    NotDeleted(s, w);
    var h := s.wrappers[w].h.value;
    CloseKeepsInv(s, h, wr, true);
    UnreadKeepsInv(Close(s, h, wr, true), w, false);
  }

  // Whole runs -----------------------------------------------------------------------

  ghost predicate Allowed(s: State, ops: seq<Op>)
    decreases |ops|
  {
    ops != [] ==> Callable(s, ops[0]) && Disciplined(s, ops[0]) && Allowed(Step(s, ops[0]), ops[1..])
  }

  ghost function Run(s: State, ops: seq<Op>): State
    requires Allowed(s, ops)
    decreases |ops|
  {
    if ops == [] then s else Run(Step(s, ops[0]), ops[1..])
  }

  lemma {:induction false} RunKeepsInv(s: State, ops: seq<Op>)
    requires Inv(s) && Allowed(s, ops)
    ensures Inv(Run(s, ops))
    decreases |ops|
  {
    if ops != [] {
      StepKeepsInv(s, ops[0]);
      RunKeepsInv(Step(s, ops[0]), ops[1..]);
    }
  }

  /** In every run: a handle is destroyed at most once, exactly when both its sides are closed and its last wrapper
      is gone, and then it is in neither the table nor the select set; its counter is its number of wrappers; it is in
      the table exactly while its read side is open; and while that lasts a user handle is either watched or has
      exactly one readable wrapper, never both and never two. */
  lemma OwnershipIsSafe(ops: seq<Op>, h: nat)
    requires Allowed(Start, ops) && h in Run(Start, ops).handles
    ensures var s := Run(Start, ops); var x := s.handles[h];
            && x.counter == |Refs(s.wrappers, h)| && x.deletes <= 1
            && (x.deletes == 1 <==> x.closedRd && x.closedWr && Refs(s.wrappers, h) == {})
            && (x.deletes == 1 ==> !x.inTable && h !in s.watched)
            && (x.inTable <==> !x.closedRd)
            && (x.role == User && x.inTable ==>
                  (h in s.watched ==> Readers(s.wrappers, h) == {})
                  && (h !in s.watched ==> exists w :: Readers(s.wrappers, h) == {w}))
  {
    RunKeepsInv(Start, ops);
    var s := Run(Start, ops);
    assert Counted(s, h) && Exclusive(s, h);
    var rd := Readers(s.wrappers, h);
    if |rd| == 1 {
      var w :| w in rd;
      assert |rd - {w}| == 0;
      assert rd == {w};
    }
  }

  // Which operation closes which side -----------------------------------------------------

  /** The operation is made through a wrapper of h. */
  predicate Through(s: State, w: nat, h: nat) { w in s.wrappers && s.wrappers[w].h == Some(h) }

  /** EOS goes out on h: the user closes it, its connection has ended or been reset, its collective closes that side, or
      the process finalizes. Reading the peer's EOS does not. */
  predicate ClosesWr(s: State, op: Op, h: nat) {
    match op
    case UserClose(w) => Through(s, w, h)
    case ReadEof(w) => Through(s, w, h)
    case ReadReset(w) => Through(s, w, h)
    case CloseInternal(g, wr, _) => g == h && wr
    case Finalize(g) => g == h
    case _ => false
  }

  /** No more is read from h: EOS has been read, or the connection has ended or been reset, or the collective closes
      that side, or the process finalizes. A user's close does not. */
  predicate ClosesRd(s: State, op: Op, h: nat) {
    match op
    case ReadEos(w) => Through(s, w, h)
    case ReadEof(w) => Through(s, w, h)
    case ReadReset(w) => Through(s, w, h)
    case CloseInternal(g, _, rd) => g == h && rd
    case Finalize(g) => g == h
    case _ => false
  }

  /** Each side of a handle is closed by these operations and no other; a new handle is open on both. */
  lemma SidesExact(s: State, op: Op, h: nat)
    requires Callable(s, op)
    ensures h in Step(s, op).handles <==> h in s.handles || ((op.Connect? || op.AcceptInternal?) && op.h == h)
    ensures h in s.handles ==>
              && (Step(s, op).handles[h].closedWr <==> s.handles[h].closedWr || ClosesWr(s, op, h))
              && (Step(s, op).handles[h].closedRd <==> s.handles[h].closedRd || ClosesRd(s, op, h))
    ensures h !in s.handles && h in Step(s, op).handles ==>
              !Step(s, op).handles[h].closedWr && !Step(s, op).handles[h].closedRd
  {
  }

  /** What becomes of the wrappers: one that has yielded, or read an end, may not read any more, but one whose
      connection was reset still may; a move leaves an empty one behind; a new one may read; and nothing else
      changes any. */
  lemma WrappersExact(s: State, op: Op, w: nat)
    requires Callable(s, op)
    ensures var was, now := s.wrappers, Step(s, op).wrappers;
      && ((op.Yield? || op.ReadEos? || op.ReadEof?) && op.w == w ==>
            w in now && now[w] == Wrapper(was[w].h, false))
      && (op.Destroy? && op.w == w ==> w !in now)
      && (op.Move? && op.src != op.dst && w == op.dst ==> w in now && now[w] == was[op.src])
      && (op.Move? && op.src != op.dst && w == op.src ==> w in now && now[w] == Wrapper(None, false))
      && (op.Connect? && op.w == w ==> w in now && now[w] == Wrapper(Some(op.h), true))
      && (op.Ready? && op.w == w && s.handles[op.h].inTable ==> w in now && now[w] == Wrapper(Some(op.h), true))
      && (!Concerns(s, op, w) ==> (w in now <==> w in was) && (w in was ==> now[w] == was[w]))
  {
  }

  predicate Concerns(s: State, op: Op, w: nat)
    requires Callable(s, op)
  {
    || ((op.Yield? || op.ReadEos? || op.ReadEof? || op.Destroy? || op.Connect?) && op.w == w)
    || (op.Ready? && op.w == w && s.handles[op.h].inTable)
    || (op.Move? && op.src != op.dst && (w == op.src || w == op.dst))
  }

  /** Some operation of the run closes the side. */
  ghost predicate SomeClosesWr(s: State, ops: seq<Op>, h: nat)
    requires Allowed(s, ops)
    decreases |ops|
  {
    ops != [] && (ClosesWr(s, ops[0], h) || SomeClosesWr(Step(s, ops[0]), ops[1..], h))
  }

  ghost predicate SomeClosesRd(s: State, ops: seq<Op>, h: nat)
    requires Allowed(s, ops)
    decreases |ops|
  {
    ops != [] && (ClosesRd(s, ops[0], h) || SomeClosesRd(Step(s, ops[0]), ops[1..], h))
  }

  lemma {:induction false} SidesOverRun(s: State, ops: seq<Op>, h: nat)
    requires Allowed(s, ops) && h in s.handles
    ensures h in Run(s, ops).handles
    ensures Run(s, ops).handles[h].closedWr <==> s.handles[h].closedWr || SomeClosesWr(s, ops, h)
    ensures Run(s, ops).handles[h].closedRd <==> s.handles[h].closedRd || SomeClosesRd(s, ops, h)
    decreases |ops|
  {
    if ops != [] {
      SidesExact(s, ops[0], h);
      SidesOverRun(Step(s, ops[0]), ops[1..], h);
    }
  }

  /** While the polling thread watches a handle no one else closes its read side, and only update takes it out of the
      select set. */
  lemma WatchedIsUntouched(s: State, op: Op, h: nat)
    requires Inv(s) && Callable(s, op) && Disciplined(s, op) && h in s.watched && !op.Finalize?
    ensures h in Step(s, op).handles && !Step(s, op).handles[h].closedRd
    ensures h !in Step(s, op).watched <==> op.Ready? && op.h == h
  {
    assert Exclusive(s, h);
    match op
    case ReadEos(w) => NotReadWhileWatched(s, h, w);
    case ReadEof(w) => NotReadWhileWatched(s, h, w);
    case ReadReset(w) => NotReadWhileWatched(s, h, w);
    case _ =>
  }

  lemma NotReadWhileWatched(s: State, h: nat, w: nat)
    requires Inv(s) && h in s.watched
    ensures !Reads(s.wrappers, w, h)
  {
    assert Exclusive(s, h);
    assert Reads(s.wrappers, w, h) <==> w in Readers(s.wrappers, h);
  }

  // What the code leaves to its callers is exactly what it needs -------------------------

  /** One step keeps the invariant exactly when the caller is disciplined. */
  lemma DisciplineIsExact(s: State, op: Op)
    requires Inv(s) && Callable(s, op)
    ensures Inv(Step(s, op)) <==> Disciplined(s, op)
  {
    if Disciplined(s, op) {
      StepKeepsInv(s, op);
    } else {
      match op
      case Yield(w) => BadYield(s, w);
      case Move(src, dst) => BadMove(s, src, dst);
      case Listen => BadListen(s);
      case _ =>
    }
  }

  /** A second yield puts the descriptor back in the set behind the back of its reader. */
  lemma BadYield(s: State, w: nat)
    requires Inv(s) && w in s.wrappers && Breaks(s, w)
    ensures !Inv(YieldWrapper(s, w))
  {
    var h := s.wrappers[w].h.value;
    NotDeleted(s, w);
    assert Exclusive(s, h);
    var r := YieldWrapper(s, w);
    assert r.wrappers == s.wrappers;
    assert !Exclusive(r, h);
  }

  /** Assigning over a wrapper in use loses a reference. */
  lemma BadMove(s: State, src: nat, dst: nat)
    requires Inv(s) && Callable(s, Move(src, dst)) && !Disciplined(s, Move(src, dst))
    ensures !Inv(Step(s, Move(src, dst)))
  {
    var h := s.wrappers[dst].h.value;
    var x := s.wrappers[src];
    var r := Step(s, Move(src, dst));
    SetsAfterPut(s.wrappers, dst, x, h);
    SetsAfterPut(s.wrappers[dst := x], src, Wrapper(None, false), h);
    assert dst in Refs(s.wrappers, h);
    assert x.h == Some(h) <==> src in Refs(s.wrappers, h);
    assert Counted(s, h);
    assert !Counted(r, h);
  }

  /** Listening clears the select set: a connection yielded earlier is then read by no one. */
  lemma BadListen(s: State)
    requires Inv(s) && s.watched != {}
    ensures !Inv(Step(s, Listen))
  {
    var h :| h in s.watched;
    assert Exclusive(s, h);
    assert !Exclusive(Step(s, Listen), h);
  }
}
