/** The scans of the polling thread over the whole life of a process, with the calls of other threads between any two
    steps: SelectScan's steps on descriptors together with Ownership's steps on handles. A descriptor that has become
    free may be given out again at once. */
module Polling {
  import opened Wrappers
  import opened ConnTcps
  import O = Ownership
  import S = SelectScan

  /** fds: the descriptor of each handle. b, scan: what the latest select reported and how far its scan has got; the
      set and the connection table are those of the scan, also after its end. */
  datatype State = State(own: O.State, fds: map<nat, nat>, b: S.Begin, scan: S.Scan)

  /** What accept gives; internal: the handshake says that the connection is for a team, or fails. */
  datatype Taken = Taken(fd: nat, h: nat, internal: bool)

  /** Turn: the scan's next step, w being the wrapper it makes if it makes one. Call: a call of another thread, fd being
      the descriptor if it opens one. */
  datatype Move =
    | Listen(sck: nat)
    | Select(ready: set<nat>)
    | Turn(taken: Option<Taken>, w: nat)
    | Call(op: O.Op, fd: nat)

  // What a call does to the set and the table -----------------------------------------------

  /** Closes: the read side of h is closed; all: so is its write side, and the descriptor goes. */
  datatype Effect = Nothing | Adds(h: nat) | Watches(h: nat) | Closes(h: nat, all: bool)

  function YieldEffect(o: O.State, w: nat): Effect
    requires w in o.wrappers && O.Bound(o, w)
  {
    var x := o.wrappers[w];
    if x.h.Some? && !o.handles[x.h.value].closedRd then Watches(x.h.value) else Nothing
  }

  /** notify_close when the read side is closed now or has been: it returns at once if the descriptor is gone. */
  function CloseEffect(o: O.State, h: nat, wr: bool, rd: bool): Effect
    requires h in o.handles
  {
    var x := o.handles[h];
    if (x.closedRd || rd) && IsOpen(x) then Closes(h, x.closedWr || wr) else Nothing
  }

  /** The descriptor has not been closed. */
  predicate IsOpen(x: O.Handle) { !(x.closedRd && x.closedWr) }

  predicate Opens(op: O.Op) { op.Connect? || op.AcceptInternal? }

  /** Calls that other threads make while the polling thread runs; finalize has it end first. */
  predicate ByOthers(op: O.Op) { !op.Ready? && !op.Finalize? && !op.Listen? }

  function EffectOf(o: O.State, op: O.Op): (e: Effect)
    requires O.Callable(o, op) && ByOthers(op)
    ensures e.Watches? || e.Closes? ==> e.h in o.handles
    ensures e.Adds? <==> Opens(op)
    ensures e.Adds? ==> e.h == op.h && e.h !in o.handles
  {
    match op
    case Connect(h, _) => Adds(h)
    case AcceptInternal(h) => Adds(h)
    case Yield(w) => YieldEffect(o, w)
    case Destroy(w) => if o.wrappers[w].readable then YieldEffect(o, w) else Nothing
    case ReadEos(w) => CloseEffect(o, o.wrappers[w].h.value, false, true)
    case ReadEof(w) => CloseEffect(o, o.wrappers[w].h.value, true, true)
    case ReadReset(w) => CloseEffect(o, o.wrappers[w].h.value, true, true)
    case UserClose(w) => if o.wrappers[w].h.Some? then CloseEffect(o, o.wrappers[w].h.value, true, false) else Nothing
    case CloseInternal(h, wr, rd) => CloseEffect(o, h, wr, rd)
    case Move(_, _) => Nothing
  }

  /** The handles in the connection table, those with a descriptor, and those watched. */
  datatype View = View(tabled: set<nat>, open: set<nat>, watched: set<nat>)

  function ViewOf(o: O.State): View {
    View((set h | h in o.handles && o.handles[h].inTable), (set h | h in o.handles && IsOpen(o.handles[h])), o.watched)
  }

  ghost predicate Follows(e: Effect, v: View, v': View) {
    match e
    case Nothing => v' == v
    case Adds(h) => v' == View(v.tabled + {h}, v.open + {h}, v.watched)
    case Watches(h) => v' == v.(watched := v.watched + {h}) && h in v.tabled
    case Closes(h, all) =>
      && h in v.open && h !in v.watched
      && v' == View(v.tabled - {h}, if all then v.open - {h} else v.open, v.watched)
  }

  lemma CallFollows(o: O.State, op: O.Op)
    requires O.Inv(o) && O.Callable(o, op) && O.Disciplined(o, op) && ByOthers(op)
    ensures Follows(EffectOf(o, op), ViewOf(o), ViewOf(O.Step(o, op)))
  {
    match op
    case Connect(h, w) => ConnectFollows(o, op, h);
    case AcceptInternal(h) => ConnectFollows(o, op, h);
    case Yield(w) => YieldFollows(o, w);
    case Destroy(w) => DestroyFollows(o, w);
    case ReadEos(w) => CloseFollows(o, op, o.wrappers[w].h.value, false, true);
    case ReadEof(w) => CloseFollows(o, op, o.wrappers[w].h.value, true, true);
    case ReadReset(w) => CloseFollows(o, op, o.wrappers[w].h.value, true, true);
    case UserClose(w) => if o.wrappers[w].h.Some? { CloseFollows(o, op, o.wrappers[w].h.value, true, false); }
    case CloseInternal(h, wr, rd) => CloseFollows(o, op, h, wr, rd);
    case Move(_, _) =>
  }

  lemma ConnectFollows(o: O.State, op: O.Op, h: nat)
    requires O.Inv(o) && O.Callable(o, op) && Opens(op) && h == op.h
    ensures Follows(Adds(h), ViewOf(o), ViewOf(O.Step(o, op)))
  {
  }

  lemma YieldFollows(o: O.State, w: nat)
    requires O.Inv(o) && w in o.wrappers && O.Bound(o, w)
    ensures Follows(YieldEffect(o, w), ViewOf(o), ViewOf(O.YieldWrapper(o, w)))
  {
    if o.wrappers[w].h.Some? { assert O.Counted(o, o.wrappers[w].h.value); }
  }

  lemma DestroyFollows(o: O.State, w: nat)
    requires O.Inv(o) && w in o.wrappers && O.Bound(o, w)
    ensures Follows(EffectOf(o, O.Destroy(w)), ViewOf(o), ViewOf(O.Step(o, O.Destroy(w))))
  {
    if o.wrappers[w].readable { YieldFollows(o, w); }
    var o1 := if o.wrappers[w].readable then O.YieldWrapper(o, w) else o;
    assert ViewOf(O.Release(o1, w)) == ViewOf(o1);
  }

  lemma CloseFollows(o: O.State, op: O.Op, h: nat, wr: bool, rd: bool)
    requires O.Inv(o) && O.Callable(o, op) && O.Disciplined(o, op) && ByOthers(op) && h in o.handles
    requires O.Step(o, op).handles == O.Close(o, h, wr, rd).handles
    requires O.Step(o, op).watched == O.Close(o, h, wr, rd).watched
    ensures Follows(CloseEffect(o, h, wr, rd), ViewOf(o), ViewOf(O.Step(o, op)))
  {
    assert O.Counted(o, h) && O.Exclusive(o, h);
    if h in o.watched { O.WatchedIsUntouched(o, op, h); }
    CloseView(o, h, wr, rd);
    SameView(O.Step(o, op), O.Close(o, h, wr, rd));
  }

  lemma SameView(o: O.State, o': O.State)
    requires o.handles == o'.handles && o.watched == o'.watched
    ensures ViewOf(o) == ViewOf(o')
  {
  }

  lemma CloseView(o: O.State, h: nat, wr: bool, rd: bool)
    requires h in o.handles && o.handles[h].inTable == !o.handles[h].closedRd
    requires h in o.watched ==> !rd && !o.handles[h].closedRd
    ensures Follows(CloseEffect(o, h, wr, rd), ViewOf(o), ViewOf(O.Close(o, h, wr, rd)))
  {
    var x, y := o.handles[h], O.Close(o, h, wr, rd).handles[h];
    var v, v' := ViewOf(o), ViewOf(O.Close(o, h, wr, rd));
    assert y.closedRd == (x.closedRd || rd) && y.inTable == !y.closedRd && (IsOpen(y) ==> IsOpen(x));
    assert v'.tabled == if y.closedRd then v.tabled - {h} else v.tabled;
    assert v'.open == if IsOpen(y) then v.open else v.open - {h};
  }

  // Descriptors and handles -----------------------------------------------------------------

  ghost predicate Matches(v: View, fds: map<nat, nat>, table: map<nat, nat>, watched: set<nat>, listenSck: int) {
    && v.watched <= v.tabled <= v.open <= fds.Keys
    && (forall g, h :: g in v.open && h in v.open && fds[g] == fds[h] ==> g == h)
    && (forall h :: h in v.open ==> fds[h] != listenSck)
    && (forall f :: f in table ==> table[f] in v.tabled && fds[table[f]] == f)
    && (forall h :: h in v.tabled ==> fds[h] in table && table[fds[h]] == h)
    && (forall h :: h in v.watched ==> fds[h] in watched)
    && (forall f :: f in watched && f != listenSck ==> f in table && table[f] in v.watched)
  }

  ghost predicate InUse(s: State, fd: nat) {
    fd == s.b.listenSck || exists h :: h in ViewOf(s.own).open && h in s.fds && s.fds[h] == fd
  }

  /** What select has reported is about handles that exist. */
  ghost predicate BeginOk(s: State) {
    && (forall f :: f in s.b.table ==>
          s.b.table[f] in s.own.handles && s.b.table[f] in s.fds && s.fds[s.b.table[f]] == f)
    && (forall f <- s.b.ready :: f == s.b.listenSck || f in s.b.table)
  }

  ghost predicate Inv(s: State) {
    && O.Inv(s.own) && S.Inv(s.b, s.scan) && BeginOk(s)
    && s.scan.gone == {} && s.scan.reused == {}
    && s.own.handles.Keys <= s.fds.Keys
    && Matches(ViewOf(s.own), s.fds, s.scan.table, s.scan.watched, s.b.listenSck)
  }

  // The machine -----------------------------------------------------------------------------

  function Pair(taken: Option<Taken>): Option<(nat, nat)> {
    if taken.None? then None else Some((taken.value.fd, taken.value.h))
  }

  /** What users do is disciplined, new names are fresh, and the system gives out only descriptors that are free. */
  ghost predicate Possible(s: State, m: Move) {
    match m
    case Listen(sck) => s.scan.over && s.b.listenSck == -1 && s.own.watched == {} && !InUse(s, sck)
    case Select(ready) => s.scan.over && ready <= s.scan.watched
    case Turn(taken, w) =>
      w !in s.own.wrappers && (taken.Some? ==> !InUse(s, taken.value.fd) && taken.value.h !in s.own.handles)
    case Call(op, fd) =>
      ByOthers(op) && O.Callable(s.own, op) && O.Disciplined(s.own, op) && (Opens(op) ==> !InUse(s, fd))
  }

  ghost predicate Visits(s: State) {
    !s.scan.over && s.scan.idx <= S.Greatest(s.scan.watched) && |s.scan.log| < |s.b.ready| && s.scan.idx in s.b.ready
  }

  function AcceptOp(taken: Taken, w: nat): O.Op {
    if taken.internal then O.AcceptInternal(taken.h) else O.Connect(taken.h, w)
  }

  ghost function TurnStep(s: State, taken: Option<Taken>, w: nat): State
    requires Inv(s) && Possible(s, Turn(taken, w))
  {
    var s' := s.(scan := S.Step(s.b, s.scan, S.Advance(Pair(taken))));
    if !Visits(s) then s'
    else if s.scan.idx == s.b.listenSck then
      if taken.None? then s'
      else s'.(own := O.Step(s.own, AcceptOp(taken.value, w)), fds := s.fds[taken.value.h := taken.value.fd])
    else
      DueIsWatched(s, s.scan.idx);
      s'.(own := O.Step(s.own, O.Ready(s.scan.table[s.scan.idx], w)))
  }

  function CallAct(fds: map<nat, nat>, e: Effect, fd: nat): Option<S.Act>
    requires e.Watches? || e.Closes? ==> e.h in fds
  {
    match e
    case Nothing => None
    case Adds(h) => Some(S.Connect(fd, h))
    case Watches(h) => Some(S.Yield(fds[h]))
    case Closes(h, _) => Some(S.CloseRead(fds[h]))
  }

  ghost function CallStep(s: State, op: O.Op, fd: nat): State
    requires Inv(s) && Possible(s, Call(op, fd))
  {
    var act := CallAct(s.fds, EffectOf(s.own, op), fd);
    State(O.Step(s.own, op), if Opens(op) then s.fds[op.h := fd] else s.fds, s.b,
          if act.None? then s.scan else S.Step(s.b, s.scan, act.value))
  }

  function Idle(watched: set<nat>, table: map<nat, nat>, listenSck: int): (S.Begin, S.Scan) {
    var b := S.Begin({}, watched, table, listenSck);
    (b, S.Start(b).(over := true))
  }

  ghost function Step(s: State, m: Move): State
    requires Inv(s) && Possible(s, m)
  {
    match m
    case Listen(sck) =>
      var (b, scan) := Idle({sck}, s.scan.table, sck);
      State(O.Step(s.own, O.Listen), s.fds, b, scan)
    case Select(ready) =>
      var b := S.Begin(ready, s.scan.watched, s.scan.table, s.b.listenSck);
      s.(b := b, scan := S.Start(b))
    case Turn(taken, w) => TurnStep(s, taken, w)
    case Call(op, fd) => CallStep(s, op, fd)
  }

  ghost function Init(): (s: State)
    ensures Inv(s)
  {
    var (b, scan) := Idle({}, map[], -1);
    S.StartInv(b);
    State(O.Start, map[], b, scan)
  }

  // Every step keeps the invariant ------------------------------------------------------------

  /** A reported descriptor whose turn is still to come is that of a watched handle. */
  lemma DueIsWatched(s: State, f: nat)
    requires Inv(s) && S.Due(s.b, s.scan, f) && f != s.b.listenSck
    ensures f in s.scan.table && s.scan.table[f] in s.own.watched && s.scan.table[f] in s.own.handles
  {
    assert S.WatchOk(s.b, s.scan, f);
  }

  lemma KnownIsInUse(s: State, fd: nat)
    requires Inv(s)
    ensures fd in s.scan.table || fd in s.scan.watched || S.Due(s.b, s.scan, fd) ==> InUse(s, fd)
  {
    assert S.WatchOk(s.b, s.scan, fd);
    if fd in s.scan.table {
      var h := s.scan.table[fd];
      assert h in ViewOf(s.own).open && s.fds[h] == fd;
    }
  }

  lemma MatchAdds(v: View, fds: map<nat, nat>, table: map<nat, nat>, watched: set<nat>, sck: int, h: nat, fd: nat)
    requires Matches(v, fds, table, watched, sck) && h !in v.open && fd != sck
    requires forall g :: g in v.open ==> fds[g] != fd
    ensures Matches(View(v.tabled + {h}, v.open + {h}, v.watched), fds[h := fd], table[fd := h], watched, sck)
  {
  }

  lemma MatchWatches(v: View, fds: map<nat, nat>, table: map<nat, nat>, watched: set<nat>, sck: int, h: nat)
    requires Matches(v, fds, table, watched, sck) && h in v.tabled
    ensures Matches(v.(watched := v.watched + {h}), fds, table, watched + {fds[h]}, sck)
  {
  }

  lemma MatchCloses(v: View, v': View, fds: map<nat, nat>, table: map<nat, nat>, watched: set<nat>, sck: int, h: nat,
                    all: bool)
    requires Matches(v, fds, table, watched, sck) && Follows(Closes(h, all), v, v') && v'.tabled <= v'.open
    ensures Matches(v', fds, table - {fds[h]}, watched - {fds[h]}, sck)
  {
  }

  lemma MatchVisits(v: View, fds: map<nat, nat>, table: map<nat, nat>, watched: set<nat>, sck: int, f: nat)
    requires Matches(v, fds, table, watched, sck) && f in table && f != sck
    ensures Matches(v.(watched := v.watched - {table[f]}), fds, table, watched - {f}, sck)
  {
  }

  lemma NewIsNew(s: State, h: nat)
    requires BeginOk(s) && h !in s.own.handles
    ensures S.NewHandle(s.b, h)
  {
  }

  lemma ListenKeepsInv(s: State, sck: nat)
    requires Inv(s) && Possible(s, Listen(sck))
    ensures Inv(Step(s, Listen(sck)))
  {
    KnownIsInUse(s, sck);
    O.StepKeepsInv(s.own, O.Listen);
    S.StartInv(S.Begin({}, {sck}, s.scan.table, sck));
  }

  lemma SelectKeepsInv(s: State, ready: set<nat>)
    requires Inv(s) && Possible(s, Select(ready))
    ensures Inv(Step(s, Select(ready)))
  {
    S.StartInv(S.Begin(ready, s.scan.watched, s.scan.table, s.b.listenSck));
  }

  /** What CallStep leaves of the handles, the scan and how they match, effect by effect. */
  lemma CallKeepsInv(s: State, op: O.Op, fd: nat)
    requires Inv(s) && Possible(s, Call(op, fd))
    ensures Inv(CallStep(s, op, fd))
  {
    CallFollows(s.own, op);
    O.StepKeepsInv(s.own, op);
    TabledIsOpen(O.Step(s.own, op));
    HandlesStay(s.own, op);
    var s' := CallStep(s, op, fd);
    match EffectOf(s.own, op) {
      case Nothing => NothingKeepsScan(s, ViewOf(s'.own));
      case Adds(h) => AddsKeepsScan(s, h, fd);
      case Watches(h) => WatchesKeepsScan(s, h);
      case Closes(h, all) => ClosesKeepsScan(s, h, all, ViewOf(s'.own));
    }
    Together(s, s');
  }

  lemma Together(s: State, s': State)
    requires BeginOk(s) && s'.b == s.b && O.Inv(s'.own) && ScanOk(s, s'.scan, ViewOf(s'.own), s'.fds)
    requires s.own.handles.Keys <= s'.own.handles.Keys <= s'.fds.Keys
    requires forall h <- s.own.handles :: h in s.fds && s'.fds[h] == s.fds[h]
    ensures Inv(s')
  {
  }

  lemma HandlesStay(o: O.State, op: O.Op)
    requires O.Callable(o, op)
    ensures O.Step(o, op).handles.Keys == if Opens(op) then o.handles.Keys + {op.h} else o.handles.Keys
  {
  }

  ghost predicate ScanOk(s: State, scan: S.Scan, v: View, fds: map<nat, nat>) {
    && S.Inv(s.b, scan) && scan.gone == {} && scan.reused == {}
    && Matches(v, fds, scan.table, scan.watched, s.b.listenSck)
  }

  lemma NothingKeepsScan(s: State, v': View)
    requires Inv(s) && Follows(Nothing, ViewOf(s.own), v') && v'.tabled <= v'.open
    ensures ScanOk(s, s.scan, v', s.fds)
  {
  }

  lemma AddsKeepsScan(s: State, h: nat, fd: nat)
    requires Inv(s) && h !in s.own.handles && !InUse(s, fd)
    ensures var v := ViewOf(s.own);
            ScanOk(s, S.Step(s.b, s.scan, S.Connect(fd, h)), View(v.tabled + {h}, v.open + {h}, v.watched),
                   s.fds[h := fd])
  {
    KnownIsInUse(s, fd);
    NewIsNew(s, h);
    S.StepKeepsInv(s.b, s.scan, S.Connect(fd, h));
    MatchAdds(ViewOf(s.own), s.fds, s.scan.table, s.scan.watched, s.b.listenSck, h, fd);
  }

  lemma WatchesKeepsScan(s: State, h: nat)
    requires Inv(s) && h in ViewOf(s.own).tabled
    ensures var v := ViewOf(s.own);
            ScanOk(s, S.Step(s.b, s.scan, S.Yield(s.fds[h])), v.(watched := v.watched + {h}), s.fds)
  {
    S.StepKeepsInv(s.b, s.scan, S.Yield(s.fds[h]));
    MatchWatches(ViewOf(s.own), s.fds, s.scan.table, s.scan.watched, s.b.listenSck, h);
  }

  lemma ClosesKeepsScan(s: State, h: nat, all: bool, v': View)
    requires Inv(s) && Follows(Closes(h, all), ViewOf(s.own), v') && v'.tabled <= v'.open
    ensures ScanOk(s, S.Step(s.b, s.scan, S.CloseRead(s.fds[h])), v', s.fds)
  {
    ClosedIsNotDue(s, h);
    S.StepKeepsInv(s.b, s.scan, S.CloseRead(s.fds[h]));
    MatchCloses(ViewOf(s.own), v', s.fds, s.scan.table, s.scan.watched, s.b.listenSck, h, all);
  }

  lemma TabledIsOpen(o: O.State)
    requires O.Inv(o)
    ensures ViewOf(o).watched <= ViewOf(o).tabled <= ViewOf(o).open
  {
    forall h | h in o.handles ensures O.Counted(o, h) && O.Exclusive(o, h) {}
  }

  /** A call closes no descriptor whose turn is still to come. */
  lemma ClosedIsNotDue(s: State, h: nat)
    requires Inv(s) && h in ViewOf(s.own).open && h !in s.own.watched
    ensures !S.Due(s.b, s.scan, s.fds[h])
  {
    assert S.WatchOk(s.b, s.scan, s.fds[h]);
  }

  lemma TurnKeepsInv(s: State, taken: Option<Taken>, w: nat)
    requires Inv(s) && Possible(s, Turn(taken, w))
    ensures Inv(TurnStep(s, taken, w))
  {
    TurnKeepsScan(s, taken);
    TurnKeepsHandles(s, taken, w);
    Together(s, TurnStep(s, taken, w));
  }

  lemma TurnKeepsHandles(s: State, taken: Option<Taken>, w: nat)
    requires Inv(s) && Possible(s, Turn(taken, w))
    ensures var o := TurnStep(s, taken, w).own;
            O.Inv(o) && ViewOf(o) == TurnView(s, taken) && s.own.handles.Keys <= o.handles.Keys
            && o.handles.Keys <= TurnStep(s, taken, w).fds.Keys
  {
    if Visits(s) && s.scan.idx != s.b.listenSck {
      DueIsWatched(s, s.scan.idx);
      var op := O.Ready(s.scan.table[s.scan.idx], w);
      O.StepKeepsInv(s.own, op);
      HandlesStay(s.own, op);
      ReadyFollows(s.own, op.h, w);
    } else if Visits(s) && taken.Some? {
      var op := AcceptOp(taken.value, w);
      O.StepKeepsInv(s.own, op);
      HandlesStay(s.own, op);
      ConnectFollows(s.own, op, taken.value.h);
    }
  }

  /** The handles after a turn. */
  ghost function TurnView(s: State, taken: Option<Taken>): View
    requires Inv(s)
  {
    var v := ViewOf(s.own);
    if !Visits(s) then v
    else if s.scan.idx != s.b.listenSck then
      DueIsWatched(s, s.scan.idx);
      v.(watched := v.watched - {s.scan.table[s.scan.idx]})
    else if taken.None? then v
    else View(v.tabled + {taken.value.h}, v.open + {taken.value.h}, v.watched)
  }

  lemma TurnKeepsScan(s: State, taken: Option<Taken>)
    requires Inv(s) && (taken.Some? ==> !InUse(s, taken.value.fd) && taken.value.h !in s.own.handles)
    ensures ScanOk(s, S.Step(s.b, s.scan, S.Advance(Pair(taken))), TurnView(s, taken),
                   if Visits(s) && s.scan.idx == s.b.listenSck && taken.Some?
                   then s.fds[taken.value.h := taken.value.fd] else s.fds)
  {
    var v := ViewOf(s.own);
    if taken.Some? {
      KnownIsInUse(s, taken.value.fd);
      NewIsNew(s, taken.value.h);
    }
    S.StepKeepsInv(s.b, s.scan, S.Advance(Pair(taken)));
    if Visits(s) {
      if s.scan.idx != s.b.listenSck {
        DueIsWatched(s, s.scan.idx);
        MatchVisits(v, s.fds, s.scan.table, s.scan.watched, s.b.listenSck, s.scan.idx);
      } else if taken.Some? {
        MatchAdds(v, s.fds, s.scan.table, s.scan.watched, s.b.listenSck, taken.value.h, taken.value.fd);
      }
    }
  }

  lemma ReadyFollows(o: O.State, h: nat, w: nat)
    requires O.Inv(o) && O.Callable(o, O.Ready(h, w))
    ensures ViewOf(O.Step(o, O.Ready(h, w))) == ViewOf(o).(watched := o.watched - {h})
  {
    assert O.Counted(o, h) && O.Exclusive(o, h);
  }

  lemma StepKeepsInv(s: State, m: Move)
    requires Inv(s) && Possible(s, m)
    ensures Inv(Step(s, m))
  {
    match m
    case Listen(sck) => ListenKeepsInv(s, sck);
    case Select(ready) => SelectKeepsInv(s, ready);
    case Turn(taken, w) => TurnKeepsInv(s, taken, w);
    case Call(op, fd) => CallKeepsInv(s, op, fd);
  }

  // The theorem -------------------------------------------------------------------------------

  ghost predicate Allowed(s: State, ms: seq<Move>)
    requires Inv(s)
    decreases |ms|
  {
    ms != [] ==> Possible(s, ms[0]) && (StepKeepsInv(s, ms[0]); Allowed(Step(s, ms[0]), ms[1..]))
  }

  ghost function Run(s: State, ms: seq<Move>): (r: State)
    requires Inv(s) && Allowed(s, ms)
    ensures Inv(r)
    decreases |ms|
  {
    if ms == [] then s
    else
      StepKeepsInv(s, ms[0]);
      Run(Step(s, ms[0]), ms[1..])
  }

  /** What a scan has queued so far. */
  lemma LogIsRight(s: State)
    requires Inv(s)
    ensures Enumerates(S.Visited(s.scan.log), Below(s.b.ready, s.scan.idx))
    ensures s.scan.over && !s.scan.failed ==> Enumerates(S.Visited(s.scan.log), s.b.ready)
    ensures forall i :: 0 <= i < |s.scan.log| && s.scan.log[i].0 != s.b.listenSck ==>
              s.scan.log[i].0 in s.b.table && s.scan.log[i].1 == Some(s.b.table[s.scan.log[i].0])
  {
    forall i | 0 <= i < |s.scan.log| && s.scan.log[i].0 != s.b.listenSck
      ensures s.scan.log[i].0 in s.b.table && s.scan.log[i].1 == Some(s.b.table[s.scan.log[i].0])
    {
      assert S.RightHandle(s.b, s.scan, s.scan.log[i].0, s.scan.log[i].1);
      assert S.Visited(s.scan.log)[i] in Below(s.b.ready, s.scan.idx);
    }
  }

  lemma TableIsRight(s: State, f: nat, h: nat)
    requires Matches(ViewOf(s.own), s.fds, s.scan.table, s.scan.watched, s.b.listenSck)
    ensures f in s.scan.table && s.scan.table[f] == h <==>
              h in s.own.handles && s.own.handles[h].inTable && h in s.fds && s.fds[h] == f
  {
    assert h in ViewOf(s.own).tabled <==> h in s.own.handles && s.own.handles[h].inTable;
  }

  lemma SetIsRight(s: State, f: nat)
    requires Matches(ViewOf(s.own), s.fds, s.scan.table, s.scan.watched, s.b.listenSck)
    ensures f in s.scan.watched && f != s.b.listenSck <==>
              exists h :: h in s.own.watched && h in s.fds && s.fds[h] == f
  {
    if f in s.scan.watched && f != s.b.listenSck {
      assert s.scan.table[f] in s.own.watched && s.fds[s.scan.table[f]] == f;
    }
  }

  /** In every disciplined run, however descriptors are reused: each scan visits only descriptors that select reported,
      none twice, and when it has ended, unless accept failed, every one of them; what it queues for a descriptor is
      the handle that select reported on, whose descriptor it still is; and apart from the listening socket the select
      set holds exactly the descriptors of the handles that no wrapper reads; and the table leads from each descriptor
      to the handle that is open for reading on it. */
  lemma EveryScanIsExact(ms: seq<Move>)
    requires Allowed(Init(), ms)
    ensures var s := Run(Init(), ms);
      && Enumerates(S.Visited(s.scan.log), Below(s.b.ready, s.scan.idx))
      && (s.scan.over && !s.scan.failed ==> Enumerates(S.Visited(s.scan.log), s.b.ready))
      && (forall i :: 0 <= i < |s.scan.log| && s.scan.log[i].0 != s.b.listenSck ==>
            s.scan.log[i].0 in s.b.table && s.scan.log[i].1 == Some(s.b.table[s.scan.log[i].0]))
      && (forall f :: f in s.b.table ==> s.b.table[f] in s.fds && s.fds[s.b.table[f]] == f)
      && (forall f: nat :: f in s.scan.watched && f != s.b.listenSck <==>
            exists h :: h in s.own.watched && h in s.fds && s.fds[h] == f)
      && (forall f: nat, h: nat :: f in s.scan.table && s.scan.table[f] == h <==>
            h in s.own.handles && !s.own.handles[h].closedRd && h in s.fds && s.fds[h] == f)
  {
    var s := Run(Init(), ms);
    LogIsRight(s);
    forall f: nat, h: nat
      ensures f in s.scan.table && s.scan.table[f] == h <==>
                h in s.own.handles && !s.own.handles[h].closedRd && h in s.fds && s.fds[h] == f
    {
      TableIsRight(s, f, h);
      if h in s.own.handles { assert O.Counted(s.own, h); }
    }
    forall f: nat
      ensures f in s.scan.watched && f != s.b.listenSck <==>
                exists h :: h in s.own.watched && h in s.fds && s.fds[h] == f
    {
      SetIsRight(s, f);
    }
  }

  /** What a step of the scan hands out: for a ready connection one more wrapper, which may read; for a new connection
      the same if it is a user's, and none if it is a team's or its handshake failed; and it logs whose turn it was. */
  lemma TurnHandsOut(s: State, taken: Option<Taken>, w: nat)
    requires Inv(s) && Possible(s, Turn(taken, w))
    ensures var r := Step(s, Turn(taken, w)); var f := s.scan.idx;
            && (!Visits(s) || (f == s.b.listenSck && taken.None?) ==> r.own == s.own && r.scan.log == s.scan.log)
            && (Visits(s) && f != s.b.listenSck ==>
                  && f in s.scan.table && r.scan.log == s.scan.log + [(f, Some(s.scan.table[f]))]
                  && r.own.wrappers == s.own.wrappers[w := O.Wrapper(Some(s.scan.table[f]), true)])
            && (Visits(s) && f == s.b.listenSck && taken.Some? ==>
                  && taken.value.h in r.own.handles && r.scan.log == s.scan.log + [(f, Some(taken.value.h))]
                  && r.own.handles[taken.value.h].role == (if taken.value.internal then O.Internal else O.User)
                  && r.own.wrappers == if taken.value.internal then s.own.wrappers
                                       else s.own.wrappers[w := O.Wrapper(Some(taken.value.h), true)])
  {
    if Visits(s) && s.scan.idx != s.b.listenSck {
      DueIsWatched(s, s.scan.idx);
      var h := s.scan.table[s.scan.idx];
      assert O.Counted(s.own, h) && O.Exclusive(s.own, h);
    }
  }

  // What a yield without the right to read leads to ----------------------------------------------

  /** Handle 7, descriptor 0, read through wrapper 1 and named by wrapper 0, which may not read; handle 6, descriptor 1,
      watched. */
  function TwoWrappers(): O.State {
    O.State(map[7 := O.Handle(O.User, false, false, 2, true, 0), 6 := O.Handle(O.User, false, false, 0, true, 0)], {6},
            map[0 := O.Wrapper(Some(7), false), 1 := O.Wrapper(Some(7), true)])
  }

  lemma TwoWrappersInv()
    ensures O.Inv(TwoWrappers())
  {
    var o := TwoWrappers();
    assert O.Refs(o.wrappers, 7) == {0, 1} && O.Refs(o.wrappers, 6) == {};
    assert O.Readers(o.wrappers, 7) == {1} && O.Readers(o.wrappers, 6) == {};
    forall h | h in o.handles ensures O.Counted(o, h) && O.Exclusive(o, h) {}
  }

  function Yielded(): O.State { TwoWrappers().(watched := {6, 7}) }

  function Ended(): O.State {
    O.State(map[7 := O.Handle(O.User, true, true, 2, false, 0), 6 := O.Handle(O.User, false, false, 0, true, 0)], {6},
            map[0 := O.Wrapper(Some(7), false), 1 := O.Wrapper(Some(7), false)])
  }

  const FDS: map<nat, nat> := map[7 := 0, 6 := 1]

  lemma YieldAgain()
    ensures var o := TwoWrappers();
            O.Callable(o, O.Yield(0)) && !O.Disciplined(o, O.Yield(0)) && O.Step(o, O.Yield(0)) == Yielded()
  {
    assert TwoWrappers().wrappers[0 := O.Wrapper(Some(7), false)] == TwoWrappers().wrappers;
  }

  lemma EndRead()
    ensures var o := Yielded();
            && O.Callable(o, O.ReadEof(1)) && O.Step(o, O.ReadEof(1)) == Ended()
            && CallAct(FDS, EffectOf(o, O.ReadEof(1)), 0) == Some(S.CloseRead(0))
  {
  }

  lemma ConnectAgain()
    ensures var o := Ended();
            && !IsOpen(o.handles[7]) && O.Callable(o, O.Connect(8, 2))
            && CallAct(FDS, EffectOf(o, O.Connect(8, 2)), 0) == Some(S.Connect(0, 8))
            && O.Readers(O.Step(o, O.Connect(8, 2)).wrappers, 8) == {2}
  {
    assert O.Step(Ended(), O.Connect(8, 2)).wrappers == Ended().wrappers[2 := O.Wrapper(Some(8), true)];
  }

  /** From a state that satisfies the invariant, one such yield is enough: select may then report descriptor 0 while
      its reader closes it and it goes to a new connection, handle 8, and the scan queues handle 8 as readable, with
      nothing to read and a reader of its own. */
  lemma SecondYieldMixesUp()
    ensures O.Inv(TwoWrappers()) && O.Callable(TwoWrappers(), O.Yield(0)) && !O.Disciplined(TwoWrappers(), O.Yield(0))
    ensures var o1 := O.Step(TwoWrappers(), O.Yield(0));
            && o1.watched == {6, 7} && O.Callable(o1, O.ReadEof(1))
            && CallAct(FDS, EffectOf(o1, O.ReadEof(1)), 0) == Some(S.CloseRead(0))
            && var o2 := O.Step(o1, O.ReadEof(1));
               && !IsOpen(o2.handles[7]) && O.Callable(o2, O.Connect(8, 2))
               && CallAct(FDS, EffectOf(o2, O.Connect(8, 2)), 0) == Some(S.Connect(0, 8))
               && O.Readers(O.Step(o2, O.Connect(8, 2)).wrappers, 8) == {2}
    ensures var b := S.Begin({0}, {0, 1}, map[0 := 7, 1 := 6], 2);
            S.Run(b, S.Start(b), [S.CloseRead(0), S.Connect(0, 8), S.Advance(None)]).log == [(0, Some(8))]
  {
    TwoWrappersInv();
    YieldAgain();
    EndRead();
    ConnectAgain();
    S.ReusedDescriptor();
  }
}
