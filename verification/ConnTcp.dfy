/** The select set of ConnTcp: which descriptors are watched, the greatest of them (fdmax), the
    connection table, and the scan that update makes over the ready descriptors. */
module ConnTcps {

  /** What update hands to the manager's queue. */
  datatype Event = NewConnection(handle: nat) | Readable(handle: nat)

  /** fdmax is the greatest watched descriptor, or -1 when none is watched. */
  ghost predicate IsMax(fdmax: int, watched: set<nat>) {
    && fdmax >= -1
    && (fdmax != -1 ==> fdmax in watched)
    && forall f <- watched :: f <= fdmax
  }

  function Below(s: set<nat>, idx: int): (r: set<nat>) { set f | f in s && f < idx }

  /** The descriptors of s other than the listening socket. */
  function Others(s: set<nat>, listenSck: int): set<nat> { set f | f in s && f != listenSck }

  /** visited lists every element of s exactly once, in ascending order. */
  ghost predicate Enumerates(visited: seq<nat>, s: set<nat>) {
    && (forall i, j :: 0 <= i < j < |visited| ==> visited[i] < visited[j])
    && (forall f :: f in visited <==> f in s)
  }

  lemma EnumeratesNext(visited: seq<nat>, s: set<nat>, f: nat)
    requires Enumerates(visited, s) && forall g <- s :: g < f
    ensures Enumerates(visited + [f], s + {f})
  {
    var v := visited + [f];
    forall i, j | 0 <= i < j < |v| ensures v[i] < v[j] {
      assert visited[i] in s;
    }
  }

  /** What visiting one ready descriptor puts in the queue; a descriptor missing from the table gives nothing. */
  function EventsAt(f: nat, listenSck: int, table: map<nat, nat>, newHandle: nat): seq<Event>
  {
    if f == listenSck then [NewConnection(newHandle)]
    else if f in table then [Readable(table[f])]
    else []
  }

  function Events(visited: seq<nat>, listenSck: int, table: map<nat, nat>, newHandle: nat): seq<Event>
  {
    if visited == [] then []
    else Events(visited[..|visited| - 1], listenSck, table, newHandle)
         + EventsAt(visited[|visited| - 1], listenSck, table, newHandle)
  }

  datatype ScanState = ScanState(watched: set<nat>, listenSck: int, table: map<nat, nat>, queue: seq<Event>)

  /** The effect of a scan that has visited exactly seen: each descriptor once, the connections among them no
      longer watched and queued in order, the accepted one in the table. */
  ghost predicate Scanned(seen: set<nat>, visited: seq<nat>, s0: ScanState, s: ScanState, acceptFd: int, newHandle: nat)
    requires acceptFd >= -1
  {
    && Enumerates(visited, seen)
    && s.listenSck == s0.listenSck
    && (s.listenSck in seen ==> acceptFd >= 0)
    && s.watched == s0.watched - Others(seen, s.listenSck)
    && s.queue == s0.queue + Events(visited, s.listenSck, s0.table, newHandle)
    && s.table == if s.listenSck in seen then s0.table[acceptFd := newHandle] else s0.table
  }

  lemma ScanNext(seen: set<nat>, visited: seq<nat>, s0: ScanState, s: ScanState, s': ScanState, acceptFd: int,
                 newHandle: nat, f: nat)
    requires acceptFd >= -1 && acceptFd != f && Scanned(seen, visited, s0, s, acceptFd, newHandle)
    requires forall g <- seen :: g < f
    requires f == s.listenSck ==> acceptFd >= 0
    requires s' == ScanState(
        s.watched - (if f == s.listenSck then {} else {f}), s.listenSck,
        if f == s.listenSck then s.table[acceptFd := newHandle] else s.table,
        s.queue + EventsAt(f, s.listenSck, s.table, newHandle))
    ensures Scanned(seen + {f}, visited + [f], s0, s', acceptFd, newHandle)
  {
    EnumeratesNext(visited, seen, f);
    var table := if s.listenSck in seen then s0.table[acceptFd := newHandle] else s0.table;
    QueueNext(visited, s0.queue, f, s.listenSck, s0.table, table, newHandle);
    WatchedNext(s0.watched, seen, f, s.listenSck);
  }

  /** A connection's entry of the table is what it was when the scan began, an accepted one lying elsewhere. */
  lemma QueueNext(visited: seq<nat>, queue: seq<Event>, f: nat, listenSck: int, table0: map<nat, nat>,
                  table: map<nat, nat>, newHandle: nat)
    requires (f in table <==> f in table0) && (f in table ==> table[f] == table0[f])
    ensures queue + Events(visited, listenSck, table0, newHandle) + EventsAt(f, listenSck, table, newHandle)
         == queue + Events(visited + [f], listenSck, table0, newHandle)
  {
    EventsNext(visited, f, listenSck, table0, newHandle);
  }

  lemma EventsNext(visited: seq<nat>, f: nat, listenSck: int, table: map<nat, nat>, newHandle: nat)
    ensures Events(visited + [f], listenSck, table, newHandle)
         == Events(visited, listenSck, table, newHandle) + EventsAt(f, listenSck, table, newHandle)
  {
    assert (visited + [f])[..|visited|] == visited;
  }

  /** The descriptors that the scan gets to: all of them, or those before the listening socket if accept fails. */
  function Reached(ready: set<nat>, listenSck: int, acceptFd: int): set<nat> {
    if listenSck in ready && acceptFd == -1 then Below(ready, listenSck) else ready
  }

  lemma NothingSeen(ready: set<nat>, s: ScanState, acceptFd: int, newHandle: nat)
    requires acceptFd >= -1
    ensures ready - Below(ready, 0) == ready && Scanned(Below(ready, 0), [], s, s, acceptFd, newHandle)
  {
    assert Below(ready, 0) == {};
  }

  lemma NotCutShort(ready: set<nat>, visited: seq<nat>, s0: ScanState, s: ScanState, acceptFd: int, newHandle: nat)
    requires acceptFd >= -1 && Scanned(ready, visited, s0, s, acceptFd, newHandle)
    ensures Reached(ready, s.listenSck, acceptFd) == ready
  {
  }

  /** What a scan that got to seen has put in the queue, from the descriptors from in ascending order: a new connection
      for the listening socket, the handle that is now readable for a connection, nothing for any other. */
  ghost predicate Queued(added: seq<Event>, from: seq<nat>, seen: set<nat>, listenSck: int, table: map<nat, nat>,
                         newHandle: nat)
  {
    && (forall i, j :: 0 <= i < j < |from| ==> from[i] < from[j])
    && (forall f :: f in from <==> f in seen && (f == listenSck || f in table))
    && |added| == |from|
    && (forall i :: 0 <= i < |from| && from[i] == listenSck ==> added[i] == NewConnection(newHandle))
    && (forall i :: 0 <= i < |from| && from[i] != listenSck ==> added[i] == Readable(table[from[i]]))
  }

  lemma {:induction false} EventsAreQueued(visited: seq<nat>, seen: set<nat>, listenSck: int, table: map<nat, nat>,
                                           newHandle: nat) returns (from: seq<nat>)
    requires Enumerates(visited, seen)
    ensures Queued(Events(visited, listenSck, table, newHandle), from, seen, listenSck, table, newHandle)
    decreases |visited|
  {
    if visited == [] {
      from := [];
    } else {
      var n := |visited| - 1;
      var last := visited[n];
      LastVisited(visited, seen);
      from := EventsAreQueued(visited[..n], seen - {last}, listenSck, table, newHandle);
      forall i | 0 <= i < |from| ensures from[i] < last { assert from[i] in visited[..n]; }
      if last == listenSck || last in table { from := from + [last]; }
    }
  }

  lemma LastVisited(visited: seq<nat>, seen: set<nat>)
    requires Enumerates(visited, seen) && visited != []
    ensures var n := |visited| - 1;
            && Enumerates(visited[..n], seen - {visited[n]}) && visited[n] in seen
            && forall f <- visited[..n] :: f < visited[n]
  {
    var n := |visited| - 1;
    forall f ensures f in visited[..n] <==> f in seen - {visited[n]} {
      if f in seen - {visited[n]} {
        var i :| 0 <= i < |visited| && visited[i] == f;
        assert visited[..n][i] == f;
      }
    }
  }

  lemma WatchedNext(watched: set<nat>, seen: set<nat>, f: nat, listenSck: int)
    ensures watched - Others(seen + {f}, listenSck)
         == (watched - Others(seen, listenSck)) - if f == listenSck then {} else {f}
  {
  }

  class ConnTcp {
    var watched: set<nat>
    var fdmax: int
    var listenSck: int
    var connections: map<nat, nat>   // descriptor to handle
    var queue: seq<Event>

    ghost predicate Valid()
      reads this
    {
      IsMax(fdmax, watched)
    }

    constructor ()
      ensures Valid() && watched == {} && listenSck == -1 && connections == map[] && queue == []
    {
      watched, fdmax, listenSck, connections, queue := {}, -1, -1, map[], [];
    }

    /** Starts over with the listening socket alone: whatever was watched before is dropped. */
    method Listen(sck: nat)
      modifies this`watched, this`fdmax, this`listenSck
      ensures Valid() && watched == {sck} && listenSck == sck
    {
      listenSck := sck;
      watched := {};
      watched := watched + {sck};
      fdmax := sck;
    }

    method Connect(fd: nat, handle: nat)
      modifies this`connections
      ensures connections == old(connections)[fd := handle]
    {
      connections := connections[fd := handle];
    }

    /** fd, no longer in the set, was the greatest: look downwards for the next one. */
    method LowerMax()
      requires fdmax >= 0 && fdmax !in watched && forall f <- watched :: f <= fdmax
      modifies this`fdmax
      ensures Valid()
    {
      var ii := fdmax - 1;
      while ii >= 0
        invariant -1 <= ii < fdmax && fdmax == old(fdmax)
        invariant forall f <- watched :: f <= ii
      {
        if ii in watched {
          fdmax := ii;
          break;
        }
        ii := ii - 1;
      }
      if ii == -1 {
        fdmax := -1;
      }
    }

    method NotifyYield(fd: int, isClosed: bool)
      requires Valid() && fd >= -1
      modifies this`watched, this`fdmax
      ensures Valid()
      ensures watched == old(watched) + if fd == -1 || isClosed then {} else {fd as nat}
    {
      if fd == -1 || isClosed { return; }
      watched := watched + {fd};
      if fd > fdmax { fdmax := fd; }
    }

    /** Returns whether the descriptor itself was closed. */
    method NotifyClose(fd: int, closeWr: bool, closeRd: bool) returns (fdClosed: bool)
      requires Valid() && fd >= -1
      modifies this`watched, this`fdmax, this`connections
      ensures Valid()
      ensures watched == old(watched) - if closeRd && fd != -1 then {fd as nat} else {}
      ensures connections == old(connections) - if closeRd && fd != -1 then {fd as nat} else {}
      ensures fdClosed <==> fd != -1 && closeWr && (closeRd || fd !in old(connections))
    {
      fdClosed := false;
      if closeWr && fd != -1 && !closeRd && fd !in connections { fdClosed := true; }
      if closeRd {
        if fd == -1 { return; }
        connections := connections - {fd};
        watched := watched - {fd};
        if fd == fdmax { LowerMax(); }
        if closeWr { fdClosed := true; }
      }
    }

    /** The body of the scan for a ready descriptor. Returns false when accept failed. */
    method Visit(idx: nat, acceptFd: int, newHandle: nat) returns (ok: bool)
      requires Valid() && idx in watched && acceptFd >= -1
      modifies this`watched, this`fdmax, this`connections, this`queue
      ensures Valid()
      ensures ok <==> !(idx == listenSck && acceptFd == -1)
      ensures watched == old(watched) - if idx == listenSck then {} else {idx}
      ensures connections == if ok && idx == listenSck
           then old(connections)[acceptFd := newHandle] else old(connections)
      ensures queue == old(queue) + if ok then EventsAt(idx, listenSck, old(connections), newHandle) else []
      ensures ok ==> queue == old(queue) + if idx == listenSck then [NewConnection(newHandle)]
                                           else if idx in old(connections) then [Readable(old(connections)[idx])]
                                           else []
    {
      if idx == listenSck {
        if acceptFd == -1 { return false; }
        connections := connections[acceptFd := newHandle];
        queue := queue + [NewConnection(newHandle)];
      } else {
        watched := watched - {idx};
        if idx == fdmax { LowerMax(); }
        if idx in connections { queue := queue + [Readable(connections[idx])]; }
      }
      return true;
    }

    /** One scan after select reported the descriptors in ready. An accept that fails (acceptFd == -1) ends
        the scan, leaving the greater ready descriptors watched for the next one. visited is a log of the scan, from
        that of what it queues. */
    method Update(ready: set<nat>, acceptFd: int, newHandle: nat)
      returns (visited: seq<nat>, ghost from: seq<nat>)
      requires Valid() && ready <= watched
      requires acceptFd >= -1 && acceptFd !in watched && acceptFd !in connections
      modifies this`watched, this`fdmax, this`connections, this`queue
      ensures Valid()
      ensures Scanned(Reached(ready, listenSck, acceptFd), visited, old(View()), View(), acceptFd, newHandle)
      ensures old(queue) <= queue
      ensures Queued(queue[|old(queue)|..], from, Reached(ready, listenSck, acceptFd), listenSck, old(connections),
                     newHandle)
    {
      visited := [];
      if fdmax != -1 && |ready| != 0 {
        visited := ScanAll(ready, acceptFd, newHandle);
      } else {
        assert ready == {};
      }
      from := EventsAreQueued(visited, Reached(ready, listenSck, acceptFd), listenSck, old(connections), newHandle);
    }

    /** The loop over the descriptors. */
    method ScanAll(ready: set<nat>, acceptFd: int, newHandle: nat) returns (visited: seq<nat>)
      requires Valid() && ready <= watched
      requires acceptFd >= -1 && acceptFd !in watched && acceptFd !in connections
      modifies this`watched, this`fdmax, this`connections, this`queue
      ensures Valid()
      ensures Scanned(Reached(ready, listenSck, acceptFd), visited, old(View()), View(), acceptFd, newHandle)
    {
      visited := [];
      var idx, nready := 0, |ready|;
      NothingSeen(ready, View(), acceptFd, newHandle);
      while idx <= fdmax && nready > 0
        invariant Valid() && idx >= 0 && fdmax <= old(fdmax)
        invariant nready == |ready - Below(ready, idx)|
        invariant Scanned(Below(ready, idx), visited, old(View()), View(), acceptFd, newHandle)
        decreases old(fdmax) + 1 - idx
      {
        var ok;
        ok, visited, nready := Scan(ready, idx, visited, nready, acceptFd, newHandle, old(View()));
        if !ok { return; }
        idx := idx + 1;
      }
      assert forall f <- ready :: f < idx || f in watched;
      AllSeen(ready, idx, nready);
      NotCutShort(ready, visited, old(View()), View(), acceptFd, newHandle);
    }

    /** One value of idx. */
    method Scan(ready: set<nat>, idx: nat, visited: seq<nat>, nready: nat, acceptFd: int, newHandle: nat,
                ghost s0: ScanState)
      returns (ok: bool, visited': seq<nat>, nready': nat)
      requires Valid() && ready <= s0.watched && acceptFd >= -1 && acceptFd !in s0.watched
      requires Scanned(Below(ready, idx), visited, s0, View(), acceptFd, newHandle)
      requires nready == |ready - Below(ready, idx)|
      modifies this`watched, this`fdmax, this`connections, this`queue
      ensures Valid() && fdmax <= old(fdmax)
      ensures ok <==> !(idx in ready && idx == listenSck && acceptFd == -1)
      ensures !ok ==> View() == old(View()) && visited' == visited
      ensures ok ==> Scanned(Below(ready, idx + 1), visited', s0, View(), acceptFd, newHandle)
                     && nready' == |ready - Below(ready, idx + 1)|
    {
      ok, visited', nready' := true, visited, nready;
      if idx !in ready {
        Skip(ready, idx);
        return;
      }
      Next(ready, idx);
      ghost var before := View();
      ok := Visit(idx, acceptFd, newHandle);
      if ok {
        ScanNext(Below(ready, idx), visited, s0, before, View(), acceptFd, newHandle, idx);
        visited' := visited + [idx];
        nready' := nready - 1;
      }
    }

    ghost function View(): ScanState
      reads this
    {
      ScanState(watched, listenSck, connections, queue)
    }

    lemma AllSeen(ready: set<nat>, idx: nat, nready: nat)
      requires nready == |ready - Below(ready, idx)|
      requires nready == 0 || forall f <- ready :: f < idx
      ensures Below(ready, idx) == ready
    {
      if nready == 0 { assert ready - Below(ready, idx) == {}; }
    }

    lemma Next(ready: set<nat>, idx: nat)
      requires idx in ready
      ensures Below(ready, idx + 1) == Below(ready, idx) + {idx}
      ensures |ready - Below(ready, idx + 1)| == |ready - Below(ready, idx)| - 1
    {
      assert ready - Below(ready, idx) == (ready - Below(ready, idx + 1)) + {idx};
    }

    lemma Skip(ready: set<nat>, idx: nat)
      requires idx !in ready
      ensures Below(ready, idx + 1) == Below(ready, idx)
    {
    }
  }
}
