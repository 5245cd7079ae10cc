/** FanInGeneric at the root: many senders merged by a polling loop that erases a participant when its
    EOS arrives. A link's future is everything its sender will ever put on it; the lag of an arrival is the
    number of polls that still miss it, so every timing of the senders is covered. */
module FanIn {
  import opened Bytes

  datatype Arrival = Arrival(lag: nat, msg: seq<byte>)

  /** gone: after its future the sender disconnects without EOS. The empty message is EOS. */
  datatype Link = Link(future: seq<Arrival>, gone: bool)

  /** A non-blocking Handle::probe: -1 for nothing yet, 0 for a broken stream, else the header's size. */
  datatype Polled = Nothing(l: Link) | Broken | Header(size: nat)

  function Poll(l: Link): Polled
  {
    if l.future == [] then (if l.gone then Broken else Nothing(l))
    else if l.future[0].lag > 0 then Nothing(l.(future := [l.future[0].(lag := l.future[0].lag - 1)] + l.future[1..]))
    else Header(|l.future[0].msg|)
  }

  type Links = map<nat, Link>

  /** The locals of probe together with the object's fields it touches. i is the iterator. */
  datatype Scan = Scan(
    parts: seq<nat>, links: Links, i: nat, res: int, size: nat, idx: int, closed: seq<nat>, stop: bool)

  predicate Distinct(s: seq<nat>) { forall j, k :: 0 <= j < k < |s| ==> s[j] != s[k] }

  ghost predicate Formed(parts: seq<nat>, links: Links) {
    Distinct(parts) && forall p <- parts :: p in links
  }

  predicate Done(s: Scan) { s.stop || s.res != -1 || s.parts == [] }

  /** The iterator is dereferenced only when it is in range. */
  ghost predicate InRange(s: Scan) { Formed(s.parts, s.links) && (!Done(s) ==> s.i < |s.parts|) }

  /** iter++, wrapping around when blocking. */
  function Advance(s: Scan, blocking: bool): Scan
  {
    if s.i + 1 != |s.parts| then s.(i := s.i + 1)
    else if blocking then s.(i := 0)
    else s.(i := s.i + 1, stop := true)
  }

  function Erase(s: seq<nat>, i: nat): seq<nat>
    requires i < |s|
  {
    s[..i] + s[i + 1..]
  }

  lemma EraseFormed(parts: seq<nat>, links: Links, i: nat)
    requires Formed(parts, links) && i < |parts|
    ensures Formed(Erase(parts, i), links)
  {
  }

  /** participants.erase(iter) and what follows it: the next participant is skipped by iter++ unless the end was
      reached. */
  function DropAt(s: Scan, blocking: bool): (r: Scan)
    requires InRange(s) && !Done(s)
    ensures InRange(r)
  {
    EraseFormed(s.parts, s.links, s.i);
    var s1 := s.(parts := Erase(s.parts, s.i), size := 0, closed := s.closed + [s.parts[s.i]]);
    if s.i != |s1.parts| then Advance(s1, blocking)
    else if blocking then s1.(i := 0)
    else s1.(stop := true)
  }

  /** One pass of the loop. */
  function Pass(s: Scan, blocking: bool): (r: Scan)
    requires InRange(s) && !Done(s)
    ensures InRange(r)
  {
    var id := s.parts[s.i];
    match Poll(s.links[id])
    case Nothing(l) => Advance(s.(links := s.links[id := l]), blocking)
    case Broken => Advance(s.(res := 0), blocking)
    case Header(n) =>
      if n == 0 then DropAt(s, blocking)
      else Advance(s.(res := HEADER, size := n, idx := s.i), blocking)
  }

  function Passes(s: Scan, blocking: bool, n: nat): (r: Scan)
    requires InRange(s)
    ensures InRange(r)
    decreases n
  {
    if n == 0 || Done(s) then s else Passes(Pass(s, blocking), blocking, n - 1)
  }

  // When the blocking loop ends ------------------------------------------------------

  predicate Active(links: Links, id: nat) { id in links && (links[id].future != [] || links[id].gone) }

  predicate HeadIsEos(links: Links, id: nat) {
    id in links && links[id].future != [] && links[id].future[0].msg == []
  }

  /** Some participant will deliver a message or break, or all of them will deliver EOS. */
  ghost predicate Live(parts: seq<nat>, links: Links) {
    || (forall p <- parts :: HeadIsEos(links, p))
    || (exists p <- parts :: Active(links, p) && !HeadIsEos(links, p))
  }

  function HeadLag(links: Links, id: nat): nat
  {
    if id in links && links[id].future != [] then links[id].future[0].lag else 0
  }

  function SumLag(parts: seq<nat>, links: Links): nat
  {
    if parts == [] then 0 else HeadLag(links, parts[0]) + SumLag(parts[1..], links)
  }

  /** The first active participant at or after position i, or the end. */
  function NextActive(parts: seq<nat>, links: Links, i: nat): (j: nat)
    requires i <= |parts|
    ensures i <= j <= |parts|
    ensures j < |parts| ==> Active(links, parts[j])
    ensures forall k :: i <= k < j ==> !Active(links, parts[k])
    decreases |parts| - i
  {
    if i == |parts| || Active(links, parts[i]) then i else NextActive(parts, links, i + 1)
  }

  /** How far the iterator is, going round, from the next active participant. */
  function Distance(parts: seq<nat>, links: Links, i: nat): nat
    requires i <= |parts|
  {
    var j := NextActive(parts, links, i);
    if j < |parts| then j - i else |parts| - i + NextActive(parts, links, 0)
  }

  lemma {:induction false} SumLagStep(parts: seq<nat>, links: Links, i: nat, l: Link)
    requires Formed(parts, links) && i < |parts|
    ensures var r := links[parts[i] := l];
            SumLag(parts, r) == SumLag(parts, links) - HeadLag(links, parts[i]) + HeadLag(r, parts[i])
  {
    var r := links[parts[i] := l];
    if i == 0 {
      SumLagSame(parts[1..], links, r);
    } else {
      assert parts[1..][i - 1] == parts[i];
      assert parts[0] != parts[i];
      SumLagStep(parts[1..], links, i - 1, l);
    }
  }

  lemma {:induction false} SumLagSame(parts: seq<nat>, links: Links, r: Links)
    requires forall p <- parts :: HeadLag(links, p) == HeadLag(r, p)
    ensures SumLag(parts, links) == SumLag(parts, r)
  {
    if parts != [] {
      assert parts[0] in parts;
      SumLagSame(parts[1..], links, r);
    }
  }

  /** A pass that finds nothing changes at most one lag. */
  lemma NothingKeeps(s: Scan, blocking: bool)
    requires InRange(s) && !Done(s) && Poll(s.links[s.parts[s.i]]).Nothing?
    ensures var r := Pass(s, blocking); var id := s.parts[s.i];
            && r.parts == s.parts
            && (forall p :: Active(r.links, p) == Active(s.links, p) && HeadIsEos(r.links, p) == HeadIsEos(s.links, p))
            && (Active(s.links, id) ==> SumLag(r.parts, r.links) == SumLag(s.parts, s.links) - 1)
            && (!Active(s.links, id) ==> r.links == s.links)
  {
    var id := s.parts[s.i];
    assert id in s.parts;
    SumLagStep(s.parts, s.links, s.i, Poll(s.links[id]).l);
  }

  lemma DistanceShrinks(parts: seq<nat>, links: Links, i: nat)
    requires i < |parts| && !Active(links, parts[i]) && exists p <- parts :: Active(links, p)
    ensures Distance(parts, links, if i + 1 == |parts| then 0 else i + 1) < Distance(parts, links, i)
  {
    var p :| p in parts && Active(links, p);
    var k :| 0 <= k < |parts| && parts[k] == p;
    assert NextActive(parts, links, 0) <= k;
  }

  lemma LiveHasActive(parts: seq<nat>, links: Links)
    requires parts != [] && Live(parts, links)
    ensures exists p <- parts :: Active(links, p)
  {
    assert parts[0] in parts;
  }

  lemma LiveKept(s: Scan, blocking: bool)
    requires InRange(s) && !Done(s) && Live(s.parts, s.links)
    ensures Live(Pass(s, blocking).parts, Pass(s, blocking).links)
  {
    var id := s.parts[s.i];
    var r := Pass(s, blocking);
    if Poll(s.links[id]).Nothing? {
      NothingKeeps(s, blocking);
    } else if HeadIsEos(s.links, id) {
      LiveErase(s.parts, s.links, s.i);
    }
  }

  lemma LiveErase(parts: seq<nat>, links: Links, i: nat)
    requires i < |parts| && HeadIsEos(links, parts[i]) && Live(parts, links)
    ensures Live(Erase(parts, i), links)
  {
    EraseMembers(parts, i);
    assert forall p <- Erase(parts, i) :: p in parts;
  }

  lemma EraseMembers(s: seq<nat>, i: nat)
    requires i < |s|
    ensures forall p <- s :: p == s[i] || p in Erase(s, i)
    ensures Distinct(s) ==> s[i] !in Erase(s, i)
  {
    forall p | p in s && p != s[i] ensures p in Erase(s, i) {
      var k :| 0 <= k < |s| && s[k] == p;
      assert Erase(s, i)[if k < i then k else k - 1] == p;
    }
  }

  lemma PassesUnfold(s: Scan, blocking: bool, n: nat)
    requires InRange(s) && !Done(s)
    ensures Passes(s, blocking, n + 1) == Passes(Pass(s, blocking), blocking, n)
  {
  }

  /** How many passes the loop makes. The measure: participants left, then lag left, then the way round to the
      next active participant. */
  ghost function Steps(s: Scan, blocking: bool): (n: nat)
    requires InRange(s) && (blocking ==> Live(s.parts, s.links))
    ensures Done(Passes(s, blocking, n))
    decreases |s.parts|, SumLag(s.parts, s.links),
              if Done(s) then 0 else 1 + (if blocking then Distance(s.parts, s.links, s.i) else |s.parts| - s.i)
  {
    if Done(s) then 0
    else
      LoopMeasure(s, blocking);
      var n := Steps(Pass(s, blocking), blocking);
      PassesUnfold(s, blocking, n);
      n + 1
  }

  /** The whole loop. */
  ghost function Loop(s: Scan, blocking: bool): (r: Scan)
    requires InRange(s) && (blocking ==> Live(s.parts, s.links))
    ensures InRange(r) && Done(r)
  {
    Passes(s, blocking, Steps(s, blocking))
  }

  lemma LoopMeasure(s: Scan, blocking: bool)
    requires InRange(s) && !Done(s) && (blocking ==> Live(s.parts, s.links))
    ensures blocking ==> Live(Pass(s, true).parts, Pass(s, true).links)
    ensures var r := Pass(s, blocking);
            || |r.parts| < |s.parts|
            || (r.parts == s.parts && SumLag(r.parts, r.links) < SumLag(s.parts, s.links))
            || (r.parts == s.parts && SumLag(r.parts, r.links) == SumLag(s.parts, s.links)
                && (Done(r) || if blocking then Distance(r.parts, r.links, r.i) < Distance(s.parts, s.links, s.i)
                       else r.i > s.i))
  {
    if blocking { LiveKept(s, true); }
    if Poll(s.links[s.parts[s.i]]).Nothing? {
      NothingKeeps(s, blocking);
      if blocking && !Active(s.links, s.parts[s.i]) {
        LiveHasActive(s.parts, s.links);
        DistanceShrinks(s.parts, s.links, s.i);
      }
    }
  }
}
