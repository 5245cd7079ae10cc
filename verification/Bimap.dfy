/** The proxy's bimap: keys and values in two ordered sets that are sorted independently, a pair being
    whatever stands at the same position. Elements are integers, standing for any ordered type. */
module Bimap {

  /** An ordered set: its elements in increasing order. */
  ghost predicate Ordered(s: seq<int>) { forall i, j :: 0 <= i < j < |s| ==> s[i] < s[j] }

  function Elements(s: seq<int>): set<int> { set x | x in s }

  /** Position of x, or |s| (the end iterator) when it is absent. */
  function Find(s: seq<int>, x: int): (i: nat)
    ensures i <= |s|
    ensures i < |s| ==> s[i] == x
    ensures i == |s| <==> x !in s
  {
    if s == [] then 0 else if s[0] == x then 0 else 1 + Find(s[1..], x)
  }

  /** emplace: no effect when x is already there. */
  function Emplace(s: seq<int>, x: int): seq<int>
  {
    if s == [] || x < s[0] then [x] + s
    else if x == s[0] then s
    else [s[0]] + Emplace(s[1..], x)
  }

  function RemoveAt(s: seq<int>, i: nat): seq<int>
    requires i < |s|
  {
    s[..i] + s[i + 1..]
  }

  lemma {:induction false} EmplaceElements(s: seq<int>, x: int, y: int)
    ensures y in Emplace(s, x) <==> y in s || y == x
  {
    if s != [] && s[0] < x {
      EmplaceElements(s[1..], x, y);
      assert s == [s[0]] + s[1..];
    }
  }

  lemma {:induction false} EmplaceAdds(s: seq<int>, x: int)
    requires Ordered(s)
    ensures Ordered(Emplace(s, x))
    ensures Elements(Emplace(s, x)) == Elements(s) + {x}
    ensures |Emplace(s, x)| == |s| + if x in s then 0 else 1
  {
    var r := Emplace(s, x);
    forall y ensures y in r <==> y in s || y == x { EmplaceElements(s, x, y); }
    if s != [] && s[0] < x {
      var t := Emplace(s[1..], x);
      EmplaceAdds(s[1..], x);
      assert s == [s[0]] + s[1..];
      forall j | 0 <= j < |t| ensures s[0] < t[j] { EmplaceElements(s[1..], x, t[j]); }
    }
  }

  lemma RemoveAtDrops(s: seq<int>, i: nat)
    requires Ordered(s) && i < |s|
    ensures Ordered(RemoveAt(s, i))
    ensures Elements(RemoveAt(s, i)) == Elements(s) - {s[i]}
  {
    var r := RemoveAt(s, i);
    forall x ensures x in r <==> x in s && x != s[i] {
      if x in s && x != s[i] {
        var k :| 0 <= k < |s| && s[k] == x;
        assert r[if k < i then k else k - 1] == x;
      }
    }
  }

  /** There is one way to put a set in increasing order. */
  lemma {:induction false} OrderUnique(a: seq<int>, b: seq<int>)
    requires Ordered(a) && Ordered(b) && Elements(a) == Elements(b)
    ensures a == b
  {
    assert a != [] ==> a[0] in Elements(a);
    assert b != [] ==> b[0] in Elements(b);
    if a != [] {
      assert a[0] in b && b[0] in a;
      assert a[0] == b[0];
      RemoveAtDrops(a, 0);
      RemoveAtDrops(b, 0);
      assert RemoveAt(a, 0) == a[1..] && RemoveAt(b, 0) == b[1..];
      OrderUnique(a[1..], b[1..]);
    }
  }

  // The container -----------------------------------------------------------------

  datatype Trees = Trees(keys: seq<int>, values: seq<int>)

  ghost predicate Paired(b: Trees) { Ordered(b.keys) && Ordered(b.values) && |b.keys| == |b.values| }

  /** index_of_key and index_of_value: an absent element has index 0. */
  function IndexOf(s: seq<int>, x: int): (i: nat)
    ensures x in s ==> i < |s| && s[i] == x
    ensures x !in s ==> i == 0
  {
    var offset := Find(s, x);
    if offset < |s| then offset else 0
  }

  function GetValue(b: Trees, key: int): int
    requires IndexOf(b.keys, key) < |b.values|
  {
    b.values[IndexOf(b.keys, key)]
  }

  function GetKey(b: Trees, value: int): int
    requires IndexOf(b.values, value) < |b.keys|
  {
    b.keys[IndexOf(b.values, value)]
  }

  function Insert(b: Trees, key: int, value: int): Trees
  {
    Trees(Emplace(b.keys, key), Emplace(b.values, value))
  }

  function EraseKey(b: Trees, key: int): Trees
    requires key in b.keys && Find(b.keys, key) < |b.values|
  {
    var offset := Find(b.keys, key);
    Trees(RemoveAt(b.keys, offset), RemoveAt(b.values, offset))
  }

  function EraseValue(b: Trees, value: int): Trees
    requires value in b.values && Find(b.values, value) < |b.keys|
  {
    var offset := Find(b.values, value);
    Trees(RemoveAt(b.keys, offset), RemoveAt(b.values, offset))
  }

  lemma FindUnique(s: seq<int>, i: nat)
    requires Ordered(s) && i < |s|
    ensures Find(s, s[i]) == i && IndexOf(s, s[i]) == i
  {
  }

  /** The two lookups are inverse to each other on every present key and value, whatever was inserted. */
  lemma LookupsInverse(b: Trees, x: int)
    requires Paired(b)
    ensures x in b.keys ==> GetKey(b, GetValue(b, x)) == x
    ensures x in b.values ==> GetValue(b, GetKey(b, x)) == x
  {
    if x in b.keys { FindUnique(b.values, IndexOf(b.keys, x)); }
    if x in b.values { FindUnique(b.keys, IndexOf(b.values, x)); }
  }

  datatype Op = OpInsert(key: int, value: int) | OpEraseKey(key: int) | OpEraseValue(value: int)

  /** Fresh keys with fresh values, and erases of what is there. */
  predicate Fits(b: Trees, op: Op) {
    match op
    case OpInsert(k, v) => k !in b.keys && v !in b.values
    case OpEraseKey(k) => k in b.keys
    case OpEraseValue(v) => v in b.values
  }

  ghost function Apply(b: Trees, op: Op): Trees
    requires Paired(b) && Fits(b, op)
  {
    match op
    case OpInsert(k, v) => Insert(b, k, v)
    case OpEraseKey(k) => EraseKey(b, k)
    case OpEraseValue(v) => EraseValue(b, v)
  }

  lemma ApplyKeepsPaired(b: Trees, op: Op)
    requires Paired(b) && Fits(b, op)
    ensures Paired(Apply(b, op))
  {
    match op
    case OpInsert(k, v) => EmplaceAdds(b.keys, k); EmplaceAdds(b.values, v);
    case OpEraseKey(k) => RemoveAtDrops(b.keys, Find(b.keys, k)); RemoveAtDrops(b.values, Find(b.keys, k));
    case OpEraseValue(v) => RemoveAtDrops(b.keys, Find(b.values, v)); RemoveAtDrops(b.values, Find(b.values, v));
  }

  // Against a plain map --------------------------------------------------------------

  /** Every insert and erase of the history fits when its turn comes. */
  ghost predicate FitsAll(b: Trees, ops: seq<Op>)
    decreases |ops|
  {
    ops != [] ==> Paired(b) && Fits(b, ops[0]) && FitsAll(Apply(b, ops[0]), ops[1..])
  }

  ghost function ApplyAll(b: Trees, ops: seq<Op>): Trees
    requires FitsAll(b, ops)
    decreases |ops|
  {
    if ops == [] then b else ApplyAll(Apply(b, ops[0]), ops[1..])
  }

  /** After any such history the two sets have equal size and the lookups undo each other on all that is present. */
  lemma {:induction false} HistoryKeepsInverse(b: Trees, ops: seq<Op>, x: int)
    requires Paired(b) && FitsAll(b, ops)
    ensures var r := ApplyAll(b, ops);
            && Paired(r) && |r.keys| == |r.values|
            && (x in r.keys ==> GetKey(r, GetValue(r, x)) == x)
            && (x in r.values ==> GetValue(r, GetKey(r, x)) == x)
    decreases |ops|
  {
    if ops == [] {
      LookupsInverse(b, x);
    } else {
      ApplyKeepsPaired(b, ops[0]);
      HistoryKeepsInverse(Apply(b, ops[0]), ops[1..], x);
    }
  }

  /** The values of the pairs a user has inserted and not erased. */
  function ValuesOf(m: map<int, int>): set<int> { set k | k in m :: m[k] }

  ghost predicate OneToOne(m: map<int, int>) { forall j, k :: j in m && k in m && j != k ==> m[j] != m[k] }

  /** Keys and values in the same order. */
  ghost predicate JointlyIncreasing(m: map<int, int>) { forall j, k :: j in m && k in m && j < k ==> m[j] < m[k] }

  ghost predicate FitsMap(m: map<int, int>, op: Op) {
    match op
    case OpInsert(k, v) => k !in m && v !in ValuesOf(m)
    case OpEraseKey(k) => k in m
    case OpEraseValue(v) => v in ValuesOf(m)
  }

  ghost function ApplyMap(m: map<int, int>, op: Op): map<int, int>
  {
    match op
    case OpInsert(k, v) => m[k := v]
    case OpEraseKey(k) => m - {k}
    case OpEraseValue(v) => map k | k in m && m[k] != v :: m[k]
  }

  /** The trees hold the map's keys and its values. */
  ghost predicate Holds(b: Trees, m: map<int, int>) {
    Paired(b) && OneToOne(m) && Elements(b.keys) == m.Keys && Elements(b.values) == ValuesOf(m)
  }

  /** Every lookup answers as the map does. */
  ghost predicate Agrees(b: Trees, m: map<int, int>)
    requires Holds(b, m)
  {
    forall k :: k in m ==> k in b.keys && m[k] in b.values && GetValue(b, k) == m[k] && GetKey(b, m[k]) == k
  }

  function Image(keys: seq<int>, m: map<int, int>): (r: seq<int>)
    requires forall i :: 0 <= i < |keys| ==> keys[i] in m
    ensures |r| == |keys| && forall i :: 0 <= i < |r| ==> r[i] == m[keys[i]]
  {
    seq(|keys|, i requires 0 <= i < |keys| => m[keys[i]])
  }

  lemma ImageElements(b: Trees, m: map<int, int>)
    requires Holds(b, m)
    ensures forall k :: k in b.keys <==> k in m
    ensures Elements(Image(b.keys, m)) == Elements(b.values)
  {
    forall k ensures k in b.keys <==> k in m { assert k in Elements(b.keys) <==> k in b.keys; }
    var r := Image(b.keys, m);
    forall v ensures v in r <==> v in b.values {
      assert v in b.values <==> v in ValuesOf(m) by { assert v in Elements(b.values) <==> v in b.values; }
      if v in ValuesOf(m) {
        var k :| k in m && m[k] == v;
        var i := Find(b.keys, k);
        assert r[i] == v;
      }
    }
  }

  lemma IncreasingAgrees(b: Trees, m: map<int, int>, k: int)
    requires Holds(b, m) && JointlyIncreasing(m) && k in m
    ensures k in b.keys && m[k] in b.values && GetValue(b, k) == m[k] && GetKey(b, m[k]) == k
  {
    ImageElements(b, m);
    OrderUnique(Image(b.keys, m), b.values);
    var i := IndexOf(b.keys, k);
    assert b.values[i] == m[b.keys[i]];
    LookupsInverse(b, k);
  }

  lemma AgreeingIncreases(b: Trees, m: map<int, int>, j: int, k: int)
    requires Holds(b, m) && Agrees(b, m) && j in m && k in m && j < k
    ensures m[j] < m[k]
  {
    var x, y := IndexOf(b.keys, j), IndexOf(b.keys, k);
    assert b.keys[x] < b.keys[y];
    assert GetValue(b, j) < GetValue(b, k);
  }

  /** The lookups agree with the map exactly when its keys and values are jointly increasing. */
  lemma AgreesIffIncreasing(b: Trees, m: map<int, int>)
    requires Holds(b, m)
    ensures Agrees(b, m) <==> JointlyIncreasing(m)
  {
    if JointlyIncreasing(m) {
      forall k | k in m
        ensures k in b.keys && m[k] in b.values && GetValue(b, k) == m[k] && GetKey(b, m[k]) == k
      {
        IncreasingAgrees(b, m, k);
      }
    }
    if Agrees(b, m) {
      forall j, k | j in m && k in m && j < k ensures m[j] < m[k] { AgreeingIncreases(b, m, j, k); }
    }
  }

  lemma FitsBoth(b: Trees, m: map<int, int>, op: Op)
    requires Holds(b, m) && FitsMap(m, op)
    ensures Fits(b, op)
  {
    match op
    case OpInsert(k, v) => assert k !in Elements(b.keys) && v !in Elements(b.values);
    case OpEraseKey(k) => assert k in Elements(b.keys);
    case OpEraseValue(v) => assert v in Elements(b.values);
  }

  /** While trees and map agree, an operation on both leaves the trees holding the map's contents. */
  lemma ApplyKeepsHolds(b: Trees, m: map<int, int>, op: Op)
    requires Holds(b, m) && FitsMap(m, op) && Fits(b, op)
    requires Agrees(b, m) || op.OpInsert?
    ensures Holds(Apply(b, op), ApplyMap(m, op))
  {
    ApplyKeepsPaired(b, op);
    match op
    case OpInsert(k, v) => InsertKeepsHolds(b, m, k, v);
    case OpEraseKey(k) => EraseKeepsHolds(b, m, k);
    case OpEraseValue(v) => EraseValueKeepsHolds(b, m, v);
  }

  lemma InsertKeepsHolds(b: Trees, m: map<int, int>, k: int, v: int)
    requires Holds(b, m) && k !in m && v !in ValuesOf(m)
    ensures OneToOne(m[k := v])
    ensures Elements(Insert(b, k, v).keys) == m[k := v].Keys
    ensures Elements(Insert(b, k, v).values) == ValuesOf(m[k := v])
  {
    EmplaceAdds(b.keys, k);
    EmplaceAdds(b.values, v);
    var m' := m[k := v];
    forall x ensures x in ValuesOf(m') <==> x in ValuesOf(m) || x == v {
      if x in ValuesOf(m) { var j :| j in m && m[j] == x; assert m'[j] == x; }
      if x == v { assert m'[k] == v; }
    }
    assert forall j <- m :: m[j] in ValuesOf(m);
  }

  lemma EraseValueKeepsHolds(b: Trees, m: map<int, int>, v: int)
    requires Holds(b, m) && v in ValuesOf(m) && v in b.values && Agrees(b, m)
    ensures Elements(EraseValue(b, v).keys) == ApplyMap(m, OpEraseValue(v)).Keys
    ensures Elements(EraseValue(b, v).values) == ValuesOf(ApplyMap(m, OpEraseValue(v)))
    ensures OneToOne(ApplyMap(m, OpEraseValue(v)))
  {
    var k :| k in m && m[k] == v;
    assert GetKey(b, v) == k;
    FindUnique(b.keys, Find(b.values, v));
    assert EraseValue(b, v) == EraseKey(b, k);
    EraseByValueOnMap(m, k, v);
    EraseKeepsHolds(b, m, k);
  }

  lemma EraseByValueOnMap(m: map<int, int>, k: int, v: int)
    requires OneToOne(m) && k in m && m[k] == v
    ensures ApplyMap(m, OpEraseValue(v)) == m - {k}
  {
    var r := ApplyMap(m, OpEraseValue(v));
    forall j: int ensures j in r <==> j in m - {k} {
      if j in m && j != k { assert m[j] != m[k]; }
    }
    assert forall j <- r :: r[j] == m[j];
  }

  lemma EraseKeepsHolds(b: Trees, m: map<int, int>, k: int)
    requires Holds(b, m) && k in m && k in b.keys && Agrees(b, m)
    ensures Elements(EraseKey(b, k).keys) == (m - {k}).Keys
    ensures Elements(EraseKey(b, k).values) == ValuesOf(m - {k})
  {
    var i := Find(b.keys, k);
    RemoveAtDrops(b.keys, i);
    RemoveAtDrops(b.values, i);
    assert b.values[i] == m[k];
    ValuesWithout(m, k);
  }

  lemma KeyOf(m: map<int, int>, x: int) returns (j: int)
    requires x in ValuesOf(m)
    ensures j in m && m[j] == x
  {
    j :| j in m && m[j] == x;
  }

  lemma ValuesWithout(m: map<int, int>, k: int)
    requires OneToOne(m) && k in m
    ensures ValuesOf(m - {k}) == ValuesOf(m) - {m[k]}
  {
    var r := m - {k};
    forall x: int ensures x in ValuesOf(r) <==> x in ValuesOf(m) && x != m[k] {
      if x in ValuesOf(m) && x != m[k] {
        var j := KeyOf(m, x);
        assert j in r && r[j] == x;
      }
      if x in ValuesOf(r) {
        var j := KeyOf(r, x);
        assert j in m && m[j] == x && j != k;
      }
    }
  }

  ghost predicate Legal(m: map<int, int>, ops: seq<Op>)
    decreases |ops|
  {
    ops != [] ==> FitsMap(m, ops[0]) && Legal(ApplyMap(m, ops[0]), ops[1..])
  }

  /** Every map along the history, the last included, is jointly increasing. */
  ghost predicate StaysIncreasing(m: map<int, int>, ops: seq<Op>)
    decreases |ops|
  {
    JointlyIncreasing(m) && (ops != [] ==> StaysIncreasing(ApplyMap(m, ops[0]), ops[1..]))
  }

  /** The trees agree with the map now and after every further operation. */
  ghost predicate StaysAgreeing(b: Trees, m: map<int, int>, ops: seq<Op>)
    decreases |ops|
  {
    && Holds(b, m) && Agrees(b, m)
    && (ops != [] ==> Fits(b, ops[0]) && StaysAgreeing(Apply(b, ops[0]), ApplyMap(m, ops[0]), ops[1..]))
  }

  /** In every legal history the bimap behaves as a plain map throughout if and only if the live pairs stay
      jointly increasing throughout. */
  lemma {:induction false} MapIffIncreasing(b: Trees, m: map<int, int>, ops: seq<Op>)
    requires Holds(b, m) && Legal(m, ops)
    ensures StaysAgreeing(b, m, ops) <==> StaysIncreasing(m, ops)
    decreases |ops|
  {
    AgreesIffIncreasing(b, m);
    if ops != [] && JointlyIncreasing(m) {
      FitsBoth(b, m, ops[0]);
      ApplyKeepsHolds(b, m, ops[0]);
      MapIffIncreasing(Apply(b, ops[0]), ApplyMap(m, ops[0]), ops[1..]);
    }
  }

  /** The smallest history that goes wrong: two pairs in crossed order. */
  lemma CrossedPairs(j: int, k: int, v: int, w: int)
    requires j < k && v < w
    ensures Insert(Insert(Trees([], []), j, w), k, v) == Trees([j, k], [v, w])
    ensures GetValue(Trees([j, k], [v, w]), j) == v && GetValue(Trees([j, k], [v, w]), k) == w
  {
    assert [j][1..] == [];
    assert Emplace([], k) == [k] && Emplace([j], k) == [j, k];
    FindUnique([j, k], 0);
    FindUnique([j, k], 1);
  }

  // In place ----------------------------------------------------------------------------

  class BimapObject {
    var keyTree: seq<int>
    var valueTree: seq<int>

    ghost predicate Valid()
      reads this
    {
      Ordered(keyTree) && Ordered(valueTree)
    }

    ghost function Contents(): Trees
      reads this
    {
      Trees(keyTree, valueTree)
    }

    constructor ()
      ensures Valid() && Contents() == Trees([], [])
    {
      keyTree, valueTree := [], [];
    }

    method InsertPair(key: int, value: int)
      requires Valid()
      modifies this
      ensures Valid() && Contents() == Insert(old(Contents()), key, value)
    {
      EmplaceAdds(keyTree, key);
      EmplaceAdds(valueTree, value);
      keyTree := Emplace(keyTree, key);
      valueTree := Emplace(valueTree, value);
    }

    method EraseByKey(key: int)
      requires Valid() && key in keyTree && Find(keyTree, key) < |valueTree|
      modifies this
      ensures Valid() && Contents() == EraseKey(old(Contents()), key)
    {
      var offset := Find(keyTree, key);
      RemoveAtDrops(keyTree, offset);
      RemoveAtDrops(valueTree, offset);
      keyTree := RemoveAt(keyTree, offset);
      valueTree := RemoveAt(valueTree, offset);
    }

    method EraseByValue(value: int)
      requires Valid() && value in valueTree && Find(valueTree, value) < |keyTree|
      modifies this
      ensures Valid() && Contents() == EraseValue(old(Contents()), value)
    {
      var offset := Find(valueTree, value);
      RemoveAtDrops(keyTree, offset);
      RemoveAtDrops(valueTree, offset);
      keyTree := RemoveAt(keyTree, offset);
      valueTree := RemoveAt(valueTree, offset);
    }
  }
}
