/** The bounded dedupe LRU (internal/broker/dedupe.go) and its rebuild from the log (partition.go:82-86, 119-156). */
module Dedupe {
  import opened Bytes

  type Key = seq<byte>

  datatype Entry = Entry(key: Key, msgID: nat)

  // ---- The recency list, most recent first ----

  /** Position of key in l, or |l|. */
  function Pos(l: seq<Entry>, key: Key): (i: nat)
    ensures i <= |l|
    ensures i < |l| ==> l[i].key == key
    ensures forall j :: 0 <= j < i ==> l[j].key != key
  {
    if l == [] then 0 else if l[0].key == key then 0 else 1 + Pos(l[1..], key)
  }

  predicate Has(l: seq<Entry>, key: Key) { Pos(l, key) < |l| }

  function RemoveAt<T>(s: seq<T>, i: nat): (r: seq<T>)
    requires i < |s|
    ensures |r| == |s| - 1
    ensures forall j :: 0 <= j < |r| ==> r[j] == s[if j < i then j else j + 1]
  {
    s[..i] + s[i + 1..]
  }

  function Without(l: seq<Entry>, key: Key): seq<Entry> {
    var i := Pos(l, key);
    if i < |l| then RemoveAt(l, i) else l
  }

  function Bump(l: seq<Entry>, key: Key): seq<Entry> {
    if Has(l, key) then [l[Pos(l, key)]] + Without(l, key) else l
  }

  function Put(l: seq<Entry>, cap: int, key: Key, msgID: nat): seq<Entry> {
    var l' := [Entry(key, msgID)] + Without(l, key);
    if !Has(l, key) && |l'| > cap then l'[..|l'| - 1] else l'
  }

  predicate DistinctKeys(l: seq<Entry>) { forall i, j :: 0 <= i < j < |l| ==> l[i].key != l[j].key }

  predicate Bounded(l: seq<Entry>, cap: int) { |l| <= if cap > 0 then cap else 0 }

  lemma PosUnique(l: seq<Entry>, key: Key, i: nat)
    requires DistinctKeys(l) && i < |l| && l[i].key == key
    ensures Pos(l, key) == i
  {
  }

  lemma BumpKeeps(l: seq<Entry>, key: Key, cap: int)
    requires DistinctKeys(l) && Bounded(l, cap)
    ensures DistinctKeys(Bump(l, key)) && Bounded(Bump(l, key), cap)
    ensures forall e :: e in Bump(l, key) <==> e in l
  {
    hide RemoveAt, Pos;
    var i, l' := Pos(l, key), Bump(l, key);
    forall e | e in l ensures e in l' {
      var j :| 0 <= j < |l| && l[j] == e;
      assert Has(l, key) ==> e == l'[if j == i then 0 else if j < i then j + 1 else j];
    }
  }

  lemma PutKeeps(l: seq<Entry>, cap: int, key: Key, msgID: nat)
    requires DistinctKeys(l) && Bounded(l, cap)
    ensures DistinctKeys(Put(l, cap, key, msgID)) && Bounded(Put(l, cap, key, msgID), cap)
    ensures forall e :: e in Put(l, cap, key, msgID) ==> e == Entry(key, msgID) || (e in l && e.key != key)
    ensures cap > 0 ==> Put(l, cap, key, msgID) != [] && Put(l, cap, key, msgID)[0] == Entry(key, msgID)
  {
    hide RemoveAt, Pos;
    var w := Without(l, key);
    assert forall e :: e in w ==> e in l;
    assert forall j :: 0 <= j < |w| ==> w[j].key != key;
  }

  // ---- The list and map it is made of ----

  class Element {
    var value: Entry
    constructor (e: Entry)
      ensures value == e
    {
      value := e;
    }
  }

  /** order holds the list nodes front first, l their values, and byKey finds the node of each key. */
  ghost predicate Linked(order: seq<Element>, byKey: map<Key, Element>, l: seq<Entry>) {
    && |order| == |l|
    && DistinctKeys(l)
    && (forall i :: 0 <= i < |l| ==> l[i].key in byKey && byKey[l[i].key] == order[i])
    && (forall k :: k in byKey ==> Has(l, k))
  }

  lemma LinkedAt(order: seq<Element>, byKey: map<Key, Element>, l: seq<Entry>, key: Key)
    requires Linked(order, byKey, l)
    ensures key in byKey <==> Has(l, key)
    ensures key in byKey ==> order[Pos(l, key)] == byKey[key]
  {
  }

  lemma LinkedDistinct(order: seq<Element>, byKey: map<Key, Element>, l: seq<Entry>)
    requires Linked(order, byKey, l)
    ensures |order| == |l| && DistinctKeys(l)
  {
  }

  lemma HasAt(l: seq<Entry>, i: nat)
    requires i < |l|
    ensures Has(l, l[i].key)
  {
  }

  function ToFront<T>(s: seq<T>, i: nat): (r: seq<T>)
    requires i < |s|
    ensures |r| == |s| && r[0] == s[i]
    ensures forall j :: 0 < j < |r| ==> r[j] == s[if j <= i then j - 1 else j]
  {
    [s[i]] + RemoveAt(s, i)
  }

  lemma BumpIsToFront(l: seq<Entry>, i: nat)
    requires DistinctKeys(l) && i < |l|
    ensures Bump(l, l[i].key) == ToFront(l, i)
  {
    hide Pos, RemoveAt;
    PosUnique(l, l[i].key, i);
  }

  lemma LinkedFront(order: seq<Element>, byKey: map<Key, Element>, l: seq<Entry>, i: nat)
    requires Linked(order, byKey, l) && i < |l|
    ensures Linked(ToFront(order, i), byKey, ToFront(l, i))
  {
    hide Pos, ToFront;
    var l' := ToFront(l, i);
    forall k | k in byKey ensures Has(l', k) {
      var p := Pos(l, k);
      HasAt(l', if p < i then p + 1 else if p == i then 0 else p);
    }
  }

  lemma LinkedPush(order: seq<Element>, byKey: map<Key, Element>, l: seq<Entry>, elem: Element, e: Entry)
    requires Linked(order, byKey, l) && !Has(l, e.key)
    ensures Linked([elem] + order, byKey[e.key := elem], [e] + l)
  {
    hide Pos;
    var l' := [e] + l;
    assert forall i :: 0 <= i < |l| ==> l[i].key != e.key;
    forall j | 0 <= j < |l'|
      ensures l'[j].key in byKey[e.key := elem] && byKey[e.key := elem][l'[j].key] == ([elem] + order)[j]
    {
      assert j > 0 ==> l'[j] == l[j - 1];
    }
    forall k | k in byKey[e.key := elem] ensures Has(l', k) {
      HasAt(l', if k == e.key then 0 else Pos(l, k) + 1);
    }
  }

  lemma LinkedDropLast(order: seq<Element>, byKey: map<Key, Element>, l: seq<Entry>)
    requires Linked(order, byKey, l) && l != []
    ensures Linked(order[..|order| - 1], byKey - {l[|l| - 1].key}, l[..|l| - 1])
  {
    var l' := l[..|l| - 1];
    forall k | k in byKey && k != l[|l| - 1].key ensures Has(l', k) {
      HasAt(l', Pos(l, k));
    }
  }

  class DedupeIndex {
    const cap: int
    var order: seq<Element>
    var byKey: map<Key, Element>

    ghost function Contents(): (l: seq<Entry>)
      reads this, order
      ensures |l| == |order|
      ensures forall i :: 0 <= i < |l| ==> l[i] == order[i].value
    {
      seq(|order|, i requires 0 <= i < |order| reads this, order => order[i].value)
    }

    ghost predicate Valid()
      reads this, order
    {
      Linked(order, byKey, Contents()) && Bounded(Contents(), cap)
    }

    constructor (capacity: int)
      ensures Valid() && cap == capacity && order == [] && Contents() == []
    {
      cap := capacity;
      order, byKey := [], map[];
    }

    method MoveToFront(elem: Element)
      requires Linked(order, byKey, Contents()) && elem in order
      modifies this`order
      ensures Linked(order, byKey, Contents()) && Contents() == Bump(old(Contents()), elem.value.key)
      ensures |order| == |old(order)| && forall e :: e in order ==> e in old(order)
    {
      hide Linked, ToFront;
      ghost var l := Contents();
      var i :| 0 <= i < |order| && order[i] == elem;
      assert DistinctKeys(l) by { LinkedDistinct(order, byKey, l); }
      LinkedFront(order, byKey, l, i);
      BumpIsToFront(l, i);
      order := ToFront(order, i);
      assert Contents() == ToFront(l, i);
    }

    method Lookup(key: Key) returns (msgID: nat, ok: bool)
      requires Valid()
      modifies this`order
      ensures Valid() && Contents() == Bump(old(Contents()), key)
      ensures ok <==> Has(old(Contents()), key)
      ensures ok ==> Entry(key, msgID) in old(Contents())
    {
      LinkedAt(order, byKey, Contents(), key);
      if key !in byKey {
        return 0, false;
      }
      var elem := byKey[key];
      MoveToFront(elem);
      return elem.value.msgID, true;
    }

    method Insert(key: Key, msgID: nat)
      requires Valid()
      modifies this, order
      ensures Valid() && (forall i :: 0 <= i < |order| ==> order[i] in old(order) || fresh(order[i]))
      ensures Contents() == Put(old(Contents()), cap, key, msgID)
    {
      hide Linked, Pos;
      ghost var l := Contents();
      LinkedAt(order, byKey, l, key);
      if key in byKey {
        Update(key, msgID);
        return;
      }
      var elem := new Element(Entry(key, msgID));
      LinkedPush(order, byKey, l, elem, Entry(key, msgID));
      order := [elem] + order;
      byKey := byKey[key := elem];
      assert Contents() == [Entry(key, msgID)] + l;
      if |order| > cap {
        RemoveOldest();
      }
    }

    /** The branch of Insert for a key already present. */
    method Update(key: Key, msgID: nat)
      requires Valid() && key in byKey && Has(Contents(), key)
      modifies this`order, order
      ensures Valid() && (forall e :: e in order ==> e in old(order))
      ensures Contents() == Put(old(Contents()), cap, key, msgID)
    {
      hide Linked, Pos, Bump, Put;
      ghost var l := Contents();
      LinkedDistinct(order, byKey, l);
      LinkedAt(order, byKey, l, key);
      ghost var i := Pos(l, key);
      var elem := byKey[key];
      elem.value := Entry(key, msgID);
      LinkedSet(order, byKey, l, i, msgID);
      SetThenBump(l, i, cap, msgID);
      assert Contents() == l[i := Entry(key, msgID)];
      MoveToFront(elem);
    }

    method RemoveOldest()
      requires Linked(order, byKey, Contents()) && order != []
      modifies this
      ensures Linked(order, byKey, Contents())
      ensures order == old(order)[..|old(order)| - 1] && Contents() == old(Contents())[..|old(order)| - 1]
    {
      LinkedDropLast(order, byKey, Contents());
      var oldest := order[|order| - 1];
      byKey := byKey - {oldest.value.key};
      order := order[..|order| - 1];
      assert Contents() == old(Contents())[..|order|];
    }
  }

  lemma LinkedSet(order: seq<Element>, byKey: map<Key, Element>, l: seq<Entry>, i: nat, msgID: nat)
    requires Linked(order, byKey, l) && i < |l|
    ensures Linked(order, byKey, l[i := Entry(l[i].key, msgID)])
  {
    hide Pos;
    var l' := l[i := Entry(l[i].key, msgID)];
    forall k | k in byKey ensures Has(l', k) {
      HasAt(l', Pos(l, k));
    }
  }

  lemma SetThenBump(l: seq<Entry>, i: nat, cap: int, msgID: nat)
    requires DistinctKeys(l) && i < |l|
    ensures Bump(l[i := Entry(l[i].key, msgID)], l[i].key) == Put(l, cap, l[i].key, msgID)
  {
    hide RemoveAt, Pos;
    PosUnique(l, l[i].key, i);
    PosUnique(l[i := Entry(l[i].key, msgID)], l[i].key, i);
  }

  // ---- A partition's index over its whole life ----

  /**
   * log[i] is the dedupe key of the record with MsgID i ([] when it has none), whether or not retention
   * has dropped it since; lru is the live index.
   */
  datatype Partition = Partition(log: seq<Key>, lru: seq<Entry>)

  datatype Step =
    | Publish(key: Key)
    | PublishFails(key: Key, written: bool)
    | Restart(keep: nat, floor: nat)

  predicate Hits(x: Partition, key: Key) { key != [] && Has(x.lru, key) }

  /** What the recovery visitor builds from the records floor.. of log. */
  function Rebuild(cap: int, log: seq<Key>, floor: nat): (l: seq<Entry>) {
    if |log| <= floor then []
    else
      var l := Rebuild(cap, log[..|log| - 1], floor);
      var key := log[|log| - 1];
      if key == [] then l else Put(l, cap, key, |log| - 1)
  }

  function Next(cap: int, x: Partition, step: Step): Partition {
    match step
    case Publish(key) =>
      if Hits(x, key) then x.(lru := Bump(x.lru, key))
      else Partition(x.log + [key], if key == [] then x.lru else Put(x.lru, cap, key, |x.log|))
    case PublishFails(key, written) =>
      if Hits(x, key) then x.(lru := Bump(x.lru, key))
      else if written then x.(log := x.log + [key])
      else x
    case Restart(keep, floor) =>
      var log := if keep < |x.log| then x.log[..keep] else x.log;
      Partition(log, Rebuild(cap, log, floor))
  }

  function Run(cap: int, x: Partition, steps: seq<Step>): Partition {
    if steps == [] then x else Next(cap, Run(cap, x, steps[..|steps| - 1]), steps[|steps| - 1])
  }

  /** The dedupe part of a publish; step says what the WAL append does. */
  method ApplyPublish(d: DedupeIndex, log: seq<Key>, step: Step)
    returns (log': seq<Key>, msgID: nat, duplicate: bool, ok: bool)
    requires d.Valid() && !step.Restart?
    modifies d, d.order
    ensures d.Valid()
    ensures Partition(log', d.Contents()) == Next(d.cap, Partition(log, old(d.Contents())), step)
    ensures duplicate <==> Hits(Partition(log, old(d.Contents())), step.key)
    ensures duplicate ==> ok && Entry(step.key, msgID) in old(d.Contents())
    ensures !duplicate ==> (ok <==> step.Publish?) && (ok ==> msgID == |log|)
  {
    var key := step.key;
    if key != [] {
      var existing, found := d.Lookup(key);
      if found {
        return log, existing, true, true;
      }
    }
    assert d.Contents() == old(d.Contents());
    if step.PublishFails? {
      return if step.written then log + [key] else log, 0, false, false;
    }
    if key != [] {
      d.Insert(key, |log|);
    }
    return log + [key], |log|, false, true;
  }

  /** The recovery visitor, one record. */
  method RebuildIndexes(d: DedupeIndex, key: Key, msgID: nat)
    requires d.Valid()
    modifies d, d.order
    ensures d.Valid() && (forall i :: 0 <= i < |d.order| ==> d.order[i] in old(d.order) || fresh(d.order[i]))
    ensures d.Contents() == if key == [] then old(d.Contents()) else Put(old(d.Contents()), d.cap, key, msgID)
  {
    if key != [] {
      d.Insert(key, msgID);
    }
  }

  /** Opening a partition: the visitor over the retained records. */
  method OpenPartition(cap: int, log: seq<Key>, floor: nat) returns (d: DedupeIndex)
    requires floor <= |log|
    ensures fresh(d) && d.Valid() && d.cap == cap && d.Contents() == Rebuild(cap, log, floor)
  {
    hide Put, Linked, Bounded;
    d := new DedupeIndex(cap);
    for i := floor to |log|
      invariant fresh(d) && (forall j :: 0 <= j < |d.order| ==> fresh(d.order[j])) && d.Valid() && d.cap == cap
      invariant d.Contents() == Rebuild(cap, log[..i], floor)
    {
      assert log[..i + 1][..i] == log[..i];
      RebuildIndexes(d, log[i], i);
    }
    assert log[..|log|] == log;
  }

  /** msgID is the last record of log carrying key. */
  predicate Latest(log: seq<Key>, key: Key, msgID: nat) {
    key != [] && msgID < |log| && log[msgID] == key && forall j :: msgID < j < |log| ==> log[j] != key
  }

  predicate Inv(cap: int, x: Partition) {
    && DistinctKeys(x.lru)
    && Bounded(x.lru, cap)
    && forall e :: e in x.lru ==> Latest(x.log, e.key, e.msgID)
  }

  lemma PutLatest(cap: int, log: seq<Key>, l: seq<Entry>, key: Key)
    requires Inv(cap, Partition(log, l)) && key != []
    ensures Inv(cap, Partition(log + [key], Put(l, cap, key, |log|)))
  {
    hide Put;
    PutKeeps(l, cap, key, |log|);
    var log' := log + [key];
    forall e | e in Put(l, cap, key, |log|) ensures Latest(log', e.key, e.msgID) {
      if e != Entry(key, |log|) {
        assert Latest(log, e.key, e.msgID);
      }
    }
  }

  lemma OtherKeyKeeps(cap: int, log: seq<Key>, l: seq<Entry>, key: Key)
    requires Inv(cap, Partition(log, l)) && (key == [] || !Has(l, key))
    ensures Inv(cap, Partition(log + [key], l))
  {
    forall e | e in l ensures Latest(log + [key], e.key, e.msgID) {
      assert Latest(log, e.key, e.msgID);
    }
  }

  lemma {:induction false} RebuildLatest(cap: int, log: seq<Key>, floor: nat)
    ensures Inv(cap, Partition(log, Rebuild(cap, log, floor)))
    ensures forall e :: e in Rebuild(cap, log, floor) ==> e.msgID >= floor
  {
    hide Put;
    if |log| > floor {
      var log0, key := log[..|log| - 1], log[|log| - 1];
      var l := Rebuild(cap, log0, floor);
      RebuildLatest(cap, log0, floor);
      assert log == log0 + [key];
      if key == [] {
        OtherKeyKeeps(cap, log0, l, key);
      } else {
        PutLatest(cap, log0, l, key);
        PutKeeps(l, cap, key, |log0|);
      }
    }
  }

  lemma StepKeeps(cap: int, x: Partition, step: Step)
    requires Inv(cap, x)
    ensures Inv(cap, Next(cap, x, step))
  {
    hide Put, Bump, Pos, Rebuild, DistinctKeys, Latest;
    match step
    case Publish(key) =>
      BumpKeeps(x.lru, key, cap);
      if key == [] {
        OtherKeyKeeps(cap, x.log, x.lru, key);
      } else {
        PutLatest(cap, x.log, x.lru, key);
      }
    case PublishFails(key, written) =>
      BumpKeeps(x.lru, key, cap);
      if !Hits(x, key) {
        OtherKeyKeeps(cap, x.log, x.lru, key);
      }
    case Restart(keep, floor) =>
      RebuildLatest(cap, if keep < |x.log| then x.log[..keep] else x.log, floor);
  }

  /**
   * In every run of publishes, failed publishes and restarts from any retained suffix of any surviving
   * prefix, every entry of the index names the latest logged record with its key.
   */
  lemma {:induction false} EntriesAreLatest(cap: int, steps: seq<Step>)
    ensures Inv(cap, Run(cap, Partition([], []), steps))
  {
    hide Next;
    if steps != [] {
      EntriesAreLatest(cap, steps[..|steps| - 1]);
      StepKeeps(cap, Run(cap, Partition([], []), steps[..|steps| - 1]), steps[|steps| - 1]);
    }
  }

  // ---- When the rebuilt index is the live one ----

  predicate Agrees(cap: int, x: Partition) { x.lru == Rebuild(cap, x.log, 0) }

  /** A step that keeps live and rebuilt index equal, order included. */
  predicate Harmless(cap: int, x: Partition, step: Step) {
    match step
    case Publish(key) => Hits(x, key) ==> x.lru[0].key == key
    case PublishFails(key, written) =>
      if Hits(x, key) then x.lru[0].key == key else written && cap > 0 ==> key == []
    case Restart(keep, floor) =>
      var log := if keep < |x.log| then x.log[..keep] else x.log;
      forall e :: e in Rebuild(cap, log, 0) ==> e.msgID >= floor
  }

  lemma BumpSameIff(l: seq<Entry>, key: Key)
    requires DistinctKeys(l) && Has(l, key)
    ensures Bump(l, key) == l <==> l[0].key == key
  {
    var i := Pos(l, key);
    BumpIsToFront(l, i);
    if l[0].key == key {
      PosUnique(l, key, 0);
    } else {
      assert Bump(l, key)[0] == l[i];
    }
  }

  lemma RebuildSnoc(cap: int, log: seq<Key>, key: Key)
    ensures Rebuild(cap, log + [key], 0) ==
      if key == [] then Rebuild(cap, log, 0) else Put(Rebuild(cap, log, 0), cap, key, |log|)
  {
    assert (log + [key])[..|log|] == log;
  }

  lemma PutChanges(cap: int, log: seq<Key>, l: seq<Entry>, key: Key)
    requires Inv(cap, Partition(log, l)) && key != []
    ensures Put(l, cap, key, |log|) == l <==> cap <= 0
  {
    PutKeeps(l, cap, key, |log|);
    if cap > 0 {
      assert Put(l, cap, key, |log|)[0] == Entry(key, |log|);
      assert l != [] ==> l[0] in l;
      assert l != [] ==> Latest(log, l[0].key, l[0].msgID);
    }
  }

  lemma WithoutAppend(a: seq<Entry>, b: seq<Entry>, key: Key)
    requires DistinctKeys(a + b)
    ensures Has(a + b, key) <==> Has(a, key) || Has(b, key)
    ensures Without(a + b, key) == if Has(a, key) then Without(a, key) + b else a + Without(b, key)
  {
    hide RemoveAt, Pos;
    var l := a + b;
    if Has(a, key) {
      var i := Pos(a, key);
      PosUnique(l, key, i);
      assert RemoveAt(l, i) == RemoveAt(a, i) + b;
    } else if Has(b, key) {
      var i := Pos(b, key);
      PosUnique(l, key, |a| + i);
      assert RemoveAt(l, |a| + i) == a + RemoveAt(b, i);
    } else {
      assert forall j :: 0 <= j < |l| ==> l[j].key != key;
    }
  }

  /** What is left of the old end b of a list once key has been put at its front. */
  function OldEnd(a: seq<Entry>, b: seq<Entry>, cap: int, key: Key): seq<Entry> {
    if Has(a, key) then b
    else if Has(b, key) then Without(b, key)
    else if b != [] && |a| + |b| + 1 > cap then b[..|b| - 1]
    else b
  }

  lemma OldEndOf(a: seq<Entry>, b: seq<Entry>, cap: int, key: Key)
    ensures forall e :: e in OldEnd(a, b, cap, key) ==> e in b
  {
    hide Pos, RemoveAt;
  }

  /** Put on a list and on its recent part a. */
  lemma PutSplit(a: seq<Entry>, b: seq<Entry>, cap: int, key: Key, msgID: nat)
    requires DistinctKeys(a + b) && Bounded(a + b, cap)
    ensures Put(a + b, cap, key, msgID) == Put(a, cap, key, msgID) + OldEnd(a, b, cap, key)
  {
    hide Pos, Without, DistinctKeys;
    WithoutAppend(a, b, key);
    var e, w := [Entry(key, msgID)], Without(a, key);
    if Has(a, key) {
      assert e + (w + b) == (e + w) + b;
    } else {
      WithoutMiss(a, key);
      assert e + (a + Without(b, key)) == (e + a) + Without(b, key);
      if !Has(b, key) {
        WithoutMiss(b, key);
      } else {
        WithoutHit(b, key);
      }
    }
  }

  lemma WithoutMiss(l: seq<Entry>, key: Key)
    requires !Has(l, key)
    ensures Without(l, key) == l
  {
  }

  lemma WithoutHit(l: seq<Entry>, key: Key)
    requires Has(l, key)
    ensures |Without(l, key)| == |l| - 1
  {
  }

  /** Retention only cuts the stale end off the rebuilt index. */
  lemma {:induction false} RebuildFromFloor(cap: int, log: seq<Key>, floor: nat)
    ensures Rebuild(cap, log, floor) <= Rebuild(cap, log, 0)
    ensures forall e :: e in Rebuild(cap, log, 0)[|Rebuild(cap, log, floor)|..] ==> e.msgID < floor
  {
    hide Put;
    if |log| <= floor {
      RebuildLatest(cap, log, 0);
      assert forall e :: e in Rebuild(cap, log, 0) ==> Latest(log, e.key, e.msgID);
    } else {
      var log0, key := log[..|log| - 1], log[|log| - 1];
      RebuildFromFloor(cap, log0, floor);
      RebuildLatest(cap, log0, 0);
      var a, l := Rebuild(cap, log0, floor), Rebuild(cap, log0, 0);
      if key != [] {
        assert l == a + l[|a|..];
        PutSplit(a, l[|a|..], cap, key, |log0|);
        OldEndOf(a, l[|a|..], cap, key);
      }
    }
  }

  lemma FloorAgreesIff(cap: int, log: seq<Key>, floor: nat)
    ensures Rebuild(cap, log, floor) == Rebuild(cap, log, 0)
      <==> forall e :: e in Rebuild(cap, log, 0) ==> e.msgID >= floor
  {
    hide Rebuild;
    RebuildFromFloor(cap, log, floor);
    RebuildLatest(cap, log, floor);
    var a, l := Rebuild(cap, log, floor), Rebuild(cap, log, 0);
    if |a| < |l| {
      assert l[|a|..][0] == l[|a|];
      assert l[|a|] in l;
    }
  }

  /** A step keeps the live index equal to the rebuilt one exactly when it is harmless. */
  lemma AgreesIff(cap: int, x: Partition, step: Step)
    requires Inv(cap, x) && Agrees(cap, x)
    ensures Agrees(cap, Next(cap, x, step)) <==> Harmless(cap, x, step)
  {
    hide Put, Bump, Pos, Rebuild, Latest;
    match step
    case Publish(key) =>
      RebuildSnoc(cap, x.log, key);
      if Hits(x, key) {
        BumpSameIff(x.lru, key);
      }
    case PublishFails(key, written) =>
      RebuildSnoc(cap, x.log, key);
      if Hits(x, key) {
        BumpSameIff(x.lru, key);
      } else if key != [] {
        PutChanges(cap, x.log, x.lru, key);
      }
    case Restart(keep, floor) =>
      FloorAgreesIff(cap, if keep < |x.log| then x.log[..keep] else x.log, floor);
  }

  predicate AllHarmless(cap: int, steps: seq<Step>) {
    forall i :: 0 <= i < |steps| ==> Harmless(cap, Run(cap, Partition([], []), steps[..i]), steps[i])
  }

  lemma {:induction false} HarmlessAgrees(cap: int, steps: seq<Step>)
    requires AllHarmless(cap, steps)
    ensures Agrees(cap, Run(cap, Partition([], []), steps))
  {
    hide Next, Harmless, Rebuild;
    if steps == [] {
      assert Rebuild(cap, [], 0) == [] by { RebuildLatest(cap, [], 0); NothingRebuilt(cap); }
    } else {
      var n := |steps| - 1;
      HarmlessPrefix(cap, steps, n);
      HarmlessAgrees(cap, steps[..n]);
      EntriesAreLatest(cap, steps[..n]);
      AgreesIff(cap, Run(cap, Partition([], []), steps[..n]), steps[n]);
    }
  }

  lemma HarmlessPrefix(cap: int, steps: seq<Step>, n: nat)
    requires AllHarmless(cap, steps) && n <= |steps|
    ensures AllHarmless(cap, steps[..n])
  {
    hide Run, Harmless;
    forall i | 0 <= i < n ensures Harmless(cap, Run(cap, Partition([], []), steps[..n][..i]), steps[..n][i]) {
      assert steps[..n][..i] == steps[..i];
    }
  }

  /** After each step recovery would rebuild the live index, order included. */
  predicate AgreesThroughout(cap: int, steps: seq<Step>) {
    forall k :: 0 <= k <= |steps| ==> Agrees(cap, Run(cap, Partition([], []), steps[..k]))
  }

  /** Recovery would rebuild the live index at every moment of a run if and only if all its steps are harmless. */
  lemma RebuiltIsLive(cap: int, steps: seq<Step>)
    ensures AgreesThroughout(cap, steps) <==> AllHarmless(cap, steps)
  {
    hide Run, Next, Harmless, Rebuild, Agrees;
    if AllHarmless(cap, steps) {
      forall k | 0 <= k <= |steps| ensures Agrees(cap, Run(cap, Partition([], []), steps[..k])) {
        HarmlessPrefix(cap, steps, k);
        HarmlessAgrees(cap, steps[..k]);
      }
    }
    if AgreesThroughout(cap, steps) {
      forall i | 0 <= i < |steps| ensures Harmless(cap, Run(cap, Partition([], []), steps[..i]), steps[i]) {
        EntriesAreLatest(cap, steps[..i]);
        AgreesIff(cap, Run(cap, Partition([], []), steps[..i]), steps[i]);
        RunSnoc(cap, Partition([], []), steps[..i], steps[i]);
        assert steps[..i] + [steps[i]] == steps[..i + 1];
      }
    }
  }

  lemma NothingRebuilt(cap: int)
    ensures Rebuild(cap, [], 0) == []
  {
  }

  // ---- What the rebuilt index holds ----

  /** The distinct dedupe keys logged after record i. */
  function KeysAfter(log: seq<Key>, i: nat): set<Key> {
    set j | i < j < |log| && log[j] != [] :: log[j]
  }

  function KeysOf(l: seq<Entry>): set<Key> {
    set j | 0 <= j < |l| :: l[j].key
  }

  lemma {:induction false} KeysOfSize(l: seq<Entry>)
    requires DistinctKeys(l)
    ensures |KeysOf(l)| == |l|
  {
    if l != [] {
      var n := |l| - 1;
      KeysOfSize(l[..n]);
      assert KeysOf(l) == KeysOf(l[..n]) + {l[n].key};
    }
  }

  predicate Descending(l: seq<Entry>) { forall i, j :: 0 <= i < j < |l| ==> l[i].msgID > l[j].msgID }

  /** Every logged key missing from l is older than all of a full l. */
  ghost predicate Complete(cap: int, log: seq<Key>, l: seq<Entry>) {
    forall key: Key, id: nat :: Latest(log, key, id) && !Has(l, key) ==> |l| >= cap && Newer(l, id)
  }

  predicate Newer(l: seq<Entry>, id: nat) { forall e :: e in l ==> e.msgID > id }

  lemma DescendingPut(cap: int, log: seq<Key>, l: seq<Entry>, key: Key)
    requires Inv(cap, Partition(log, l)) && Descending(l)
    ensures Descending(Put(l, cap, key, |log|))
  {
    hide RemoveAt, Pos;
    var w := Without(l, key);
    assert Descending(w);
    forall e | e in w ensures e.msgID < |log| {
      assert e in l;
      assert Latest(log, e.key, e.msgID);
    }
  }

  lemma LatestUnique(log: seq<Key>, key: Key, i: nat, j: nat)
    requires Latest(log, key, i) && Latest(log, key, j)
    ensures i == j
  {
  }

  lemma PutLength(l: seq<Entry>, cap: int, key: Key, msgID: nat)
    ensures |Put(l, cap, key, msgID)| >= |l|
  {
  }

  lemma PutKeepsOther(l: seq<Entry>, cap: int, key: Key, msgID: nat, p: nat)
    requires DistinctKeys(l) && p < |l| && l[p].key != key && (Has(l, key) || p < |l| - 1 || |l| < cap)
    ensures Has(Put(l, cap, key, msgID), l[p].key)
  {
    hide RemoveAt, Pos, DistinctKeys;
    var l' := Put(l, cap, key, msgID);
    var i := Pos(l, key);
    if i < |l| {
      var q := if p < i then p + 1 else p;
      assert l' == [Entry(key, msgID)] + RemoveAt(l, i);
      assert l'[q] == RemoveAt(l, i)[q - 1] == l[p];
      HasAt(l', q);
    } else {
      assert l' == [Entry(key, msgID)] + l || l' == ([Entry(key, msgID)] + l)[..|l|];
      assert l'[p + 1] == l[p];
      HasAt(l', p + 1);
    }
  }

  /** A key that Put pushes out was the last of a full list. */
  lemma PutEvicts(l: seq<Entry>, cap: int, key: Key, msgID: nat, p: nat)
    requires DistinctKeys(l) && p < |l| && l[p].key != key && !Has(Put(l, cap, key, msgID), l[p].key)
    ensures p == |l| - 1 && |l| >= cap && Put(l, cap, key, msgID) == [Entry(key, msgID)] + l[..p]
  {
    hide Pos;
    if Has(l, key) || p < |l| - 1 || |l| < cap {
      PutKeepsOther(l, cap, key, msgID, p);
    }
    assert ([Entry(key, msgID)] + l)[..|l|] == [Entry(key, msgID)] + l[..|l| - 1];
  }

  lemma CompletePutKey(cap: int, log: seq<Key>, l: seq<Entry>, key: Key, k: Key, id: nat)
    requires Inv(cap, Partition(log, l)) && Descending(l) && Complete(cap, log, l) && key != []
    requires Latest(log + [key], k, id) && !Has(Put(l, cap, key, |log|), k)
    ensures |Put(l, cap, key, |log|)| >= cap && Newer(Put(l, cap, key, |log|), id)
  {
    hide Put, Pos, Without;
    var log', l' := log + [key], Put(l, cap, key, |log|);
    PutKeeps(l, cap, key, |log|);
    PutLength(l, cap, key, |log|);
    if cap > 0 {
      HasAt(l', 0);
    }
    if k != key {
      assert Latest(log, k, id) by { assert forall j :: 0 <= j < |log| ==> log'[j] == log[j]; }
      if Has(l, k) {
        var p := Pos(l, k);
        assert l[p] in l;
        LatestUnique(log, k, id, l[p].msgID);
        PutEvicts(l, cap, key, |log|, p);
      }
    }
  }

  lemma CompletePut(cap: int, log: seq<Key>, l: seq<Entry>, key: Key)
    requires Inv(cap, Partition(log, l)) && Descending(l) && Complete(cap, log, l) && key != []
    ensures Complete(cap, log + [key], Put(l, cap, key, |log|))
  {
    hide Put, Pos, Without, Inv, Descending, Newer, Latest;
    var log', l' := log + [key], Put(l, cap, key, |log|);
    forall k: Key, id: nat | Latest(log', k, id) && !Has(l', k) ensures |l'| >= cap && Newer(l', id) {
      CompletePutKey(cap, log, l, key, k, id);
    }
  }

  lemma CompleteSkip(cap: int, log: seq<Key>, l: seq<Entry>)
    requires Complete(cap, log, l)
    ensures Complete(cap, log + [[]], l)
  {
    hide Pos;
    forall k: Key, id: nat | Latest(log + [[]], k, id) && !Has(l, k) ensures |l| >= cap && Newer(l, id) {
      assert Latest(log, k, id) by { assert forall j :: 0 <= j < |log| ==> (log + [[]])[j] == log[j]; }
    }
  }

  lemma {:induction false} RebuildComplete(cap: int, log: seq<Key>)
    ensures Descending(Rebuild(cap, log, 0)) && Complete(cap, log, Rebuild(cap, log, 0))
  {
    hide Put, Complete, Descending, Inv;
    if log == [] {
      assert Complete(cap, log, []) && Descending([]) by { EmptyComplete(cap); }
    } else {
      var log0, key := log[..|log| - 1], log[|log| - 1];
      RebuildComplete(cap, log0);
      RebuildLatest(cap, log0, 0);
      var l := Rebuild(cap, log0, 0);
      assert log == log0 + [key];
      if key == [] {
        CompleteSkip(cap, log0, l);
      } else {
        DescendingPut(cap, log0, l, key);
        CompletePut(cap, log0, l, key);
      }
    }
  }

  lemma EmptyComplete(cap: int)
    ensures Complete(cap, [], []) && Descending([])
  {
  }

  /** A list of latest records, newest first, names only keys logged after each of its entries' successors. */
  lemma NewerKeys(log: seq<Key>, l: seq<Entry>, i: nat)
    requires forall e :: e in l ==> Latest(log, e.key, e.msgID)
    requires Newer(l, i)
    ensures KeysOf(l) <= KeysAfter(log, i)
  {
    forall k | k in KeysOf(l) ensures k in KeysAfter(log, i) {
      var j :| 0 <= j < |l| && l[j].key == k;
      assert l[j] in l;
      assert log[l[j].msgID] == k;
    }
  }

  lemma {:induction false} LastLogged(log: seq<Key>, key: Key, i: nat) returns (id: nat)
    requires i < |log| && log[i] == key && key != []
    ensures Latest(log, key, id) && id >= i
    decreases |log| - i
  {
    if j :| i < j < |log| && log[j] == key {
      id := LastLogged(log, key, j);
    } else {
      id := i;
    }
  }

  /** The keys logged after an entry of the rebuilt index are exactly those listed before it. */
  lemma KeysBefore(cap: int, log: seq<Key>, p: nat)
    requires p < |Rebuild(cap, log, 0)|
    ensures KeysAfter(log, Rebuild(cap, log, 0)[p].msgID) == KeysOf(Rebuild(cap, log, 0)[..p])
  {
    hide Rebuild, Pos;
    var l := Rebuild(cap, log, 0);
    RebuildLatest(cap, log, 0);
    RebuildComplete(cap, log);
    NewerKeys(log, l[..p], l[p].msgID);
    forall k | k in KeysAfter(log, l[p].msgID) ensures k in KeysOf(l[..p]) {
      var j :| l[p].msgID < j < |log| && log[j] == k && k != [];
      var id := LastLogged(log, k, j);
      assert l[p] in l;
      assert !Has(l, k) ==> Newer(l, id);
      var q := Pos(l, k);
      assert l[q] in l;
      LatestUnique(log, k, id, l[q].msgID);
      assert q < p;
      assert l[..p][q].key == k;
    }
  }

  /**
   * What a restart remembers: the record id with a dedupe key is in the rebuilt index exactly when fewer
   * than cap distinct keys were logged after it, and its place in the list is their number.
   */
  lemma RebuiltHoldsIff(cap: int, log: seq<Key>, key: Key, id: nat)
    requires Latest(log, key, id)
    ensures Entry(key, id) in Rebuild(cap, log, 0) <==> |KeysAfter(log, id)| < cap
    ensures Entry(key, id) in Rebuild(cap, log, 0) ==> Pos(Rebuild(cap, log, 0), key) == |KeysAfter(log, id)|
  {
    hide Rebuild, Pos, KeysAfter, KeysOf;
    var l := Rebuild(cap, log, 0);
    RebuildLatest(cap, log, 0);
    if Has(l, key) {
      var p := Pos(l, key);
      assert l[p] in l;
      LatestUnique(log, key, id, l[p].msgID);
      KeysBefore(cap, log, p);
      KeysOfSize(l[..p]);
    } else {
      RebuildComplete(cap, log);
      NewerKeys(log, l, id);
      KeysOfSize(l);
      Subset(KeysOf(l), KeysAfter(log, id));
    }
  }

  lemma {:induction false} Subset(a: set<Key>, b: set<Key>)
    requires a <= b
    ensures |a| <= |b|
  {
    assert b == a + (b - a);
  }

  lemma PutNew(l: seq<Entry>, cap: int, key: Key, msgID: nat)
    requires forall e :: e in l ==> e.key != key
    ensures Put(l, cap, key, msgID) ==
      if |l| + 1 > cap then ([Entry(key, msgID)] + l)[..|l|] else [Entry(key, msgID)] + l
  {
    hide Pos;
    WithoutMiss(l, key);
  }

  /**
   * Recovery does not replay the recency bumps made by hits. With room for two keys, publishing a, b, a
   * (a duplicate) and c leaves the live index knowing a, but the index rebuilt after a restart has
   * forgotten a and remembers b instead: the next publish of a is logged again.
   */
  lemma RestartForgetsHit(a: Key, b: Key, c: Key)
    requires a != [] && b != [] && c != [] && a != b && b != c && a != c
    ensures var x := Run(2, Partition([], []), [Publish(a), Publish(b), Publish(a), Publish(c)]);
            var y := Next(2, x, Restart(|x.log|, 0));
            x.log == y.log == [a, b, c] && Hits(x, a) && !Hits(x, b) && Hits(y, b) && !Hits(y, a)
  {
    hide Next, Run, Pos, Rebuild;
    var x0 := Partition([], []);
    FourPublishes(a, b, c);
    assert Run(2, x0, []) == x0 by { RunNothing(2, x0); }
    var s1, s2, s3 := [Publish(a)], [Publish(a), Publish(b)], [Publish(a), Publish(b), Publish(a)];
    RunSnoc(2, x0, [], Publish(a));
    assert [] + [Publish(a)] == s1;
    RunSnoc(2, x0, s1, Publish(b));
    assert s1 + [Publish(b)] == s2;
    RunSnoc(2, x0, s2, Publish(a));
    assert s2 + [Publish(a)] == s3;
    RunSnoc(2, x0, s3, Publish(c));
    assert s3 + [Publish(c)] == [Publish(a), Publish(b), Publish(a), Publish(c)];
    RebuildThree(a, b, c);
    RestartAll(2, Partition([a, b, c], [Entry(c, 2), Entry(a, 0)]));
    HasAt([Entry(c, 2), Entry(a, 0)], 1);
    HasAt([Entry(c, 2), Entry(b, 1)], 1);
  }

  lemma RunNothing(cap: int, x: Partition)
    ensures Run(cap, x, []) == x
  {
  }

  lemma RunSnoc(cap: int, x: Partition, steps: seq<Step>, step: Step)
    ensures Run(cap, x, steps + [step]) == Next(cap, Run(cap, x, steps), step)
  {
    assert (steps + [step])[..|steps|] == steps;
  }

  lemma RestartAll(cap: int, x: Partition)
    ensures Next(cap, x, Restart(|x.log|, 0)) == Partition(x.log, Rebuild(cap, x.log, 0))
  {
  }

  lemma FourPublishes(a: Key, b: Key, c: Key)
    requires a != [] && b != [] && c != [] && a != b && b != c && a != c
    ensures Next(2, Partition([], []), Publish(a)) == Partition([a], [Entry(a, 0)])
    ensures Next(2, Partition([a], [Entry(a, 0)]), Publish(b)) == Partition([a, b], [Entry(b, 1), Entry(a, 0)])
    ensures Next(2, Partition([a, b], [Entry(b, 1), Entry(a, 0)]), Publish(a))
         == Partition([a, b], [Entry(a, 0), Entry(b, 1)])
    ensures Next(2, Partition([a, b], [Entry(a, 0), Entry(b, 1)]), Publish(c))
         == Partition([a, b, c], [Entry(c, 2), Entry(a, 0)])
  {
    hide Put, Bump, Pos;
    PutNew([], 2, a, 0);
    PutNew([Entry(a, 0)], 2, b, 1);
    BumpIsToFront([Entry(b, 1), Entry(a, 0)], 1);
    HasAt([Entry(b, 1), Entry(a, 0)], 1);
    PutNew([Entry(a, 0), Entry(b, 1)], 2, c, 2);
  }

  lemma RebuildThree(a: Key, b: Key, c: Key)
    requires a != [] && b != [] && c != [] && a != b && b != c && a != c
    ensures Rebuild(2, [a, b, c], 0) == [Entry(c, 2), Entry(b, 1)]
  {
    hide Put;
    assert Rebuild(2, [], 0) == [];
    assert [a][..0] == [] && [a, b][..1] == [a] && [a, b, c][..2] == [a, b];
    PutNew([], 2, a, 0);
    assert Rebuild(2, [a], 0) == [Entry(a, 0)];
    PutNew([Entry(a, 0)], 2, b, 1);
    assert Rebuild(2, [a, b], 0) == [Entry(b, 1), Entry(a, 0)];
    PutNew([Entry(b, 1), Entry(a, 0)], 2, c, 2);
  }
}
