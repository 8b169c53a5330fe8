/** Per-consumer ack and in-flight state (internal/broker/consumer.go, redelivery.go). */
module Consumer {
  import opened Bytes

  /** The part of a consumer that reaches offsets.json. */
  datatype Offsets = Offsets(hasAcked: bool, lastAcked: nat, above: set<nat>)

  const NEVER_ACKED := Offsets(false, 0, {})

  datatype Inflight = Inflight(payload: seq<byte>, deliveredAt: int, attempts: nat)

  /** wake is the buffered-1 channel: a token is in it or not. */
  datatype View = View(offs: Offsets, inflight: map<nat, Inflight>, window: nat, paused: bool, wake: bool, dirty: bool)

  // ---- Acks ----

  function Drain(last: nat, above: set<nat>): Offsets
    decreases |above|
  {
    if last + 1 in above then Drain(last + 1, above - {last + 1}) else Offsets(true, last, above)
  }

  function AckOffsets(o: Offsets, id: nat): Offsets {
    if (!o.hasAcked && id == 0) || (o.hasAcked && id == o.lastAcked + 1) then Drain(id, o.above)
    else if !o.hasAcked || id > o.lastAcked + 1 then o.(above := o.above + {id})
    else o
  }

  function AckAll(o: Offsets, ids: seq<nat>): Offsets {
    if ids == [] then o else AckOffsets(AckAll(o, ids[..|ids| - 1]), ids[|ids| - 1])
  }

  /** o is the canonical form of the acked set: its longest run from 0, and exactly the rest. */
  ghost predicate Canonical(o: Offsets, acked: set<nat>) {
    && (o.hasAcked <==> 0 in acked)
    && (!o.hasAcked ==> o.lastAcked == 0 && o.above == acked)
    && (o.hasAcked ==>
          && (forall n: nat :: n <= o.lastAcked ==> n in acked)
          && o.lastAcked + 1 !in acked
          && (forall n: nat :: n in o.above <==> n in acked && n > o.lastAcked))
  }

  lemma CanonicalUnique(o: Offsets, p: Offsets, acked: set<nat>)
    requires Canonical(o, acked) && Canonical(p, acked)
    ensures o == p
  {
    if o.hasAcked {
      assert o.lastAcked + 1 <= p.lastAcked ==> o.lastAcked + 1 in acked;
      assert p.lastAcked + 1 <= o.lastAcked ==> p.lastAcked + 1 in acked;
    }
    assert o.above == p.above;
  }

  lemma {:induction false} DrainCanonical(last: nat, above: set<nat>, acked: set<nat>)
    requires (forall n: nat :: n <= last ==> n in acked) && (forall n: nat :: n in above <==> n in acked && n > last)
    ensures Canonical(Drain(last, above), acked)
    decreases |above|
  {
    if last + 1 in above { DrainCanonical(last + 1, above - {last + 1}, acked); }
  }

  lemma AckCanonical(o: Offsets, acked: set<nat>, id: nat)
    requires Canonical(o, acked)
    ensures Canonical(AckOffsets(o, id), acked + {id})
  {
    if (!o.hasAcked && id == 0) || (o.hasAcked && id == o.lastAcked + 1) { DrainCanonical(id, o.above, acked + {id}); }
  }

  function Ids(ids: seq<nat>): set<nat> { set n | n in ids }

  lemma {:induction false} AcksCanonical(ids: seq<nat>)
    ensures Canonical(AckAll(NEVER_ACKED, ids), Ids(ids))
  {
    if ids != [] {
      var init, id := ids[..|ids| - 1], ids[|ids| - 1];
      AcksCanonical(init);
      AckCanonical(AckAll(NEVER_ACKED, init), Ids(init), id);
      assert ids == init + [id];
      assert Ids(ids) == Ids(init) + {id};
    }
  }

  /** The same acks in any order, with any repetitions, leave the same offsets. */
  lemma AckOrderIrrelevant(a: seq<nat>, b: seq<nat>)
    requires forall n :: n in a <==> n in b
    ensures AckAll(NEVER_ACKED, a) == AckAll(NEVER_ACKED, b)
  {
    assert Ids(a) == Ids(b);
    AcksCanonical(a);
    AcksCanonical(b);
    CanonicalUnique(AckAll(NEVER_ACKED, a), AckAll(NEVER_ACKED, b), Ids(a));
  }

  function Ack(c: View, id: nat): View {
    if id !in c.inflight then c
    else c.(offs := AckOffsets(c.offs, id), inflight := c.inflight - {id}, dirty := true, wake := true)
  }

  // ---- Nacks and visibility timeouts ----

  datatype Nacked = NotInflight | Redeliver(inf: Inflight) | Killed(inf: Inflight)

  predicate Dead(inf: Inflight, threshold: nat) { threshold > 0 && inf.attempts >= threshold }

  function NackResult(c: View, id: nat, threshold: nat, now: int): Nacked {
    if id !in c.inflight then NotInflight
    else if Dead(c.inflight[id], threshold) then Killed(c.inflight[id])
    else Redeliver(Retried(c.inflight[id], now))
  }

  function Retried(inf: Inflight, now: int): Inflight {
    inf.(attempts := inf.attempts + 1, deliveredAt := now)
  }

  function Nack(c: View, id: nat, threshold: nat, now: int): View {
    match NackResult(c, id, threshold, now)
    case NotInflight => c
    case Redeliver(inf) => c.(inflight := c.inflight[id := inf], dirty := true)
    case Killed(_) => c.(inflight := c.inflight - {id}, dirty := true, wake := true)
  }

  predicate Timed(inf: Inflight, timeout: int, now: int) { inf.deliveredAt + timeout < now }

  /** The entries a sweep at now dead-letters. */
  function DeadSet(m: map<nat, Inflight>, threshold: nat, timeout: int, now: int): set<nat> {
    set id | id in m && Timed(m[id], timeout, now) && Dead(m[id], threshold)
  }

  /** What it leaves: timed-out survivors with one more attempt, the others as they were. */
  function Swept(m: map<nat, Inflight>, threshold: nat, timeout: int, now: int): map<nat, Inflight> {
    map id | id in m && !(Timed(m[id], timeout, now) && Dead(m[id], threshold)) ::
      if Timed(m[id], timeout, now) then Retried(m[id], now) else m[id]
  }

  function Expire(c: View, subscribed: bool, threshold: nat, timeout: int, now: int): View {
    if !subscribed || c.paused then c else
    var anyDead := DeadSet(c.inflight, threshold, timeout, now) != {};
    c.(inflight := Swept(c.inflight, threshold, timeout, now), dirty := c.dirty || anyDead, wake := c.wake || anyDead)
  }

  /** What the sweep does to one entry. */
  function ExpireOne(c: View, id: nat, threshold: nat, timeout: int, now: int): View {
    if id !in c.inflight || !Timed(c.inflight[id], timeout, now) then c
    else if Dead(c.inflight[id], threshold) then c.(inflight := c.inflight - {id}, dirty := true, wake := true)
    else c.(inflight := c.inflight[id := Retried(c.inflight[id], now)])
  }

  function ExpireEach(c: View, ids: seq<nat>, threshold: nat, timeout: int, now: int): View {
    if ids == [] then c
    else
      var c' := ExpireEach(c, ids[..|ids| - 1], threshold, timeout, now);
      ExpireOne(c', ids[|ids| - 1], threshold, timeout, now)
  }

  predicate Distinct(ids: seq<nat>) { forall i, j :: 0 <= i < j < |ids| ==> ids[i] != ids[j] }

  lemma {:induction false} ExpireEachOn(c: View, ids: seq<nat>, threshold: nat, timeout: int, now: int)
    requires Distinct(ids) && (forall id :: id in ids ==> id in c.inflight)
    ensures var d := ExpireEach(c, ids, threshold, timeout, now);
            var some := DeadOn(c.inflight, Ids(ids), threshold, timeout, now) != map[];
            d == c.(inflight := KeptOn(c.inflight, Ids(ids), threshold, timeout, now),
                    dirty := c.dirty || some, wake := c.wake || some)
  {
    hide KeptOn, DeadOn, TasksOn, SweepOutput;
    if ids == [] {
      SweepEnds(c.inflight, threshold, timeout, now);
      assert Ids(ids) == {};
    } else {
      var init, id := ids[..|ids| - 1], ids[|ids| - 1];
      assert ids == init + [id];
      assert id in ids && id in c.inflight && id !in Ids(init);
      ExpireEachOn(c, init, threshold, timeout, now);
      assert Ids(ids) == Ids(init) + {id};
      SweepOne(c.inflight, Ids(init), id, threshold, timeout, now);
      assert id in DeadOn(c.inflight, Ids(init), threshold, timeout, now)[id := c.inflight[id]];
    }
  }

  /** The locked sweep is the expiry of its entries one after the other, in whatever order the map yields them. */
  lemma SweepIsOneByOne(c: View, ids: seq<nat>, threshold: nat, timeout: int, now: int)
    requires Distinct(ids) && Ids(ids) == c.inflight.Keys && !c.paused
    ensures ExpireEach(c, ids, threshold, timeout, now) == Expire(c, true, threshold, timeout, now)
  {
    assert forall id :: id in ids ==> id in Ids(ids);
    ExpireEachOn(c, ids, threshold, timeout, now);
    SweepEnds(c.inflight, threshold, timeout, now);
    assert DeadOn(c.inflight, c.inflight.Keys, threshold, timeout, now).Keys
        == DeadSet(c.inflight, threshold, timeout, now);
  }

  // ---- The object ----

  class ConsumerState {
    var hasAcked: bool
    var lastAcked: nat
    var aboveLast: set<nat>
    var inflight: map<nat, Inflight>
    var paused: bool
    var wake: bool
    var persistDirty: bool
    const window: nat

    ghost function Value(): View
      reads this
    {
      View(Offsets(hasAcked, lastAcked, aboveLast), inflight, window, paused, wake, persistDirty)
    }

    constructor (window: nat)
      ensures Value() == View(NEVER_ACKED, map[], window, false, false, false)
    {
      hasAcked, lastAcked, aboveLast := false, 0, {};
      inflight, paused, wake, persistDirty := map[], false, false, false;
      this.window := window;
    }

    method SignalWake()
      modifies this`wake
      ensures wake
    {
      if !wake { wake := true; }
    }

    method AckMessage(msgID: nat) returns (ok: bool)
      modifies this
      ensures ok <==> msgID in old(inflight)
      ensures Value() == Ack(old(Value()), msgID)
    {
      if msgID !in inflight {
        return false;
      }
      ghost var before := Offsets(hasAcked, lastAcked, aboveLast);
      inflight := inflight - {msgID};
      if (!hasAcked && msgID == 0) || (hasAcked && msgID == lastAcked + 1) {
        lastAcked := msgID;
        hasAcked := true;
        while lastAcked + 1 in aboveLast
          invariant hasAcked && AckOffsets(before, msgID) == Drain(lastAcked, aboveLast)
          invariant inflight == old(inflight) - {msgID} && paused == old(paused)
                    && wake == old(wake) && persistDirty == old(persistDirty)
          decreases |aboveLast|
        {
          var next := lastAcked + 1;
          aboveLast := aboveLast - {next};
          lastAcked := next;
        }
      } else if !hasAcked || msgID > lastAcked + 1 {
        aboveLast := aboveLast + {msgID};
      }
      persistDirty := true;
      SignalWake();
      ok := true;
    }

    method NackOrKill(msgID: nat, threshold: nat, now: int) returns (r: Nacked)
      modifies this
      ensures r == NackResult(old(Value()), msgID, threshold, now)
      ensures Value() == Nack(old(Value()), msgID, threshold, now)
    {
      if msgID !in inflight {
        return NotInflight;
      }
      var inf := inflight[msgID];
      persistDirty := true;
      if threshold > 0 && inf.attempts >= threshold {
        inflight := inflight - {msgID};
        SignalWake();
        return Killed(inf);
      }
      inf := inf.(attempts := inf.attempts + 1, deliveredAt := now);
      inflight := inflight[msgID := inf];
      r := Redeliver(inf);
    }

    method CollectExpired(subscribed: bool, threshold: nat, timeout: int, now: int)
        returns (tasks: map<nat, Inflight>, dead: map<nat, Inflight>)
      modifies this
      ensures Value() == Expire(old(Value()), subscribed, threshold, timeout, now)
      ensures !subscribed || old(paused) ==> tasks == dead == map[]
      ensures subscribed && !old(paused) ==> SweepOutput(old(inflight), inflight, tasks, dead, threshold, timeout, now)
    {
      tasks, dead := map[], map[];
      if !subscribed || paused || |inflight| == 0 {
        assert subscribed && !paused ==> inflight == map[];
        return;
      }
      inflight, tasks, dead := SweepInflight(inflight, threshold, timeout, now);
      if |dead| > 0 {
        persistDirty := true;
        SignalWake();
      }
      assert dead.Keys == {} <==> |dead| == 0;
    }
  }

  /** Every timed-out entry is either redelivered as it now stands or handed over dead as it was. */
  ghost predicate SweepOutput(m: map<nat, Inflight>, kept: map<nat, Inflight>,
                              tasks: map<nat, Inflight>, dead: map<nat, Inflight>,
                              threshold: nat, timeout: int, now: int) {
    && kept == Swept(m, threshold, timeout, now)
    && dead.Keys == DeadSet(m, threshold, timeout, now)
    && (forall id :: id in dead ==> dead[id] == m[id])
    && (forall id :: id in tasks <==> id in kept && Timed(m[id], timeout, now))
    && (forall id :: id in tasks ==> tasks[id] == kept[id])
  }

  function KeptOn(m: map<nat, Inflight>, done: set<nat>, threshold: nat, timeout: int, now: int): map<nat, Inflight> {
    map id | id in m && !(id in done && Timed(m[id], timeout, now) && Dead(m[id], threshold)) ::
      if id in done && Timed(m[id], timeout, now) then Retried(m[id], now) else m[id]
  }

  function TasksOn(m: map<nat, Inflight>, done: set<nat>, threshold: nat, timeout: int, now: int): map<nat, Inflight> {
    map id | id in m && id in done && Timed(m[id], timeout, now) && !Dead(m[id], threshold) :: Retried(m[id], now)
  }

  function DeadOn(m: map<nat, Inflight>, done: set<nat>, threshold: nat, timeout: int, now: int): map<nat, Inflight> {
    map id | id in m && id in done && Timed(m[id], timeout, now) && Dead(m[id], threshold) :: m[id]
  }

  lemma SweepOne(m: map<nat, Inflight>, done: set<nat>, id: nat, threshold: nat, timeout: int, now: int)
    requires id in m && id !in done
    ensures var done' := done + {id};
            var kept, dead := KeptOn(m, done, threshold, timeout, now), DeadOn(m, done, threshold, timeout, now);
            var tasks := TasksOn(m, done, threshold, timeout, now);
            && id in kept && kept[id] == m[id]
            && KeptOn(m, done', threshold, timeout, now) ==
               (if !Timed(m[id], timeout, now) then kept
                else if Dead(m[id], threshold) then kept - {id}
                else kept[id := Retried(m[id], now)])
            && TasksOn(m, done', threshold, timeout, now) ==
               (if Timed(m[id], timeout, now) && !Dead(m[id], threshold)
                then tasks[id := Retried(m[id], now)]
                else tasks)
            && DeadOn(m, done', threshold, timeout, now) ==
               (if Timed(m[id], timeout, now) && Dead(m[id], threshold) then dead[id := m[id]] else dead)
  {
  }

  lemma SweepEnds(m: map<nat, Inflight>, threshold: nat, timeout: int, now: int)
    ensures KeptOn(m, {}, threshold, timeout, now) == m
    ensures TasksOn(m, {}, threshold, timeout, now) == DeadOn(m, {}, threshold, timeout, now) == map[]
    ensures SweepOutput(m, KeptOn(m, m.Keys, threshold, timeout, now), TasksOn(m, m.Keys, threshold, timeout, now),
                        DeadOn(m, m.Keys, threshold, timeout, now), threshold, timeout, now)
  {
    assert KeptOn(m, m.Keys, threshold, timeout, now) == Swept(m, threshold, timeout, now);
  }

  /** The map may be walked in any order; what comes of it does not depend on which. */
  method SweepInflight(m: map<nat, Inflight>, threshold: nat, timeout: int, now: int)
    returns (kept: map<nat, Inflight>, tasks: map<nat, Inflight>, dead: map<nat, Inflight>)
    ensures SweepOutput(m, kept, tasks, dead, threshold, timeout, now)
  {
    hide KeptOn, TasksOn, DeadOn, SweepOutput;
    SweepEnds(m, threshold, timeout, now);
    kept, tasks, dead := m, map[], map[];
    var todo := m.Keys;
    ghost var done: set<nat> := {};
    while todo != {}
      invariant todo == m.Keys - done && done <= m.Keys
      invariant kept == KeptOn(m, done, threshold, timeout, now)
      invariant tasks == TasksOn(m, done, threshold, timeout, now)
      invariant dead == DeadOn(m, done, threshold, timeout, now)
      decreases |todo|
    {
      var id :| id in todo;
      SweepOne(m, done, id, threshold, timeout, now);
      var inf := kept[id];
      if inf.deliveredAt + timeout < now {
        if threshold > 0 && inf.attempts >= threshold {
          kept := kept - {id};
          dead := dead[id := inf];
        } else {
          inf := inf.(attempts := inf.attempts + 1, deliveredAt := now);
          kept := kept[id := inf];
          tasks := tasks[id := inf];
        }
      }
      todo, done := todo - {id}, done + {id};
    }
    assert done == m.Keys;
  }
}
