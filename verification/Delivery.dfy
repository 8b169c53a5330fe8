/**
 * Delivery to one consumer of one partition: the receive window, wake-ups, subscription swaps,
 * redelivery and dead-lettering (internal/broker/partition.go:245-358, consumer.go, redelivery.go, dlq.go).
 */
module Delivery {
  import opened Bytes
  import opened Consumer

  /**
   * A delivery goroutine: waiting for its predecessor, before the credit check, parked on wake, reading,
   * sending, gone.
   */
  datatype Phase = Queued | Gate | Parked | Reading | Sending(id: nat) | Done

  /** from is where delivery started, cursor the next MsgID its reader returns, sent what it has delivered. */
  datatype Sub = Sub(phase: Phase, cancelled: bool, from: nat, cursor: nat, sent: set<nat>)

  datatype Kill = Kill(id: nat, payload: seq<byte>, failures: nat)

  datatype DlqAppend = DlqAppend(topic: seq<byte>, payload: seq<byte>)

  /**
   * signals counts SetPaused calls between their unlock and their signalWake. moving holds dead
   * messages not yet handed to dlqMove. acked, failures, kills and dlq are history: ids acked,
   * failed deliveries of each in-flight id, messages killed, and append attempts on <topic>.dlq.
   */
  datatype World = World(c: View, subs: seq<Sub>, signals: nat, moving: multiset<seq<byte>>,
                         acked: set<nat>, failures: map<nat, nat>, kills: seq<Kill>, dlq: seq<DlqAppend>)

  /** content is the payload of each record of the partition; dlqAfter is --dlq-after-nacks. */
  datatype Env = Env(topic: seq<byte>, dlqAfter: int, timeout: int, content: nat -> seq<byte>)

  /** What a delivery goroutine, or whoever cancels it, does next. */
  datatype Op = Cancel | Start(cursor: nat) | Abort | Check | Wake | Read(now: int) | Send | Rollback

  datatype Step =
    | Subscribe
    | Goroutine(k: nat, op: Op)
    | AckMsg(id: nat)
    | NackMsg(id: nat, now: int)
    | Timeout(id: nat, now: int)
    | Pause
    | Resume
    | Signal
    | DlqMove(payload: seq<byte>)

  /** ".dlq" */
  const SUFFIX: seq<byte> := [46, 100, 108, 113]

  predicate IsDlq(topic: seq<byte>) { |topic| >= 4 && topic[|topic| - 4..] == SUFFIX }

  function Threshold(env: Env): nat {
    if env.dlqAfter <= 0 || IsDlq(env.topic) then 0 else env.dlqAfter
  }

  predicate Open(c: View) { !c.paused && |c.inflight| < c.window }

  /** subscribe waits for the previous subscription to be done before it starts its goroutine. */
  predicate Turn(x: World, k: nat)
    requires k < |x.subs|
  {
    k == 0 || x.subs[k - 1].phase == Done
  }

  /** Abort is an out-of-range start, a reader error, or a cancelled context. */
  predicate Enabled(c: View, s: Sub, turn: bool, op: Op) {
    match op
    case Cancel => true
    case Start(_) => s.phase == Queued && turn
    case Abort =>
      || s.phase == Gate || s.phase == Reading
      || (s.phase == Parked && s.cancelled) || (s.phase == Queued && turn)
    case Check => s.phase == Gate
    case Wake => s.phase == Parked && c.wake
    case Read(_) => s.phase == Reading
    case Send => s.phase.Sending?
    case Rollback => s.phase.Sending? && s.cancelled
  }

  function OpSub(c: View, s: Sub, turn: bool, op: Op): Sub
    requires Enabled(c, s, turn, op)
  {
    match op
    case Cancel => s.(cancelled := true)
    case Start(cursor) => s.(phase := Gate, from := cursor, cursor := cursor)
    case Abort => s.(phase := Done)
    case Check => s.(phase := if Open(c) then Reading else Parked)
    case Wake => s.(phase := Gate)
    case Read(_) => s.(phase := Sending(s.cursor), cursor := s.cursor + 1)
    case Send => s.(phase := Gate, sent := s.sent + {s.phase.id})
    case Rollback => s.(phase := Done)
  }

  function OpView(env: Env, c: View, s: Sub, turn: bool, op: Op): View
    requires Enabled(c, s, turn, op)
  {
    match op
    case Wake => c.(wake := false)
    case Read(now) => c.(inflight := c.inflight[s.cursor := Inflight(env.content(s.cursor), now, 1)])
    case Rollback => c.(inflight := c.inflight - {s.phase.id})
    case _ => c
  }

  /** A failed delivery of id: one more failure, or the end of it. */
  function Failed(env: Env, x: World, id: nat, c: View): World {
    if id !in x.c.inflight then x else
    var n := (if id in x.failures then x.failures[id] else 0) + 1;
    if Dead(x.c.inflight[id], Threshold(env)) then
      var payload := x.c.inflight[id].payload;
      x.(c := c, failures := x.failures - {id},
         kills := x.kills + [Kill(id, payload, n)], moving := x.moving + multiset{payload})
    else x.(c := c, failures := x.failures[id := n])
  }

  function Next(env: Env, x: World, step: Step): World {
    match step
    case Subscribe => x.(subs := x.subs + [Sub(Queued, false, 0, 0, {})])
    case Goroutine(k, op) =>
      if k < |x.subs| && Enabled(x.c, x.subs[k], Turn(x, k), op) then
        x.(c := OpView(env, x.c, x.subs[k], Turn(x, k), op), subs := x.subs[k := OpSub(x.c, x.subs[k], Turn(x, k), op)],
           failures := if op.Read? then x.failures[x.subs[k].cursor := 0] else x.failures)
      else x
    case AckMsg(id) => if id in x.c.inflight then x.(c := Ack(x.c, id), acked := x.acked + {id}) else x
    case NackMsg(id, now) => Failed(env, x, id, Nack(x.c, id, Threshold(env), now))
    case Timeout(id, now) =>
      if x.subs == [] || x.c.paused || id !in x.c.inflight || !Timed(x.c.inflight[id], env.timeout, now) then x
      else Failed(env, x, id, ExpireOne(x.c, id, Threshold(env), env.timeout, now))
    case Pause => x.(c := x.c.(paused := true))
    case Resume => x.(c := x.c.(paused := false), signals := x.signals + 1)
    case Signal => if x.signals > 0 then x.(c := x.c.(wake := true), signals := x.signals - 1) else x
    case DlqMove(payload) =>
      if payload in x.moving
      then x.(moving := x.moving - multiset{payload}, dlq := x.dlq + [DlqAppend(env.topic + SUFFIX, payload)])
      else x
  }

  function Run(env: Env, x: World, steps: seq<Step>): World {
    if steps == [] then x else Next(env, Run(env, x, steps[..|steps| - 1]), steps[|steps| - 1])
  }

  /** A consumer whose offsets were loaded. */
  function Initial(window: nat, offs: Offsets): World {
    World(View(offs, map[], window, false, false, false), [], 0, multiset{}, {}, map[], [], [])
  }

  // ---- What every run keeps ----

  /** A subscription starts only after all earlier ones are gone, so at most one goroutine runs. */
  ghost predicate OneRunner(x: World) {
    forall j, k :: 0 <= j < k < |x.subs| && x.subs[k].phase != Queued ==> x.subs[j].phase == Done
  }

  /** The window bounds the in-flight set, with a slot to spare while a goroutine holds credit. */
  ghost predicate WindowOk(x: World) {
    && |x.c.inflight| <= x.c.window
    && (forall k :: 0 <= k < |x.subs| && x.subs[k].phase == Reading ==> |x.c.inflight| < x.c.window)
  }

  /** A parked goroutine whose gate is open has a wake-up waiting or on its way. */
  ghost predicate NoLostWakeup(x: World) {
    forall k :: 0 <= k < |x.subs| && x.subs[k].phase == Parked && Open(x.c) ==> x.c.wake || x.signals > 0
  }

  /**
   * Each in-flight entry has its record's payload and one attempt more than it has failures, never past
   * the threshold.
   */
  ghost predicate AttemptsOk(env: Env, x: World) {
    forall id :: id in x.c.inflight ==>
      && x.c.inflight[id].payload == env.content(id)
      && id in x.failures && x.c.inflight[id].attempts == 1 + x.failures[id]
      && (Threshold(env) > 0 ==> x.c.inflight[id].attempts <= Threshold(env))
  }

  function KillPayloads(ks: seq<Kill>): multiset<seq<byte>> {
    if ks == [] then multiset{} else KillPayloads(ks[..|ks| - 1]) + multiset{ks[|ks| - 1].payload}
  }

  function DlqPayloads(ds: seq<DlqAppend>): multiset<seq<byte>> {
    if ds == [] then multiset{} else DlqPayloads(ds[..|ds| - 1]) + multiset{ds[|ds| - 1].payload}
  }

  ghost predicate KillOk(env: Env, k: Kill) {
    Threshold(env) > 0 && k.failures == Threshold(env) && k.payload == env.content(k.id)
  }

  /** Kills happen on the threshold-th failure, and each one is moved or about to be moved exactly once. */
  ghost predicate KillsOk(env: Env, x: World) {
    && (forall i :: 0 <= i < |x.kills| ==> KillOk(env, x.kills[i]))
    && (forall i :: 0 <= i < |x.dlq| ==> x.dlq[i].topic == env.topic + SUFFIX)
    && KillPayloads(x.kills) == x.moving + DlqPayloads(x.dlq)
  }

  ghost predicate WasKilled(x: World, id: nat) { exists i :: 0 <= i < |x.kills| && x.kills[i].id == id }

  ghost predicate Accounted(x: World, id: nat) { id in x.c.inflight || id in x.acked || WasKilled(x, id) }

  predicate Running(s: Sub) { s.phase != Queued && s.phase != Done }

  /** A running subscription has delivered all from its start to its cursor, and that is in flight, acked, or dead. */
  ghost predicate SubOk(x: World, s: Sub) {
    && (s.phase == Queued ==> s.sent == {})
    && (Running(s) ==>
          && s.from <= s.cursor
          && forall id: nat :: s.from <= id < s.cursor ==> id in s.sent || s.phase == Sending(id))
    && (forall id :: id in s.sent ==> id < s.cursor)
    && (s.phase.Sending? ==> s.cursor == s.phase.id + 1 && s.phase.id !in s.sent && Accounted(x, s.phase.id))
    && (Running(s) ==> forall id :: id in s.sent ==> Accounted(x, id))
  }

  ghost predicate SentOk(x: World) {
    forall k :: 0 <= k < |x.subs| ==> SubOk(x, x.subs[k])
  }

  ghost predicate Inv(env: Env, x: World) {
    OneRunner(x) && WindowOk(x) && NoLostWakeup(x) && AttemptsOk(env, x) && KillsOk(env, x) && SentOk(x)
  }

  // ---- Steps ----

  lemma CardSubset(a: set<nat>, b: set<nat>)
    requires a <= b
    ensures |a| <= |b|
  {
    assert b == a + (b - a);
    assert |b| == |a| + |b - a|;
  }

  lemma RemoveCard(m: map<nat, Inflight>, id: nat)
    ensures |m - {id}| <= |m|
  {
    CardSubset((m - {id}).Keys, m.Keys);
  }

  lemma UpdateCard(m: map<nat, Inflight>, id: nat, inf: Inflight)
    ensures |m[id := inf]| <= |m| + 1
    ensures id in m ==> |m[id := inf]| == |m|
  {
    assert m[id := inf].Keys == m.Keys + {id};
    if id in m { assert m.Keys + {id} == m.Keys; }
  }

  /** A message step touches neither subscriptions nor signals, and never closes the gate or takes the token. */
  ghost predicate Quiet(x: World, y: World) {
    && y.subs == x.subs && y.signals == x.signals && y.c.window == x.c.window && y.c.paused == x.c.paused
    && |y.c.inflight| <= |x.c.inflight|
    && (x.c.wake ==> y.c.wake)
    && (Open(y.c) && !Open(x.c) ==> y.c.wake)
  }

  lemma MessageStepQuiet(env: Env, x: World, step: Step)
    requires step.AckMsg? || step.NackMsg? || step.Timeout?
    ensures Quiet(x, Next(env, x, step))
  {
    hide AckOffsets, Threshold, Failed, Nack, ExpireOne;
    RemoveCard(x.c.inflight, step.id);
    if step.NackMsg? {
      NackQuiet(env, x, step.id, step.now);
    } else if step.Timeout? {
      TimeoutQuiet(env, x, step.id, step.now);
    }
  }

  lemma NackQuiet(env: Env, x: World, id: nat, now: int)
    ensures Quiet(x, Failed(env, x, id, Nack(x.c, id, Threshold(env), now)))
  {
    hide Threshold;
    RemoveCard(x.c.inflight, id);
    if id in x.c.inflight { UpdateCard(x.c.inflight, id, Retried(x.c.inflight[id], now)); }
  }

  lemma TimeoutQuiet(env: Env, x: World, id: nat, now: int)
    ensures Quiet(x, Failed(env, x, id, ExpireOne(x.c, id, Threshold(env), env.timeout, now)))
  {
    hide Threshold;
    RemoveCard(x.c.inflight, id);
    if id in x.c.inflight { UpdateCard(x.c.inflight, id, Retried(x.c.inflight[id], now)); }
  }

  lemma OneRunnerKeeps(env: Env, x: World, step: Step)
    requires OneRunner(x)
    ensures OneRunner(Next(env, x, step))
  {
    hide Failed, Nack, Ack, ExpireOne, OpView, Quiet;
    if step.AckMsg? || step.NackMsg? || step.Timeout? {
      MessageStepQuiet(env, x, step);
      assert Next(env, x, step).subs == x.subs by { QuietSubs(x, Next(env, x, step)); }
    }
  }

  lemma QuietSubs(x: World, y: World)
    requires Quiet(x, y)
    ensures y.subs == x.subs
  {
  }

  lemma OpWindow(env: Env, x: World, k: nat, op: Op)
    requires OneRunner(x) && WindowOk(x)
    ensures WindowOk(Next(env, x, Goroutine(k, op)))
  {
    var y := Next(env, x, Goroutine(k, op));
    if k < |x.subs| {
      var s := x.subs[k];
      if op.Read? { UpdateCard(x.c.inflight, s.cursor, Inflight(env.content(s.cursor), op.now, 1)); }
      if op.Rollback? && s.phase.Sending? { RemoveCard(x.c.inflight, s.phase.id); }
      forall j | 0 <= j < |y.subs| && y.subs[j].phase == Reading ensures |y.c.inflight| < y.c.window {
        if j < k && op != Cancel && y != x { assert x.subs[k].phase == Queued; }
        if j > k { assert x.subs[j].phase != Queued; }
      }
    }
  }

  lemma WindowKeeps(env: Env, x: World, step: Step)
    requires OneRunner(x) && WindowOk(x)
    ensures WindowOk(Next(env, x, step))
  {
    hide Failed, Nack, Ack, ExpireOne, OpView, OpSub, Enabled;
    if step.AckMsg? || step.NackMsg? || step.Timeout? { MessageStepQuiet(env, x, step); }
    else if step.Goroutine? { OpWindow(env, x, step.k, step.op); }
  }

  lemma OpWakeup(env: Env, x: World, k: nat, op: Op)
    requires OneRunner(x) && NoLostWakeup(x)
    ensures NoLostWakeup(Next(env, x, Goroutine(k, op)))
  {
    var y := Next(env, x, Goroutine(k, op));
    forall j | 0 <= j < |y.subs| && y.subs[j].phase == Parked && Open(y.c) ensures y.c.wake || y.signals > 0 {
      if j < k < |x.subs| && op != Cancel && y != x { assert x.subs[k].phase == Queued; }
      if j > k { assert x.subs[j].phase != Queued; }
    }
  }

  lemma WakeKeeps(env: Env, x: World, step: Step)
    requires OneRunner(x) && NoLostWakeup(x)
    ensures NoLostWakeup(Next(env, x, step))
  {
    hide Failed, Nack, Ack, ExpireOne, OpView, OpSub, Enabled;
    if step.AckMsg? || step.NackMsg? || step.Timeout? { MessageStepQuiet(env, x, step); }
    else if step.Goroutine? { OpWakeup(env, x, step.k, step.op); }
  }

  lemma AttemptsKeeps(env: Env, x: World, step: Step)
    requires AttemptsOk(env, x)
    ensures AttemptsOk(env, Next(env, x, step))
  {
    hide Open, Failed, OpSub, AckOffsets;
    match step {
      case NackMsg(id, now) => AttemptsFailed(env, x, id, Nack(x.c, id, Threshold(env), now), now);
      case Timeout(id, now) =>
        if id in x.c.inflight && Timed(x.c.inflight[id], env.timeout, now) {
          AttemptsFailed(env, x, id, ExpireOne(x.c, id, Threshold(env), env.timeout, now), now);
        }
      case _ => {}
    }
  }

  lemma AttemptsFailed(env: Env, x: World, id: nat, c: View, now: int)
    requires AttemptsOk(env, x)
    requires id in x.c.inflight ==>
               c.inflight == (if Dead(x.c.inflight[id], Threshold(env)) then x.c.inflight - {id}
                              else x.c.inflight[id := Retried(x.c.inflight[id], now)])
    ensures AttemptsOk(env, Failed(env, x, id, c))
  {
  }

  lemma KillsFailed(env: Env, x: World, id: nat, c: View)
    requires AttemptsOk(env, x) && KillsOk(env, x)
    ensures KillsOk(env, Failed(env, x, id, c))
  {
    if id in x.c.inflight && Dead(x.c.inflight[id], Threshold(env)) {
      var kill := Kill(id, x.c.inflight[id].payload, x.failures[id] + 1);
      var ks := x.kills + [kill];
      assert KillOk(env, kill);
      assert ks[..|ks| - 1] == x.kills;
      assert Failed(env, x, id, c).kills == ks;
    }
  }

  lemma KillsKeeps(env: Env, x: World, step: Step)
    requires AttemptsOk(env, x) && KillsOk(env, x)
    ensures KillsOk(env, Next(env, x, step))
  {
    hide Failed, AttemptsOk, KillsOk, Nack, Ack, ExpireOne, Timed, OpView, OpSub, Enabled;
    match step {
      case NackMsg(id, now) => KillsFailed(env, x, id, Nack(x.c, id, Threshold(env), now));
      case Timeout(id, now) => KillsFailed(env, x, id, ExpireOne(x.c, id, Threshold(env), env.timeout, now));
      case DlqMove(payload) => DlqMoveKeeps(env, x, payload);
      case _ => KillsFrame(env, x, Next(env, x, step));
    }
  }

  lemma KillsFrame(env: Env, x: World, y: World)
    requires KillsOk(env, x) && y.kills == x.kills && y.dlq == x.dlq && y.moving == x.moving
    ensures KillsOk(env, y)
  {
  }

  lemma DlqSnoc(ds: seq<DlqAppend>, d: DlqAppend)
    ensures DlqPayloads(ds + [d]) == DlqPayloads(ds) + multiset{d.payload}
  {
    assert (ds + [d])[..|ds|] == ds;
  }

  lemma MovedOver<T>(moving: multiset<T>, done: multiset<T>, p: T)
    requires p in moving
    ensures (moving - multiset{p}) + (done + multiset{p}) == moving + done
  {
  }

  lemma DlqMoveKeeps(env: Env, x: World, payload: seq<byte>)
    requires KillsOk(env, x)
    ensures KillsOk(env, Next(env, x, DlqMove(payload)))
  {
    hide KillOk, KillPayloads, DlqPayloads, IsDlq;
    if payload in x.moving {
      DlqSnoc(x.dlq, DlqAppend(env.topic + SUFFIX, payload));
      MovedOver(x.moving, DlqPayloads(x.dlq), payload);
    }
  }

  ghost predicate RollsBack(x: World, step: Step, id: nat) {
    step.Goroutine? && step.op.Rollback? && step.k < |x.subs| && x.subs[step.k].phase == Sending(id)
  }

  lemma KilledKeeps(env: Env, x: World, step: Step, id: nat)
    requires WasKilled(x, id)
    ensures WasKilled(Next(env, x, step), id)
  {
    hide Nack, Ack, ExpireOne, Timed, OpView, OpSub, Enabled;
    var i :| 0 <= i < |x.kills| && x.kills[i].id == id;
    assert Next(env, x, step).kills[i].id == id;
  }

  lemma AccountedFailed(env: Env, x: World, i: nat, id: nat, c: View)
    requires id in x.c.inflight && i in x.c.inflight
    requires c.inflight.Keys
             == (if Dead(x.c.inflight[i], Threshold(env)) then x.c.inflight.Keys - {i} else x.c.inflight.Keys)
    ensures Accounted(Failed(env, x, i, c), id)
  {
    var y := Failed(env, x, i, c);
    if Dead(x.c.inflight[i], Threshold(env)) { assert y.kills[|x.kills|].id == i; }
  }

  /** Nothing in flight disappears without an ack, a kill, or the rollback of a send that never happened. */
  lemma AccountedKeeps(env: Env, x: World, step: Step, id: nat)
    requires Accounted(x, id) && !RollsBack(x, step, id)
    ensures Accounted(Next(env, x, step), id)
  {
    if WasKilled(x, id) {
      KilledKeeps(env, x, step, id);
    } else if id in x.c.inflight {
      match step {
        case NackMsg(i, now) =>
          if i in x.c.inflight {
            AccountedFailed(env, x, i, id, Nack(x.c, i, Threshold(env), now));
          }
        case Timeout(i, now) =>
          if i in x.c.inflight && Timed(x.c.inflight[i], env.timeout, now) {
            AccountedFailed(env, x, i, id, ExpireOne(x.c, i, Threshold(env), env.timeout, now));
          }
        case _ => {}
      }
    } else {
      AckedKeeps(env, x, step);
    }
  }

  lemma AckedKeeps(env: Env, x: World, step: Step)
    ensures x.acked <= Next(env, x, step).acked
  {
  }

  lemma OpSent(env: Env, x: World, k: nat, op: Op)
    requires OneRunner(x) && SentOk(x)
    ensures SentOk(Next(env, x, Goroutine(k, op)))
  {
    hide Accounted, OpView, Open;
    var y := Next(env, x, Goroutine(k, op));
    forall j | 0 <= j < |y.subs| ensures SubOk(y, y.subs[j]) {
      assert SubOk(x, x.subs[j]);
      forall id | Accounted(x, id) && !RollsBack(x, Goroutine(k, op), id) ensures Accounted(y, id) {
        AccountedKeeps(env, x, Goroutine(k, op), id);
      }
      if k < |x.subs| && y != x {
        if op.Read? { JustRead(env, x, k, op); }
        if j < k && op != Cancel { assert x.subs[k].phase != Queued ==> x.subs[j].phase == Done; }
        if j > k { assert x.subs[j].phase != Queued ==> x.subs[k].phase == Done; }
      }
    }
  }

  lemma SentKeeps(env: Env, x: World, step: Step)
    requires OneRunner(x) && SentOk(x)
    ensures SentOk(Next(env, x, step))
  {
    hide Accounted, Failed, Nack, Ack, ExpireOne, Timed, OpView, OpSub, Enabled;
    var y := Next(env, x, step);
    if step.Goroutine? {
      OpSent(env, x, step.k, step.op);
    } else {
      if step.AckMsg? || step.NackMsg? || step.Timeout? { MessageStepQuiet(env, x, step); }
      forall k | 0 <= k < |y.subs| ensures SubOk(y, y.subs[k]) {
        assert k < |x.subs| ==> SubOk(x, x.subs[k]) && y.subs[k] == x.subs[k];
        forall id | Accounted(x, id) ensures Accounted(y, id) { AccountedKeeps(env, x, step, id); }
      }
    }
  }

  lemma JustRead(env: Env, x: World, k: nat, op: Op)
    requires op.Read? && k < |x.subs| && x.subs[k].phase == Reading
    ensures Accounted(Next(env, x, Goroutine(k, op)), x.subs[k].cursor)
  {
  }

  lemma StepKeeps(env: Env, x: World, step: Step)
    requires Inv(env, x)
    ensures Inv(env, Next(env, x, step))
  {
    hide Next, OneRunner, WindowOk, NoLostWakeup, AttemptsOk, KillsOk, SentOk;
    OneRunnerKeeps(env, x, step);
    WindowKeeps(env, x, step);
    WakeKeeps(env, x, step);
    AttemptsKeeps(env, x, step);
    KillsKeeps(env, x, step);
    SentKeeps(env, x, step);
  }

  lemma {:induction false} RunKeeps(env: Env, window: nat, offs: Offsets, steps: seq<Step>)
    ensures Inv(env, Run(env, Initial(window, offs), steps))
  {
    hide Next;
    if steps != [] {
      hide Inv;
      RunKeeps(env, window, offs, steps[..|steps| - 1]);
      StepKeeps(env, Run(env, Initial(window, offs), steps[..|steps| - 1]), steps[|steps| - 1]);
    }
  }

  // ---- Theorems ----

  /**
   * In every reachable state, across any number of subscription swaps: one runner, the window holds, no
   * wake-up is lost.
   */
  lemma FlowControl(env: Env, window: nat, offs: Offsets, steps: seq<Step>)
    ensures var x := Run(env, Initial(window, offs), steps);
            && x.c.window == window && |x.c.inflight| <= window
            && (forall j, k :: 0 <= j < k < |x.subs| && x.subs[k].phase != Queued ==> x.subs[j].phase == Done)
            && (forall k :: 0 <= k < |x.subs| && x.subs[k].phase == Parked && Open(x.c) ==> x.c.wake || x.signals > 0)
  {
    RunKeeps(env, window, offs, steps);
    WindowFixed(env, window, offs, steps);
  }

  lemma WindowStays(env: Env, x: World, step: Step)
    ensures Next(env, x, step).c.window == x.c.window
  {
    hide AckOffsets, Threshold;
  }

  lemma {:induction false} WindowFixed(env: Env, window: nat, offs: Offsets, steps: seq<Step>)
    ensures Run(env, Initial(window, offs), steps).c.window == window
  {
    hide Next;
    if steps != [] {
      WindowFixed(env, window, offs, steps[..|steps| - 1]);
      WindowStays(env, Run(env, Initial(window, offs), steps[..|steps| - 1]), steps[|steps| - 1]);
    }
  }

  /** So a parked goroutine with an open gate gets through without any further help from the client. */
  lemma ParkedGetsThrough(env: Env, window: nat, offs: Offsets, steps: seq<Step>, k: nat)
    requires var x := Run(env, Initial(window, offs), steps); k < |x.subs| && x.subs[k].phase == Parked && Open(x.c)
    ensures var x := Run(env, Initial(window, offs), steps);
            var y := if x.c.wake then x else Next(env, x, Signal);
            Next(env, Next(env, y, Goroutine(k, Wake)), Goroutine(k, Check)).subs[k].phase == Reading
  {
    hide Run;
    FlowControl(env, window, offs, steps);
    var x := Run(env, Initial(window, offs), steps);
    var y := if x.c.wake then x else Next(env, x, Signal);
    assert y.c.wake && y.subs == x.subs && Open(y.c);
    var z := Next(env, y, Goroutine(k, Wake));
    assert z.subs[k].phase == Gate && Open(z.c);
  }

  /**
   * Dead-lettering over every run: attempts stay within the threshold, a message dies on exactly
   * the threshold-th failure, every death is one append attempt of the same payload on <topic>.dlq
   * made or still to be made, and a .dlq topic never dead-letters.
   */
  lemma DeadLettering(env: Env, window: nat, offs: Offsets, steps: seq<Step>)
    ensures var x := Run(env, Initial(window, offs), steps);
            && (forall id :: id in x.c.inflight ==>
                  && 1 <= x.c.inflight[id].attempts
                  && (Threshold(env) > 0 ==> x.c.inflight[id].attempts <= Threshold(env)))
            && (forall i :: 0 <= i < |x.kills| ==> KillOk(env, x.kills[i]))
            && KillPayloads(x.kills) == x.moving + DlqPayloads(x.dlq)
            && (forall i :: 0 <= i < |x.dlq| ==> x.dlq[i].topic == env.topic + SUFFIX)
            && (IsDlq(env.topic) ==> x.kills == [] && x.dlq == [])
  {
    hide Run;
    RunKeeps(env, window, offs, steps);
    var x := Run(env, Initial(window, offs), steps);
    if x.kills != [] {
      OnlyOthersKill(env, x.kills);
    }
    DlqCount(x.dlq);
  }

  lemma OnlyOthersKill(env: Env, kills: seq<Kill>)
    requires kills != [] && forall i :: 0 <= i < |kills| ==> KillOk(env, kills[i])
    ensures !IsDlq(env.topic)
  {
    assert KillOk(env, kills[0]);
  }

  lemma {:induction false} DlqCount(ds: seq<DlqAppend>)
    ensures |DlqPayloads(ds)| == |ds|
  {
    if ds != [] { DlqCount(ds[..|ds| - 1]); }
  }

  /**
   * Whatever the running subscription has delivered is in flight, acked or dead-lettered, and it has delivered
   * every id from its start to its cursor, but for the one it may be sending.
   */
  lemma NothingVanishes(env: Env, window: nat, offs: Offsets, steps: seq<Step>, k: nat, id: nat)
    requires var x := Run(env, Initial(window, offs), steps);
             k < |x.subs| && Running(x.subs[k]) && (id in x.subs[k].sent || x.subs[k].from <= id < x.subs[k].cursor)
    ensures var x := Run(env, Initial(window, offs), steps);
            && (id in x.c.inflight || id in x.acked || exists i :: 0 <= i < |x.kills| && x.kills[i].id == id)
            && (id in x.subs[k].sent || x.subs[k].phase == Sending(id))
  {
    hide Run;
    RunKeeps(env, window, offs, steps);
    var x := Run(env, Initial(window, offs), steps);
    assert SubOk(x, x.subs[k]);
    assert Accounted(x, id);
  }
}
