/** Exactly which raft logs a dedupe index of a given size replays right, whoever dies and when. */
module ReplayWindow {
  import opened Bytes
  import opened Codec
  import opened Wal
  import opened WalTheorems
  import opened WalSafety
  import WalShape
  import opened ReplaySpec
  import opened Shards
  import opened Replay
  import opened ReplayFailures
  import opened ReplayExact
  import opened ReplayKills
  import opened ReplayCap
  import Dedupe

  // ---- The condition ----

  /** A mark a restart can find: none, or the index of a record of the uninterrupted run. */
  ghost predicate Mark(default: int, log: RaftLog, h: nat) {
    h <= |log| && (h == 0 || h in Indexes(Spec(default, log, |log|)))
  }

  /** After a restart with mark h none of the first b commands logs a key again. */
  ghost predicate Enough(env: Env, log: RaftLog, h: nat, b: nat)
    requires h <= |log| && b <= |log|
  {
    Suffices(env, log, Spec(env.defaultPartitions, log, h), h, b)
  }

  /** The same for every mark. */
  ghost predicate NeverForgets(env: Env, log: RaftLog, b: nat)
    requires b <= |log|
  {
    forall h :: Mark(env.defaultPartitions, log, h) ==> Enough(env, log, h, b)
  }

  // ---- Runs without failures ----

  /** With kills in every sync mode, or with power losses in the fsyncing ones. */
  predicate Allowed(kills: bool, act: Act) { if kills then Unharmed(act) else act.Does? && Healthy(act.step) }

  ghost predicate AllAllowed(kills: bool, acts: seq<Act>) { forall i :: 0 <= i < |acts| ==> Allowed(kills, acts[i]) }

  ghost predicate InvSome(env: Env, kills: bool, log: RaftLog, y: World, n: nat) {
    if kills then InvAt(AsIfEnv(env), log, AsIfWorld(y), n) else env.cfg.mode != NoSync && InvAt(env, log, y, n)
  }

  lemma AllowedKeeps(env: Env, kills: bool, log: RaftLog, y: World, n: nat, act: Act) returns (n': nat)
    requires WithinCap(env, log) && InvSome(env, kills, log, y, n) && Allowed(kills, act)
    ensures InvSome(env, kills, log, ActNext(env, log, y, act), n')
  {
    hide WithinCap, InvAt, AsIfTopics, Replay.Next, KillAll, MidAppend, Appends, Healthy, Unharmed;
    if kills {
      n' := UnharmedKeeps(env, log, y, n, act);
    } else {
      n' := Replay.StepKeeps(env, log, y, n, act.step);
    }
  }

  lemma InvFacts(env: Env, kills: bool, log: RaftLog, y: World, n: nat)
    requires InvSome(env, kills, log, y, n)
    ensures Orderly(log, y) && y.cursor <= n <= |log| && y.hw <= n
    ensures !y.phase.Waiting? ==>
              && Reflects(env, log, View(y.topics), n)
              && (y.cursor < n ==> NoneAbove(View(y.topics), y.hw))
  {
    hide View, Orderly, Reflects, NoneAbove, AllOk, AllBlockedOk, Spec, Ensure, Writes, AsIfTopics;
    if kills {
      InvIsOrderly(AsIfEnv(env), log, AsIfWorld(y), n);
      OrderlyAsIf(log, y);
      ViewAsIf(y.topics);
      if !y.phase.Waiting? { ReflectsAsIf(env, log, View(y.topics), n); }
    } else {
      InvIsOrderly(env, log, y, n);
    }
  }

  lemma ReflectsTopics(env: Env, log: RaftLog, m: Logs, n: nat)
    requires n <= |log| && Reflects(env, log, m, n)
    ensures var full := Spec(env.defaultPartitions, log, |log|);
            forall t :: t in m ==> t in full && |m[t]| == |full[t]|
  {
    hide Spec, Ensure;
    var d := env.defaultPartitions;
    SpecTopicsOk(d, log, n);
    if n < |log| && log[n].Pub? { OpenTopics(d, log, n, Spec(d, log, n), n); }
  }

  /** The node and a roomy one beside it, which has the same logs. */
  ghost predicate Coupled(env: Env, kills: bool, log: RaftLog, x: World, y: World, n: nat) {
    && Same(x, y) && InvSome(Roomy(env, log), kills, log, y, n) && x.hw <= |log|
    && Tracks(env, log, Spec(env.defaultPartitions, log, x.hw), x)
    && Mark(env.defaultPartitions, log, x.hw)
  }

  lemma CoupledAnswers(env: Env, kills: bool, log: RaftLog, x: World, y: World, n: nat)
    requires Coupled(env, kills, log, x, y, n) && x.phase.Routed? && Routable(log, x)
    ensures Routable(log, y) && x.hw <= x.cursor < |log|
    ensures var m := Spec(env.defaultPartitions, log, x.hw);
            && (SameAnswer(log, x, y) || Forgets(env, log, m, x.hw, x.cursor))
            && (Forgets(env, log, m, x.hw, x.cursor) ==> Hit(log, y) && !Hit(log, x))
  {
    hide View, Spec, Fold, InvSome, Reflects, NoneAbove, Tracks, SameAnswer, Forgets, Hit, LogsOk, TopicsOk, Mark;
    hide Knows, Retained, Fits, Part;
    var d, i, t, p := env.defaultPartitions, x.cursor, log[x.cursor].topic, log[x.cursor].partition;
    var m := Spec(d, log, x.hw);
    InvFacts(Roomy(env, log), kills, log, y, n);
    SameTarget(log, x, y);
    SpecOk(d, log, x.hw);
    SpecTopicsOk(d, log, x.hw);
    FoldOfSpec(d, log, x.hw, i);
    PartAt(Roomy(env, log), log, View(y.topics), n, x.hw, i, t, p);
    ReflectsTopics(Roomy(env, log), log, View(y.topics), n);
    ViewAt(y.topics, t, p);
    Answers(env, log, m, x, y);
  }

  lemma CoupledPublish(env: Env, kills: bool, log: RaftLog, x: World, y: World, n: nat, b: nat)
    requires Coupled(env, kills, log, x, y, n) && b <= |log| && Enough(env, log, x.hw, b)
    requires x.phase.Routed? ==> x.cursor < b
    ensures x.phase.Routed? && Routable(log, x) ==> Routable(log, y) && SameAnswer(log, x, y)
    ensures Same(PublishStep(env, log, x, OK), PublishStep(Roomy(env, log), log, y, OK))
    ensures Tracks(env, log, Spec(env.defaultPartitions, log, x.hw), PublishStep(env, log, x, OK))
  {
    hide InvSome, Spec, Tracks, Forgets, Mark, Orderly, SameAnswer, PublishStep, Hit, Reflects, NoneAbove, View;
    InvFacts(Roomy(env, log), kills, log, y, n);
    SameTarget(log, x, y);
    if x.phase.Routed? && Routable(log, x) {
      CoupledAnswers(env, kills, log, x, y, n);
    }
    PublishSame(env, |log|, log, x, y, OK);
    TrackPublish(env, log, Spec(env.defaultPartitions, log, x.hw), x, y);
  }

  /** A step of a process that lives. */
  lemma LivesCoupled(env: Env, kills: bool, log: RaftLog, x: World, y: World, n: nat, step: Replay.Step, b: nat)
    requires Coupled(env, kills, log, x, y, n) && b <= |log| && Enough(env, log, x.hw, b)
    requires Alive(step) && (step.Publish? && x.phase.Routed? ==> x.cursor < b)
    ensures var x', y' := Replay.Next(env, log, x, step), Replay.Next(Roomy(env, log), log, y, step);
            Same(x', y') && x'.hw == x.hw && Tracks(env, log, Spec(env.defaultPartitions, log, x.hw), x')
  {
    hide InvSome, Spec, Tracks, Mark, BeginStep, PublishStep, FinishStep, CommitterStep, Reflects, View, NoneAbove;
    hide Enough, Knows, Retained, Fits;
    var m := Spec(env.defaultPartitions, log, x.hw);
    InvFacts(Roomy(env, log), kills, log, y, n);
    LivesMark(env, log, x, step);
    match step
    case Begin =>
      BeginSame(env, |log|, log, x, y);
      BaseTopics(env, log, x, y, n, kills);
      TrackBegin(env, log, m, x);
    case Publish(_) => CoupledPublish(env, kills, log, x, y, n, b);
    case Committer(t, p, st) =>
      CommitterSame(env, |log|, x, y, t, p, st);
      TrackCommitter(env, log, m, x, t, p, st);
    case Finish =>
      FinishSame(env, |log|, log, x, y);
      TrackFinish(env, log, m, x, y);
  }

  lemma LivesMark(env: Env, log: RaftLog, x: World, step: Replay.Step)
    requires !step.Crash? && !step.Dies?
    ensures Replay.Next(env, log, x, step).hw == x.hw
  {
    hide AppendStep, Open, Dedupe.Put, Dedupe.Pos, Dedupe.Bump, Encodable, MustRotate, Wal.Next;
  }

  /** The topics of the base exist. */
  lemma BaseTopics(env: Env, log: RaftLog, x: World, y: World, n: nat, kills: bool)
    requires Coupled(env, kills, log, x, y, n)
    ensures !x.phase.Waiting? ==> forall t :: t in Spec(env.defaultPartitions, log, x.hw) ==> t in x.topics
    ensures forall j :: 0 <= j < x.cursor ==> log[j].topic in x.topics
  {
    hide InvSome, Spec, Tracks, Mark, Reflects, View, NoneAbove, Knows, Retained, Fits;
    var d := env.defaultPartitions;
    InvFacts(Roomy(env, log), kills, log, y, n);
    if !x.phase.Waiting? {
      forall t | t in Spec(d, log, x.hw) ensures t in x.topics {
        SpecTopics(d, log, x.hw, t);
        var j :| 0 <= j < x.hw && log[j].topic == t;
        TopicThere(Roomy(env, log), log, View(y.topics), j, n);
      }
    }
  }

  // ---- Deaths ----

  /** Both restart over the same logs, the index rebuilt from them. */
  lemma RestartCoupled(env: Env, kills: bool, log: RaftLog, after: Topics, y: World, n: nat)
    requires Same(Restart(after), y) && InvSome(Roomy(env, log), kills, log, y, n)
    requires forall t, p :: t in after && 0 <= p < |after[t]| ==>
               after[t][p].lru == Dedupe.Rebuild(env.cap, Keys(Retained(after[t][p].log)), 0)
    ensures Coupled(env, kills, log, Restart(after), y, n)
  {
    hide View, Spec, InvSome, Reflects, MaxOf, Indexes, Retained, Dedupe.Rebuild, Knows, Fits, Part, Tracks;
    var d, x := env.defaultPartitions, Restart(after);
    InvFacts(Roomy(env, log), kills, log, y, n);
    SameLogsView(after, y.topics);
    ReflectsOk(Roomy(env, log), log, View(after), n);
    SpecGrows(d, log, n, |log|);
    GrowsIndexes(Spec(d, log, n), Spec(d, log, |log|));
    forall t, p | t in after && 0 <= p < |after[t]|
      ensures Retained(after[t][p].log) == Part(Spec(d, log, x.hw), t, p)
    {
      ViewAt(after, t, p);
      InPart(View(after), t, p);
      PartAt(Roomy(env, log), log, View(after), n, x.hw, x.hw, t, p);
    }
    TrackRestart(env, log, Spec(d, log, x.hw), after);
  }

  lemma InPart(m: Logs, t: Name, p: nat)
    requires t in m && p < |m[t]|
    ensures Part(m, t, p) == m[t][p]
  {
  }

  lemma CrashCoupled(env: Env, kills: bool, log: RaftLog, a: Topics, b: Topics, keep: Remains, n: nat)
    requires SameLogs(a, b) && Possible(a, keep) && Possible(b, keep)
    requires InvSome(Roomy(env, log), kills, log, Restart(RecoverAll(|log|, b, keep)), n)
    ensures Coupled(env, kills, log, Restart(RecoverAll(env.cap, a, keep)), Restart(RecoverAll(|log|, b, keep)), n)
  {
    hide View, MaxOf, Indexes, Retained, Dedupe.Rebuild, PowerLossStep, Survivable, Coupled, InvSome;
    var after := RecoverAll(env.cap, a, keep);
    RecoverSame(env.cap, |log|, a, b, keep);
    RestartSame(after, RecoverAll(|log|, b, keep));
    RestartCoupled(env, kills, log, after, Restart(RecoverAll(|log|, b, keep)), n);
  }

  lemma KillCoupled(env: Env, kills: bool, log: RaftLog, a: Topics, b: Topics, n: nat)
    requires SameLogs(a, b) && InvSome(Roomy(env, log), kills, log, Restart(KillAll(|log|, b)), n)
    ensures Coupled(env, kills, log, Restart(KillAll(env.cap, a)), Restart(KillAll(|log|, b)), n)
  {
    hide View, MaxOf, Indexes, Retained, Dedupe.Rebuild, KillStep, Coupled, InvSome;
    var after := KillAll(env.cap, a);
    KillSame(env.cap, |log|, a, b);
    RestartSame(after, KillAll(|log|, b));
    RestartCoupled(env, kills, log, after, Restart(KillAll(|log|, b)), n);
  }

  lemma StepCoupled(env: Env, kills: bool, log: RaftLog, x: World, y: World, n: nat, act: Act, b: nat)
    returns (y': World, n': nat)
    requires Coupled(env, kills, log, x, y, n) && Allowed(kills, act) && b <= |log| && Enough(env, log, x.hw, b)
    requires x.phase.Routed? && act != Does(Begin) ==> x.cursor < b
    ensures Coupled(env, kills, log, ActNext(env, log, x, act), y', n')
    ensures act.Does? && Alive(act.step) ==> y' == Replay.Next(Roomy(env, log), log, y, act.step)
  {
    hide InvSome, Spec, Tracks, Mark, Enough, Replay.Next, KillAll, MidAppend, Appends, RecoverAll, Possible;
    hide SameLogs, View, MaxOf, Indexes;
    var r := Roomy(env, log);
    RoomForAll(env, log);
    if act.Killed? {
      n' := AllowedKeeps(r, kills, log, y, n, act);
      y' := ActNext(r, log, y, act);
      KillCoupled(env, kills, log, x.topics, y.topics, n');
    } else if act.KilledIn? || act.step.Dies? {
      y', n' := DiesCoupled(env, kills, log, x, y, n, act, b);
    } else if act.step.Crash? {
      n' := AllowedKeeps(r, kills, log, y, n, act);
      y' := ActNext(r, log, y, act);
      CrashIs(env, log, x, act.step.keep);
      CrashIs(r, log, y, act.step.keep);
      RecoverSame(env.cap, |log|, x.topics, y.topics, act.step.keep);
      if Possible(x.topics, act.step.keep) {
        CrashCoupled(env, kills, log, x.topics, y.topics, act.step.keep, n');
      }
    } else {
      n' := AllowedKeeps(r, kills, log, y, n, act);
      y' := ActNext(r, log, y, act);
      LivesCoupled(env, kills, log, x, y, n, act.step, b);
    }
  }

  lemma CrashIs(env: Env, log: RaftLog, x: World, keep: Remains)
    ensures Replay.Next(env, log, x, Replay.Crash(keep))
         == if Possible(x.topics, keep) then Restart(RecoverAll(env.cap, x.topics, keep)) else x
  {
    hide Possible, RecoverAll, View, MaxOf, Indexes;
  }

  lemma DiesIs(env: Env, log: RaftLog, x: World, io: Io, keep: Remains)
    ensures Replay.Next(env, log, x, Dies(io, keep))
         == if Appends(log, x) && Possible(MidAppend(env, log, x, io), keep)
            then Restart(RecoverAll(env.cap, MidAppend(env, log, x, io), keep)) else x
  {
    hide Possible, RecoverAll, View, MaxOf, Indexes, Appends, MidAppend;
  }

  lemma AppendsIff(log: RaftLog, x: World)
    ensures Appends(log, x) <==> x.phase.Routed? && Routable(log, x) && !Hit(log, x)
  {
    hide Dedupe.Pos;
  }

  /** A death inside Append; where only the small index lets the publish through to it, the log refuses it. */
  lemma DiesCoupled(env: Env, kills: bool, log: RaftLog, x: World, y: World, n: nat, act: Act, b: nat)
    returns (y': World, n': nat)
    requires Coupled(env, kills, log, x, y, n) && Allowed(kills, act) && b <= |log| && Enough(env, log, x.hw, b)
    requires act.KilledIn? || (act.Does? && act.step.Dies?)
    requires x.phase.Routed? ==> x.cursor < b
    ensures Coupled(env, kills, log, ActNext(env, log, x, act), y', n')
  {
    hide InvSome, Spec, Tracks, Mark, Enough, Replay.Next, KillAll, MidAppend, Appends, RecoverAll, Possible;
    hide SameLogs, View, MaxOf, Indexes, Hit, PublishStep, Refused;
    var r, io := Roomy(env, log), if act.KilledIn? then act.io else act.step.io;
    RoomForAll(env, log);
    CoupledPublish(env, kills, log, x, y, n, b);
    SameTarget(log, x, y);
    AppendsIff(log, x);
    AppendsIff(log, y);
    var refused := Appends(log, x) && !Appends(log, y);
    var act' := if !refused then act else if act.KilledIn? then Killed else Does(Replay.Crash(act.step.keep));
    n' := AllowedKeeps(r, kills, log, y, n, act');
    y' := ActNext(r, log, y, act');
    var a, b' := x.topics, y.topics;
    if refused {
      MidRefused(env, log, x, io);
    } else if Appends(log, x) {
      MidSame(env, |log|, log, x, y, io);
      a, b' := MidAppend(env, log, x, io), MidAppend(r, log, y, io);
    }
    if Appends(log, x) {
      if act.KilledIn? {
        KillCoupled(env, kills, log, a, b', n');
      } else {
        DiesIs(env, log, x, io, act.step.keep);
        DiesIs(r, log, y, io, act.step.keep);
        CrashIs(r, log, y, act.step.keep);
        RecoverSame(env.cap, |log|, a, b', act.step.keep);
        if Possible(a, act.step.keep) { CrashCoupled(env, kills, log, a, b', act.step.keep, n'); }
      }
    } else if act.Does? {
      DiesIs(env, log, x, io, act.step.keep);
      DiesIs(r, log, y, io, act.step.keep);
    }
  }

  lemma StartCoupled(env: Env, kills: bool, log: RaftLog)
    requires kills || env.cfg.mode != NoSync
    ensures Coupled(env, kills, log, START, START, 0)
  {
    hide InvAt;
    var r := Roomy(env, log);
    Replay.StartOk(AsIfEnv(r), log);
    Replay.StartOk(r, log);
    InvAtAsIf(AsIfEnv(r), log, START, 0);
  }

  lemma {:induction false} CoupledRun(env: Env, kills: bool, log: RaftLog, acts: seq<Act>)
    returns (y: World, n: nat)
    requires kills || env.cfg.mode != NoSync
    requires AllAllowed(kills, acts) && NeverForgets(env, log, |log|)
    ensures Coupled(env, kills, log, ActRun(env, log, acts), y, n)
  {
    hide Coupled, ActNext, Allowed, Enough, Mark;
    if acts == [] {
      y, n := START, 0;
      StartCoupled(env, kills, log);
    } else {
      var x := ActRun(env, log, acts[..|acts| - 1]);
      y, n := CoupledRun(env, kills, log, acts[..|acts| - 1]);
      CoupledCursor(env, kills, log, x, y, n);
      assert Enough(env, log, x.hw, |log|);
      y, n := StepCoupled(env, kills, log, x, y, n, acts[|acts| - 1], |log|);
    }
  }

  lemma CoupledCursor(env: Env, kills: bool, log: RaftLog, x: World, y: World, n: nat)
    requires Coupled(env, kills, log, x, y, n)
    ensures (x.phase.Routed? ==> x.cursor < |log|) && x.hw <= |log| && Mark(env.defaultPartitions, log, x.hw)
  {
    hide InvSome, Spec, Tracks, Mark, Reflects, View, NoneAbove, Knows, Retained, Fits;
    InvFacts(Roomy(env, log), kills, log, y, n);
  }

  // ---- Never forgetting is enough ----

  /**
   * The logs are those of an uninterrupted run of a prefix of the raft log that covers everything applied, and of
   * all of it once it has been applied.
   */
  ghost predicate Exact(env: Env, log: RaftLog, x: World) {
    && (exists n :: x.cursor <= n <= |log| && Reflects(env, log, View(x.topics), n))
    && (x.phase.Ready? && x.cursor == |log| ==> View(x.topics) == Spec(env.defaultPartitions, log, |log|))
  }

  lemma CoupledExact(env: Env, kills: bool, log: RaftLog, x: World, y: World, n: nat)
    requires Coupled(env, kills, log, x, y, n)
    ensures Exact(env, log, x)
  {
    hide InvAt, View, Spec, Tracks, Mark, Reflects, AsIfTopics, SameLogs;
    var r := Roomy(env, log);
    SameLogsView(x.topics, y.topics);
    var k: nat;
    if kills {
      ViewAsIf(y.topics);
      k := InvAtReflects(AsIfEnv(r), log, AsIfWorld(y), n);
      ReflectsAsIf(r, log, View(y.topics), k);
    } else {
      k := InvAtReflects(r, log, y, n);
    }
    SameReflects(r, env, log, View(x.topics), k);
  }

  lemma SameReflects(a: Env, b: Env, log: RaftLog, m: Logs, n: nat)
    requires a.defaultPartitions == b.defaultPartitions && n <= |log| && Reflects(a, log, m, n)
    ensures Reflects(b, log, m, n)
  {
  }

  // ---- A run to any command ----

  lemma IdleAsIf(topics: Topics)
    ensures AllIdle(AsIfTopics(topics)) <==> AllIdle(topics)
  {
    hide WalShape.AllFsynced;
    var a: Topics := AsIfTopics(topics);
    forall t, p | t in topics && 0 <= p < |topics[t]| ensures a[t][p].log.flush == topics[t][p].log.flush {
    }
  }

  lemma IdleSame(a: Topics, b: Topics)
    requires SameLogs(a, b) && AllIdle(a)
    ensures AllIdle(b)
  {
  }

  lemma FlushEnds(env: Env, kills: bool, log: RaftLog, y: World, n: nat)
    requires InvSome(env, kills, log, y, n) && y.phase.Waiting? && AllIdle(y.topics) && env.cfg.mode == Batched
    ensures Routable(log, y)
    ensures var z := FinishStep(env, log, FlushTarget(env, log, y));
            z.phase.Ready? && z.cursor == y.cursor + 1 && AllIdle(z.topics)
  {
    hide InvAt, AllIdle, AllBlockedOk, FlushTarget, FinishStep, AsIfTopics, Routable;
    if kills {
      var e, a := AsIfEnv(env), AsIfWorld(y);
      WaitingParts(e, log, a, n);
      IdleAsIf(y.topics);
      FlushFinishes(e, log, a);
      RoutableAsIf(log, y);
      var z, z' := FlushTarget(env, log, y), FlushTarget(e, log, a);
      FlushTargetAsIf(env, log, y);
      FinishAsIf(env, log, z);
      FinishAsIf(e, log, z');
      IdleAsIf(FinishStep(env, log, z).topics);
      IdleAsIf(FinishStep(e, log, z').topics);
    } else {
      WaitingParts(env, log, y, n);
      FlushFinishes(env, log, y);
    }
  }

  lemma FlushBoth(env: Env, kills: bool, log: RaftLog, x: World, y: World, n: nat)
    requires Same(x, y) && InvSome(Roomy(env, log), kills, log, y, n)
    requires x.phase.Waiting? && AllIdle(x.topics) && env.cfg.mode == Batched
    ensures Routable(log, x)
    ensures var z := FinishStep(env, log, FlushTarget(env, log, x));
            z.phase.Ready? && z.cursor == x.cursor + 1 && AllIdle(z.topics)
  {
    hide InvSome, AllIdle, CommitterStep, FinishStep, SameLogs;
    var r, c := Roomy(env, log), |log|;
    IdleSame(x.topics, y.topics);
    FlushEnds(r, kills, log, y, n);
    assert Routable(log, x) by { SameTarget(log, y, x) by { SameSym(x, y); } }
    var t, p := log[x.cursor].topic, log[x.cursor].partition;
    CommitterSame(env, c, x, y, t, p, FlushSnap);
    var x1, y1 := CommitterStep(env, x, t, p, FlushSnap), CommitterStep(r, y, t, p, FlushSnap);
    CommitterSame(env, c, x1, y1, t, p, FlushSync(true));
    var x2, y2 := CommitterStep(env, x1, t, p, FlushSync(true)), CommitterStep(r, y1, t, p, FlushSync(true));
    CommitterSame(env, c, x2, y2, t, p, FlushPublish);
    FinishSame(env, c, log, FlushTarget(env, log, x), FlushTarget(r, log, y));
    var z, z' := FinishStep(env, log, FlushTarget(env, log, x)), FinishStep(r, log, FlushTarget(r, log, y));
    SameSym(z, z');
    IdleSame(z'.topics, z.topics);
  }

  lemma SameSym(x: World, y: World)
    requires Same(x, y)
    ensures Same(y, x)
  {
  }

  /** A node between commands in a run without failures, its committers idle. */
  ghost predicate At(env: Env, kills: bool, log: RaftLog, acts: seq<Act>, y: World, n: nat, h: nat, c: nat) {
    && AllAllowed(kills, acts)
    && var x := ActRun(env, log, acts);
       Coupled(env, kills, log, x, y, n) && x.phase.Ready? && x.hw == h && x.cursor == c && AllIdle(x.topics)
  }

  lemma Push(env: Env, kills: bool, log: RaftLog, acts: seq<Act>, y: World, n: nat, step: Replay.Step, b: nat)
    returns (y': World, n': nat)
    requires AllAllowed(kills, acts) && Coupled(env, kills, log, ActRun(env, log, acts), y, n) && Alive(step)
    requires b <= |log| && ActRun(env, log, acts).hw <= |log| && Enough(env, log, ActRun(env, log, acts).hw, b)
    requires ActRun(env, log, acts).phase.Routed? && step != Begin ==> ActRun(env, log, acts).cursor < b
    ensures AllAllowed(kills, acts + [Does(step)])
    ensures ActRun(env, log, acts + [Does(step)]) == Replay.Next(env, log, ActRun(env, log, acts), step)
    ensures Coupled(env, kills, log, ActRun(env, log, acts + [Does(step)]), y', n')
    ensures Replay.Next(env, log, ActRun(env, log, acts), step).hw == ActRun(env, log, acts).hw
  {
    hide ActRun, Coupled, Enough, Replay.Next;
    ActSnoc(env, log, acts, Does(step));
    LivesMark(env, log, ActRun(env, log, acts), step);
    y', n' := StepCoupled(env, kills, log, ActRun(env, log, acts), y, n, Does(step), b);
  }

  lemma StepIs(env: Env, log: RaftLog, x: World)
    ensures Replay.Next(env, log, x, Begin) == BeginStep(env, log, x)
    ensures Replay.Next(env, log, x, Publish(OK)) == PublishStep(env, log, x, OK)
    ensures Replay.Next(env, log, x, Finish) == FinishStep(env, log, x)
  {
  }

  /** One more command. */
  lemma Extend(env: Env, kills: bool, log: RaftLog, acts: seq<Act>, y: World, n: nat, h: nat, c: nat, b: nat)
    returns (acts': seq<Act>, y': World, n': nat)
    requires At(env, kills, log, acts, y, n, h, c) && c < b <= |log| && h <= |log| && Enough(env, log, h, b)
    ensures At(env, kills, log, acts', y', n', h, c + 1)
  {
    hide ActRun, Coupled, Enough, BeginStep, PublishStep, FinishStep, AllAllowed, AllIdle, Replay.Next;
    var x := ActRun(env, log, acts);
    y', n' := Push(env, kills, log, acts, y, n, Begin, b);
    acts' := acts + [Does(Begin)];
    StepIs(env, log, x);
    var x1 := BeginStep(env, log, x);
    BeginCursor(env, log, x);
    StepIs(env, log, x1);
    y', n' := Push(env, kills, log, acts', y', n', Publish(OK), b);
    acts' := acts' + [Does(Publish(OK))];
    PairAdvances(env, log, x);
    PairIdle(env, log, x);
    if ActRun(env, log, acts').phase.Waiting? {
      BeginNotWaiting(env, log, x);
      WaitsOnlyBatched(env, log, x1);
      acts', y', n' := Flush(env, kills, log, acts', y', n', b);
    }
  }

  lemma BeginCursor(env: Env, log: RaftLog, x: World)
    requires x.phase.Ready?
    ensures BeginStep(env, log, x).phase.Routed? ==> BeginStep(env, log, x).cursor == x.cursor
  {
    hide Open;
  }

  lemma Flush(env: Env, kills: bool, log: RaftLog, acts: seq<Act>, y: World, n: nat, b: nat)
    returns (acts': seq<Act>, y': World, n': nat)
    requires AllAllowed(kills, acts) && Coupled(env, kills, log, ActRun(env, log, acts), y, n)
    requires b <= |log| && ActRun(env, log, acts).hw <= |log| && Enough(env, log, ActRun(env, log, acts).hw, b)
    requires env.cfg.mode == Batched
    requires var x := ActRun(env, log, acts); x.phase.Waiting? && AllIdle(x.topics)
    ensures var x := ActRun(env, log, acts);
            At(env, kills, log, acts', y', n', x.hw, x.cursor + 1)
  {
    hide ActRun, Enough, AllAllowed, AllIdle, InvSome, Tracks, Mark, FinishStep;
    var x := ActRun(env, log, acts);
    FlushBoth(env, kills, log, x, y, n);
    var t, p := log[x.cursor].topic, log[x.cursor].partition;
    y', n' := Committed(env, kills, log, acts, y, n, t, p, FlushSnap, b);
    acts' := acts + [Does(Committer(t, p, FlushSnap))];
    y', n' := Committed(env, kills, log, acts', y', n', t, p, FlushSync(true), b);
    acts' := acts' + [Does(Committer(t, p, FlushSync(true)))];
    y', n' := Committed(env, kills, log, acts', y', n', t, p, FlushPublish, b);
    acts' := acts' + [Does(Committer(t, p, FlushPublish))];
    assert ActRun(env, log, acts') == FlushTarget(env, log, x);
    StepIs(env, log, FlushTarget(env, log, x));
    y', n' := Push(env, kills, log, acts', y', n', Finish, b);
    acts' := acts' + [Does(Finish)];
  }

  lemma Committed(env: Env, kills: bool, log: RaftLog, acts: seq<Act>, y: World, n: nat,
                  t: Name, p: nat, step: Wal.Step, b: nat)
    returns (y': World, n': nat)
    requires AllAllowed(kills, acts) && Coupled(env, kills, log, ActRun(env, log, acts), y, n)
    requires b <= |log| && ActRun(env, log, acts).hw <= |log| && Enough(env, log, ActRun(env, log, acts).hw, b)
    requires step.FlushSync? ==> step.ok
    requires ActRun(env, log, acts).phase.Waiting?
    ensures AllAllowed(kills, acts + [Does(Committer(t, p, step))])
    ensures var x, x' := ActRun(env, log, acts), ActRun(env, log, acts + [Does(Committer(t, p, step))]);
            && Coupled(env, kills, log, x', y', n')
            && x' == CommitterStep(env, x, t, p, step) && x'.phase == x.phase && x'.hw == x.hw
  {
    hide ActRun, Coupled, Enough, AllAllowed, Wal.Next;
    y', n' := Push(env, kills, log, acts, y, n, Committer(t, p, step), b);
  }

  lemma {:induction false} Reach(env: Env, kills: bool, log: RaftLog, acts: seq<Act>,
                                 y: World, n: nat, h: nat, c: nat, c': nat, b: nat)
    returns (acts': seq<Act>, y': World, n': nat)
    requires At(env, kills, log, acts, y, n, h, c) && c <= c' <= b <= |log| && h <= |log| && Enough(env, log, h, b)
    ensures At(env, kills, log, acts', y', n', h, c')
    decreases c' - c
  {
    hide At, Enough;
    acts', y', n' := acts, y, n;
    if c < c' {
      acts', y', n' := Extend(env, kills, log, acts, y, n, h, c, b);
      acts', y', n' := Reach(env, kills, log, acts', y', n', h, c + 1, c', b);
    }
  }

  // ---- A restart at any mark ----

  lemma SameSound(cfg: Config, a: Topics, b: Topics)
    requires SameLogs(a, b) && Sound(cfg, b)
    ensures Sound(cfg, a)
  {
    hide LogSound;
    forall t, p | t in a && 0 <= p < |a[t]| ensures LogSound(cfg, a[t][p].log) {
      assert LogSound(cfg, b[t][p].log);
    }
  }

  lemma LossRetains(s: State)
    requires Survivable(s, KeepAll(s))
    ensures Retained(PowerLossStep(s, KeepAll(s))) == Retained(s) && PowerLossStep(s, KeepAll(s)).flush == Idle
  {
    hide Retained, KillStep, Survivable, KeepAll, WalShape.AsIf, Reopen, CutAll;
    LossOfNothing(s);
    AlikeRetains(PowerLossStep(s, KeepAll(s)), KillStep(s));
    WalShape.KillRetains(s);
    assert PowerLossStep(s, KeepAll(s)).flush == Idle by { ReopenIdle(s); }
  }

  lemma ReopenIdle(s: State)
    ensures Survivable(s, KeepAll(s)) ==> PowerLossStep(s, KeepAll(s)).flush == Idle
    ensures KillStep(s).flush == Idle
  {
    hide KeepAll;
  }

  lemma KillView(cap: int, topics: Topics)
    ensures View(KillAll(cap, topics)) == View(topics) && AllIdle(KillAll(cap, topics))
  {
    hide Retained, KillStep, View;
    forall t, p | t in topics && 0 <= p < |topics[t]|
      ensures Retained(KillStep(topics[t][p].log)) == Retained(topics[t][p].log)
      ensures KillStep(topics[t][p].log).flush == Idle
    {
      WalShape.KillRetains(topics[t][p].log);
      ReopenIdle(topics[t][p].log);
    }
    SameView(topics, KillAll(cap, topics));
  }

  lemma LossView(cap: int, topics: Topics)
    requires AllSurvive(topics)
    ensures Possible(topics, KeepsAll(topics))
    ensures var after := RecoverAll(cap, topics, KeepsAll(topics)); View(after) == View(topics) && AllIdle(after)
  {
    hide Retained, View, Survivable, KeepAll, PowerLossStep;
    var keep := KeepsAll(topics);
    assert Possible(topics, keep);
    forall t, p | t in topics && 0 <= p < |topics[t]|
      ensures var s := PowerLossStep(topics[t][p].log, keep[t][p]);
              Retained(s) == Retained(topics[t][p].log) && s.flush == Idle
    {
      LossRetains(topics[t][p].log);
    }
    SameView(topics, RecoverAll(cap, topics, keep));
  }

  /** A death that loses nothing. */
  ghost function Death(kills: bool, x: World): Act {
    if kills then Killed else Does(Replay.Crash(KeepsAll(x.topics)))
  }

  lemma DeathIs(env: Env, kills: bool, log: RaftLog, x: World, y: World, n: nat)
    requires Coupled(env, kills, log, x, y, n)
    ensures Allowed(kills, Death(kills, x))
    ensures var z := ActNext(env, log, x, Death(kills, x));
            && z.phase.Ready? && z.cursor == 0 && AllIdle(z.topics)
            && View(z.topics) == View(x.topics) && z.hw == MaxOf(Indexes(View(x.topics)))
  {
    hide InvAt, Sound, View, Indexes, MaxOf, KillAll, RecoverAll, Possible, KeepsAll, AllSurvive, SameLogs, Tracks;
    hide Mark;
    hide AllIdle, AsIfTopics, Replay.Next;
    if kills {
      KillView(env.cap, x.topics);
    } else {
      InvAtSound(Roomy(env, log), log, y, n);
      SameSound(env.cfg, x.topics, y.topics);
      SoundSurvives(env.cfg, x.topics);
      LossView(env.cap, x.topics);
      CrashIs(env, log, x, KeepsAll(x.topics));
    }
  }

  /** At the mark the node has exactly the records up to it. */
  lemma MarkFound(env: Env, log: RaftLog, m: Logs, n: nat, h: nat)
    requires Mark(env.defaultPartitions, log, h) && 0 < h <= n <= |log| && Reflects(env, log, m, n)
    requires h < n ==> NoneAbove(m, 0)
    ensures MaxOf(Indexes(m)) == h
  {
    hide Spec, Indexes, MaxOf, LogsOk, Reflects;
    var d := env.defaultPartitions;
    ReflectsOk(env, log, m, n);
    SpecKeepsLow(d, log, h, |log|);
    assert h in Indexes(Spec(d, log, h));
    SpecGrows(d, log, h, n);
    GrowsIndexes(Spec(d, log, h), Spec(d, log, n));
    IndexesBounded(log, n, m);
  }

  /** A node without failures that restarted with mark h and has replayed i commands. */
  lemma ReachMark(env: Env, kills: bool, log: RaftLog, h: nat, i: nat) returns (acts: seq<Act>, y: World, n: nat)
    requires kills || env.cfg.mode != NoSync
    requires Mark(env.defaultPartitions, log, h) && h <= i <= |log|
    requires Enough(env, log, 0, h) && Enough(env, log, h, i)
    ensures At(env, kills, log, acts, y, n, h, i)
  {
    hide ActRun, ActNext, Enough, Coupled, Mark, View, MaxOf, Indexes, AllIdle;
    acts, y, n := [], START, 0;
    StartCoupled(env, kills, log);
    ActNothing(env, log);
    assert AllIdle(START.topics) by { NoneIdle(); }
    if h > 0 {
      acts, y, n := Reach(env, kills, log, acts, y, n, 0, 0, h, h);
      var x := ActRun(env, log, acts);
      MarkAt(env, kills, log, x, y, n, h);
      DeathIs(env, kills, log, x, y, n);
      CoupledCursor(env, kills, log, x, y, n);
      y, n := StepCoupled(env, kills, log, x, y, n, Death(kills, x), h);
      ActSnoc(env, log, acts, Death(kills, x));
      acts := acts + [Death(kills, x)];
    }
    acts, y, n := Reach(env, kills, log, acts, y, n, h, 0, i, i);
  }

  lemma MarkAt(env: Env, kills: bool, log: RaftLog, x: World, y: World, n: nat, h: nat)
    requires Coupled(env, kills, log, x, y, n) && Mark(env.defaultPartitions, log, h)
    requires x.phase.Ready? && x.hw == 0 < x.cursor == h
    ensures MaxOf(Indexes(View(x.topics))) == h
  {
    hide InvSome, View, Indexes, MaxOf, Mark, Tracks, Reflects, NoneAbove, SameLogs, Orderly;
    InvFacts(Roomy(env, log), kills, log, y, n);
    SameLogsView(x.topics, y.topics);
    MarkFound(Roomy(env, log), log, View(x.topics), n, h);
  }

  // ---- A forgotten key is logged again ----

  lemma AppendLogs(env: Env, kills: bool, log: RaftLog, y: World, n: nat)
    requires InvSome(env, kills, log, y, n) && y.phase.Routed? && Routable(log, y) && Fits(log[y.cursor])
    ensures var s := Target(log, y).log;
            var rec := Stamp(log[y.cursor], y.cursor + 1, 0);
            s.next < U64 && Retained(AppendStep(env.cfg, s, rec, OK)) == Retained(s) + [rec.(msgID := s.next)]
  {
    hide View, Spec, Ensure, Reflects, NoneAbove, Writes, LogSound, Retained, AppendStep, Fits, Knows, AsIfTopics;
    hide WalShape.AsIf, Orderly;
    var s, rec := Target(log, y).log, Stamp(log[y.cursor], y.cursor + 1, 0);
    var e, a := if kills then AsIfEnv(env) else env, if kills then AsIfWorld(y) else y;
    InvFacts(env, kills, log, y, n);
    NextOf(log, y);
    RoutableAsIf(log, y);
    ShardIn(e.cfg, a.topics, log[y.cursor].topic, log[y.cursor].partition);
    var u := Target(log, a).log;
    ShardParts(e.cfg, Target(log, a));
    LogDense(e.cfg, u);
    AsIfFields(s);
    WalShape.RetainedAsIf(s, {});
    FitsAny(log[y.cursor], y.cursor + 1, s.next);
    StampIs(log[y.cursor], y.cursor + 1, s.next);
    AppendWrites(e.cfg, u, rec);
    if kills {
      WalShape.AsIfAlike(s, {});
      WalShape.AppendAlike(env.cfg, s, u, rec, OK);
      AlikeRetains(AppendStep(env.cfg, s, rec, OK), AppendStep(e.cfg, u, rec, OK));
    }
  }

  lemma NextOf(log: RaftLog, y: World)
    requires Orderly(log, y) && Routable(log, y)
    ensures Target(log, y).log.next < U64
  {
  }

  lemma StampIs(e: Command, index: u64, id: u64)
    requires e.Pub?
    ensures Stamp(e, index, 0).(msgID := id) == Stamp(e, index, id)
  {
  }

  lemma MissLogs(env: Env, log: RaftLog, x: World)
    requires x.phase.Routed? && Routable(log, x) && !Hit(log, x) && Fits(log[x.cursor])
    requires var s, rec := Target(log, x).log, Stamp(log[x.cursor], x.cursor + 1, 0);
             s.next < U64 && Retained(AppendStep(env.cfg, s, rec, OK)) == Retained(s) + [rec.(msgID := s.next)]
    ensures x.cursor + 1 in Indexes(View(PublishStep(env, log, x, OK).topics))
  {
    hide PublishStep, AppendStep, Retained, Fits, View, Hit, Refused, Dedupe.Put;
    var e, sh := log[x.cursor], Target(log, x);
    var rec, s := Stamp(e, x.cursor + 1, 0), AppendStep(env.cfg, sh.log, Stamp(e, x.cursor + 1, 0), OK);
    PublishMiss(env, log, x, OK);
    RefusedFits(log, x);
    assert !AppendErrs(env.cfg, sh.log, rec, OK);
    var z := PublishStep(env, log, x, OK);
    assert z.topics[e.topic][e.partition].log == s;
    ViewAt(z.topics, e.topic, e.partition);
    IndexIn(View(z.topics), e.topic, e.partition, |Retained(sh.log)|);
  }

  /** The uninterrupted run does not log a key it knows. */
  lemma KnownNotLogged(default: int, log: RaftLog, i: nat, n: nat)
    requires i < |log| && n <= |log| && log[i].Pub?
    requires Known(Part(Spec(default, log, i), log[i].topic, log[i].partition), log[i].key)
    ensures i + 1 !in Indexes(Spec(default, log, n))
  {
    hide Spec, Indexes, LogsOk, Known, Grows;
    SpecOk(default, log, n);
    IndexesBounded(log, n, Spec(default, log, n));
    if n > i {
      var m := Spec(default, log, i);
      SpecOk(default, log, i);
      IndexesBounded(log, i, m);
      SpecStep(default, log, i);
      EnsureTwice(default, m, log[i].topic, 0);
      SpecKeepsLow(default, log, i + 1, n);
    }
  }

  lemma TooMany(env: Env, log: RaftLog, x: World, i: nat)
    requires i < |log| && log[i].Pub? && i + 1 in Indexes(View(x.topics))
    requires Known(Part(Spec(env.defaultPartitions, log, i), log[i].topic, log[i].partition), log[i].key)
    ensures !Exact(env, log, x)
  {
    hide View, Indexes, Spec, Known, Reflects, LogsOk, Grows;
    forall n | x.cursor <= n <= |log| && Reflects(env, log, View(x.topics), n) ensures false {
      ReflectsOk(env, log, View(x.topics), n);
      KnownNotLogged(env.defaultPartitions, log, i, n);
    }
  }

  lemma InTopics(env: Env, kills: bool, log: RaftLog, x: World, y: World, n: nat)
    requires Coupled(env, kills, log, x, y, n) && x.phase.Routed?
    requires x.cursor < |log| && Forgets(env, log, Spec(env.defaultPartitions, log, x.hw), x.hw, x.cursor)
    ensures Routable(log, x) && Fits(log[x.cursor])
    ensures Known(Part(Spec(env.defaultPartitions, log, x.cursor), log[x.cursor].topic, log[x.cursor].partition),
                  log[x.cursor].key)
  {
    hide InvSome, View, Spec, Fold, Mark, Tracks, Reflects, NoneAbove, SameLogs, Remembers, Fits, Uses, Knows, Retained;
    var r, d, i, e := Roomy(env, log), env.defaultPartitions, x.cursor, log[x.cursor];
    InvFacts(r, kills, log, y, n);
    SameLogsView(x.topics, y.topics);
    FoldOfSpec(d, log, x.hw, i);
    PartAt(r, log, View(y.topics), n, x.hw, i, e.topic, e.partition);
  }

  /** A run in which the first command a restart makes the node forget is logged again. */
  lemma ForgottenIsLogged(env: Env, kills: bool, log: RaftLog, h: nat, i: nat) returns (acts: seq<Act>)
    requires kills || env.cfg.mode != NoSync
    requires Mark(env.defaultPartitions, log, h) && h <= i < |log|
    requires Enough(env, log, 0, h) && Enough(env, log, h, i)
    requires Forgets(env, log, Spec(env.defaultPartitions, log, h), h, i)
    ensures AllAllowed(kills, acts)
    ensures var x := ActRun(env, log, acts); i + 1 in Indexes(View(x.topics)) && !Exact(env, log, x)
  {
    hide ActRun, Enough, Mark, View, Indexes, AllIdle, BeginStep, PublishStep, Forgets, Spec, Fits, AppendStep;
    hide InvSome, Tracks, SameLogs, Exact, Known, Hit, Retained, AllAllowed, Replay.Next;
    var y, n;
    acts, y, n := ReachMark(env, kills, log, h, i);
    var x := ActRun(env, log, acts);
    assert Coupled(env, kills, log, x, y, n);
    y, n := Push(env, kills, log, acts, y, n, Begin, i);
    acts := acts + [Does(Begin)];
    StepIs(env, log, x);
    var x1 := BeginStep(env, log, x);
    BeginRoutes(env, log, x) by { ForgetsPub(env, log, Spec(env.defaultPartitions, log, h), h, i); }
    InTopics(env, kills, log, x1, y, n);
    CoupledAnswers(env, kills, log, x1, y, n);
    AppendLogs(Roomy(env, log), kills, log, y, n);
    SameTarget(log, x1, y);
    MissLogs(env, log, x1);
    StepIs(env, log, x1);
    ActSnoc(env, log, acts, Does(Publish(OK)));
    AllowedSnoc(kills, acts, Does(Publish(OK)));
    acts := acts + [Does(Publish(OK))];
    TooMany(env, log, ActRun(env, log, acts), i);
  }

  lemma ForgetsPub(env: Env, log: RaftLog, m: Logs, h: nat, i: nat)
    requires i < |log| && Forgets(env, log, m, h, i)
    ensures log[i].Pub?
  {
  }

  lemma AllowedSnoc(kills: bool, acts: seq<Act>, act: Act)
    requires AllAllowed(kills, acts) && Allowed(kills, act)
    ensures AllAllowed(kills, acts + [act])
  {
  }

  lemma BeginRoutes(env: Env, log: RaftLog, x: World)
    requires x.phase.Ready? && x.hw <= x.cursor < |log| && log[x.cursor].Pub?
    ensures var y := BeginStep(env, log, x); y.phase.Routed? && y.cursor == x.cursor && y.hw == x.hw
  {
    hide Open;
  }

  // ---- Exactly when ----

  lemma {:induction false} FirstForgotten(env: Env, log: RaftLog, b: nat) returns (h: nat, i: nat)
    requires b <= |log| && !NeverForgets(env, log, b)
    ensures Mark(env.defaultPartitions, log, h) && h <= i < b && NeverForgets(env, log, i)
    ensures Forgets(env, log, Spec(env.defaultPartitions, log, h), h, i)
  {
    hide Indexes, Forgets, Spec;
    if b > 0 && !NeverForgets(env, log, b - 1) {
      h, i := FirstForgotten(env, log, b - 1);
    } else {
      h :| Mark(env.defaultPartitions, log, h) && !Enough(env, log, h, b);
      i :| h <= i < b && Forgets(env, log, Spec(env.defaultPartitions, log, h), h, i);
      assert b > 0;
      assert Enough(env, log, h, b - 1);
    }
  }

  lemma EnoughFrom(env: Env, log: RaftLog, h: nat, i: nat)
    requires Mark(env.defaultPartitions, log, h) && h <= i <= |log| && NeverForgets(env, log, i)
    ensures Enough(env, log, 0, h) && Enough(env, log, h, i)
  {
    hide Indexes, Forgets, Spec;
    assert Mark(env.defaultPartitions, log, 0);
    assert Enough(env, log, 0, i);
  }

  /**
   * At every moment of every run without failures the logs are right, whoever dies and when, if and only if each
   * publish that repeats a logged key finds it among the last cap keys used in its partition, whichever record the
   * node last restarted after. In every sync mode with kills, and in the fsyncing ones with power losses.
   */
  lemma ExactIff(env: Env, kills: bool, log: RaftLog)
    requires kills || env.cfg.mode != NoSync
    ensures (forall acts :: AllAllowed(kills, acts) ==> Exact(env, log, ActRun(env, log, acts)))
       <==> NeverForgets(env, log, |log|)
  {
    hide ActRun, Exact, NeverForgets, AllAllowed, Mark, Forgets, Coupled, View, Indexes, Spec;
    if NeverForgets(env, log, |log|) {
      forall acts | AllAllowed(kills, acts) ensures Exact(env, log, ActRun(env, log, acts)) {
        var y, n := CoupledRun(env, kills, log, acts);
        CoupledExact(env, kills, log, ActRun(env, log, acts), y, n);
      }
    } else {
      var h, i := FirstForgotten(env, log, |log|);
      EnoughFrom(env, log, h, i);
      var acts := ForgottenIsLogged(env, kills, log, h, i);
      assert AllAllowed(kills, acts) && !Exact(env, log, ActRun(env, log, acts));
    }
  }

  // ---- Room for all keys is enough ----

  lemma ApplyPart(default: int, m: Logs, e: Command, index: u64, t: Name, p: int)
    ensures var a, b := Part(m, t, p), Part(SpecApply(default, m, e, index), t, p);
            || b == a
            || (e.Pub? && e.topic == t && e.partition == p && Fits(e)
                && |b| == |a| + 1 && a <= b && b[|a|].key == e.key)
  {
    hide Encodable;
    PartEnsure(default, m, e.topic, if e.Create? then e.partitions else 0, t, p);
  }

  /** Every logged key has been used. */
  lemma {:induction false} KnownUsed(env: Env, log: RaftLog, m: Logs, hw: nat, t: Name, p: int, c: nat, key: Dedupe.Key)
    requires hw <= |log| && c <= |log| && TopicsOk(env.defaultPartitions, log, hw, m)
    requires Known(Part(Fold(env.defaultPartitions, log, m, hw, c), t, p), key)
    ensures key in Uses(env.cap, log, t, p, Part(m, t, p), hw, c)
    decreases c
  {
    hide Spec, SpecApply, Fold, Part, Fits, Remembers;
    var d := env.defaultPartitions;
    if c <= hw {
      FoldBelow(d, log, m, hw, c);
    } else {
      var f := Fold(d, log, m, hw, c - 1);
      FoldStep(d, log, m, hw, c - 1);
      ApplyPart(d, f, log[c - 1], c, t, p);
      var rs := Part(Fold(d, log, m, hw, c), t, p);
      var k :| 0 <= k < |rs| && rs[k].key == key;
      if k < |Part(f, t, p)| {
        KnownAt(Part(f, t, p), k);
        KnownUsed(env, log, m, hw, t, p, c - 1, key);
      }
    }
  }

  lemma {:induction false} UsesAreFor(cap: int, log: RaftLog, t: Name, p: nat, rs: seq<Record>,
                                      h: nat, c: nat, key: Dedupe.Key)
    requires c <= |log| && h <= |log| && PartitionOk(log, h, t, p, rs)
    requires key != [] && key in Uses(cap, log, t, p, rs, h, c)
    ensures key in KeysFor(log, t, p)
    decreases c
  {
    hide Remembers, Fits, PartitionOk;
    if c <= h {
      KeysAreFor(log, h, t, p, rs);
    } else if key in Uses(cap, log, t, p, rs, h, c - 1) {
      UsesAreFor(cap, log, t, p, rs, h, c - 1, key);
    } else {
      assert log[c - 1].key == key;
    }
  }

  lemma RoomRemembers(cap: int, v: seq<Dedupe.Key>, keys: set<Dedupe.Key>, key: Dedupe.Key)
    requires key in v && key != [] && |keys| <= cap && forall k :: k in v && k != [] ==> k in keys
    ensures Remembers(cap, v, key)
  {
    var i :| 0 <= i < |v| && v[i] == key;
    var id := Dedupe.LastLogged(v, key, i);
    var after := Dedupe.KeysAfter(v, id);
    assert after <= keys - {key};
    Dedupe.Subset(after, keys - {key});
  }

  lemma PartOk(log: RaftLog, n: nat, m: Logs, t: Name, p: nat)
    requires n <= |log| && LogsOk(log, n, m)
    ensures PartitionOk(log, n, t, p, Part(m, t, p))
  {
  }

  /** With at most cap distinct keys in each partition nothing is ever forgotten. */
  lemma RoomIsEnough(env: Env, log: RaftLog)
    requires WithinCap(env, log)
    ensures NeverForgets(env, log, |log|)
  {
    hide Spec, Fold, LogsOk, TopicsOk, Part, Uses, Remembers, Known, Fits, KeysFor, Indexes;
    var d := env.defaultPartitions;
    forall h: nat, i | Mark(d, log, h) && h <= i < |log| ensures !Forgets(env, log, Spec(d, log, h), h, i) {
      if Forgets(env, log, Spec(d, log, h), h, i) {
        var m, t, p, key := Spec(d, log, h), log[i].topic, log[i].partition, log[i].key;
        var v := Uses(env.cap, log, t, p, Part(m, t, p), h, i);
        SpecOk(d, log, h);
        SpecTopicsOk(d, log, h);
        KnownUsed(env, log, m, h, t, p, i, key);
        NotNegative(Fold(d, log, m, h, i), t, p, key);
        PartOk(log, h, m, t, p);
        forall k | k in v && k != [] ensures k in KeysFor(log, t, p) {
          UsesAreFor(env.cap, log, t, p, Part(m, t, p), h, i, k);
        }
        RoomRemembers(env.cap, v, KeysFor(log, t, p), key);
      }
    }
  }

  lemma NotNegative(m: Logs, t: Name, p: int, key: Dedupe.Key)
    requires Known(Part(m, t, p), key)
    ensures p >= 0 && key != []
  {
  }

  /** Two nodes that applied the same log hold the same records, whatever the sync mode, index and deaths of each. */
  lemma ReplicasAgree(env1: Env, env2: Env, kills1: bool, kills2: bool, log: RaftLog, acts1: seq<Act>, acts2: seq<Act>)
    requires env1.defaultPartitions == env2.defaultPartitions
    requires (kills1 || env1.cfg.mode != NoSync) && (kills2 || env2.cfg.mode != NoSync)
    requires NeverForgets(env1, log, |log|) && NeverForgets(env2, log, |log|)
    requires AllAllowed(kills1, acts1) && AllAllowed(kills2, acts2)
    requires var x := ActRun(env1, log, acts1); x.phase.Ready? && x.cursor == |log|
    requires var y := ActRun(env2, log, acts2); y.phase.Ready? && y.cursor == |log|
    ensures View(ActRun(env1, log, acts1).topics) == View(ActRun(env2, log, acts2).topics)
  {
    hide ActRun, NeverForgets, AllAllowed, View, Reflects, Spec;
    ExactIff(env1, kills1, log);
    ExactIff(env2, kills2, log);
    assert Exact(env1, log, ActRun(env1, log, acts1)) && Exact(env2, log, ActRun(env2, log, acts2));
  }
}
