/** What every interleaving of ConnectionAttempts keeps. */
module ConnectionRuns {
  import opened Wrappers
  import opened ConnectionAttempts

  // ----- the invariant

  predicate Begun(at: Attempt) { at.id.Some? }

  predicate Launched(stage: Stage) { stage.Starting? || stage.Over? }

  /** A number belongs to one attempt or to one stop. */
  predicate NumbersOk(w: World) {
    && (forall a | 0 <= a < |w.attempts| && Begun(w.attempts[a]) :: w.attempts[a].id.value <= w.generation)
    && (forall a, b | 0 <= a < b < |w.attempts| && Begun(w.attempts[a]) && Begun(w.attempts[b]) ::
          w.attempts[a].id != w.attempts[b].id)
    && (forall a, i | 0 <= a < |w.attempts| && Begun(w.attempts[a]) && 0 <= i < |w.calls| && w.calls[i].StopVpn? ::
          w.attempts[a].id.value != w.calls[i].generation)
    && (forall a | 0 <= a < |w.attempts| && !Begun(w.attempts[a]) :: w.attempts[a].stage.Prelude? || w.attempts[a].stage.Over?)
    && (forall a | 0 <= a < |w.attempts| && w.attempts[a].stage.Prelude? :: !Begun(w.attempts[a]))
  }

  predicate CallOk(w: World, c: Call) {
    match c
    case StrayStop => true
    case StopVpn(n) => n <= w.generation
    case StartVpn(id) => exists a :: 0 <= a < |w.attempts| && w.attempts[a].id == Some(id) && Launched(w.attempts[a].stage)
  }

  function Number(c: Call): nat { match c case StartVpn(id) => id case StopVpn(n) => n case StrayStop => 0 }

  predicate CallsOrdered(calls: seq<Call>) {
    forall i, j | 0 <= i < j < |calls| && !calls[i].StrayStop? && !calls[j].StrayStop? ::
      Number(calls[i]) <= Number(calls[j]) && (calls[j].StartVpn? ==> Number(calls[i]) < Number(calls[j]))
  }

  /** The flag says whether the newest stop is still running. */
  predicate StopsOk(w: World) {
    && (forall k | 0 <= k < |w.stops| :: w.stops[k].id <= w.lastStop)
    && (forall j, k | 0 <= j < k < |w.stops| :: w.stops[j].id < w.stops[k].id)
    && w.lastStop <= w.generation
    && (w.stopping <==> |w.stops| > 0 && !w.stops[|w.stops| - 1].ended)
    && (|w.stops| > 0 ==> w.stops[|w.stops| - 1].id == w.lastStop)
  }

  ghost predicate Inv(w: World) {
    && NumbersOk(w)
    && (forall c | c in w.calls :: CallOk(w, c))
    && CallsOrdered(w.calls)
    && StopsOk(w)
  }

  // ----- every step keeps it

  /** A launched attempt stays launched: what is known of a call survives a change of the attempts. */
  lemma CallsStay(w: World, next: World)
    requires forall c | c in w.calls :: CallOk(w, c)
    requires |w.attempts| <= |next.attempts| && w.generation <= next.generation
    requires forall a | 0 <= a < |w.attempts| && Begun(w.attempts[a]) ::
               next.attempts[a].id == w.attempts[a].id && (Launched(w.attempts[a].stage) ==> Launched(next.attempts[a].stage))
    ensures forall c | c in w.calls :: CallOk(next, c)
  {
    forall c | c in w.calls
      ensures CallOk(next, c)
    {
      if c.StartVpn? {
        var a :| 0 <= a < |w.attempts| && w.attempts[a].id == Some(c.id) && Launched(w.attempts[a].stage);
        assert Begun(w.attempts[a]);
        assert next.attempts[a].id == Some(c.id) && Launched(next.attempts[a].stage);
      }
    }
  }

  lemma StageKeeps(w: World, a: nat, stage: Stage)
    requires Inv(w) && a < |w.attempts| && !stage.Prelude? && (Launched(w.attempts[a].stage) ==> Launched(stage))
    requires Begun(w.attempts[a]) || stage.Over?
    ensures Inv(SetStage(w, a, stage))
  {
    hide CallOk, CallsOrdered, StopsOk;
    CallsStay(w, SetStage(w, a, stage));
    StopsStay(w, SetStage(w, a, stage));
  }

  lemma StopsStay(w: World, next: World)
    requires StopsOk(w) && next.stops == w.stops && next.stopping == w.stopping && next.lastStop == w.lastStop
    requires w.generation <= next.generation
    ensures StopsOk(next)
  {
  }

  /** Every numbered call so far is at most the generation, and a start is the number of an attempt. */
  lemma CallsBelow(w: World)
    requires Inv(w)
    ensures forall i | 0 <= i < |w.calls| :: Number(w.calls[i]) <= w.generation
  {
    forall i | 0 <= i < |w.calls|
      ensures Number(w.calls[i]) <= w.generation
    {
      assert w.calls[i] in w.calls && CallOk(w, w.calls[i]);
    }
  }

  lemma StopEngineKeeps(w: World)
    requires Inv(w)
    ensures Inv(StopEngine(w))
  {
    hide CallOk;
    CallsBelow(w);
    CallsStay(w, StopEngine(w));
    NewStopOk(w);
    assert StopEngine(w).calls[..|w.calls|] == w.calls;
  }

  lemma NewStopOk(w: World)
    ensures CallOk(StopEngine(w), StopVpn(w.generation + 1))
  {
  }

  lemma TapKeeps(w: World)
    requires Inv(w)
    ensures Inv(AddTap(w))
  {
    hide CallOk, CallsOrdered, StopsOk;
    CallsStay(w, AddTap(w));
    StopsStay(w, AddTap(w));
  }

  /** A prelude takes the next number. */
  lemma FreshNumberKeeps(w: World, a: nat, id: nat, next: World)
    requires Inv(w) && In(w, a, Prelude) && id == w.generation + 1 && next.generation == id && next.calls == w.calls
    requires |next.attempts| == |w.attempts| && next.attempts[a].id == Some(id) && !next.attempts[a].stage.Prelude?
    requires forall b | 0 <= b < |w.attempts| && b != a :: next.attempts[b] == w.attempts[b]
    requires next.stops == w.stops && next.stopping == w.stopping && next.lastStop == w.lastStop
    ensures Inv(next)
  {
    hide CallOk, CallsOrdered, StopsOk;
    CallsBelow(w);
    assert !Begun(w.attempts[a]);
    CallsStay(w, next);
    StopsStay(w, next);
  }

  lemma NumberKeeps(w: World, a: nat, connecting: bool)
    requires Inv(w) && In(w, a, Prelude)
    ensures Inv(TakeNumber(w, a, connecting))
  {
    hide Inv;
    var base := if connecting then StopEngine(w).(watchdog := None) else w;
    if connecting {
      StopEngineKeeps(w);
      SameInv(StopEngine(w), base);
    }
    FreshNumberKeeps(base, a, base.generation + 1, TakeNumber(w, a, connecting));
  }

  /** The timers, the identity and the permission play no part. */
  lemma SameInv(w: World, next: World)
    requires Inv(w) && next.attempts == w.attempts && next.calls == w.calls && next.generation >= w.generation
    requires next.stops == w.stops && next.stopping == w.stopping && next.lastStop == w.lastStop
    ensures Inv(next)
  {
    CallsStay(w, next);
  }

  lemma StartKeeps(w: World, a: nat, echelon: bool)
    requires Inv(w) && In(w, a, Measuring) && Newest(w, a)
    ensures Inv(StartTunnel(w, a, echelon))
  {
    hide StopsOk;
    var next := StartTunnel(w, a, echelon);
    CallsBelow(w);
    StageKeeps(w, a, Starting);
    assert next.attempts[a].id == Some(w.generation) && Launched(next.attempts[a].stage);
    assert CallOk(next, StartVpn(w.generation));
    CallsStay(w, next);
    StopsStay(w, next);
    forall i | 0 <= i < |w.calls| && !w.calls[i].StrayStop?
      ensures Number(w.calls[i]) < w.generation
    {
      assert w.calls[i] in w.calls && CallOk(w, w.calls[i]);
      assert w.calls[i].StopVpn? ==> w.attempts[a].id.value != w.calls[i].generation;
      if w.calls[i].StartVpn? {
        var b :| 0 <= b < |w.attempts| && w.attempts[b].id == Some(w.calls[i].id) && Launched(w.attempts[b].stage);
        assert b != a && Begun(w.attempts[b]) && Begun(w.attempts[a]);
        assert w.attempts[b].id != w.attempts[a].id;
      }
    }
    assert next.calls[..|w.calls|] == w.calls;
  }

  lemma AskStopKeeps(w: World)
    requires Inv(w)
    ensures Inv(AskStop(w))
  {
    hide CallOk, CallsOrdered, NumbersOk;
    StopEngineKeeps(w);
    CallsStayHere(StopEngine(w), AskStop(w));
  }

  lemma CallsStayHere(w: World, next: World)
    requires Inv(w) && next.attempts == w.attempts && next.calls == w.calls && next.generation == w.generation
    ensures NumbersOk(next) && (forall c | c in next.calls :: CallOk(next, c)) && CallsOrdered(next.calls)
  {
    CallsStay(w, next);
  }

  lemma EndStopKeeps(w: World, k: nat)
    requires Inv(w) && k < |w.stops|
    ensures Inv(EndStop(w, k))
  {
    hide CallOk, CallsOrdered, NumbersOk;
    CallsStayHere(w, EndStop(w, k));
  }

  lemma StrayKeeps(w: World)
    requires Inv(w)
    ensures Inv(w.(calls := w.calls + [StrayStop]))
  {
    hide StopsOk;
    var next := w.(calls := w.calls + [StrayStop]);
    CallsStay(w, next);
    StopsStay(w, next);
    assert next.calls[..|w.calls|] == w.calls;
  }

  lemma RelaunchKeeps(w: World)
    requires Inv(w)
    ensures Inv(Relaunch(w))
  {
    hide Inv;
    StopEngineKeeps(w);
    SameInv(StopEngine(w), StopEngine(w).(watchdog := None, echelon := None, relaunching := true));
    TapKeeps(StopEngine(w).(watchdog := None, echelon := None, relaunching := true));
  }

  lemma AttemptStepKeeps(w: World, m: Move)
    requires Inv(w)
    ensures Inv(StepAttempt(w, m))
  {
    hide Inv, TakeNumber, StartTunnel, AddTap;
    match m
    case Tap => TapKeeps(w);
    case PreludeEnds(a, passes, connecting) =>
      if In(w, a, Prelude) {
        NumberKeeps(w, a, connecting);
        StageKeeps(w, a, Over);
      }
    case MemoryRead(a, passes) =>
      if In(w, a, ReadingMemory) {
        StageKeeps(w, a, AskingPermission);
        StageKeeps(w, a, Over);
      }
    case PermissionAnswered(a, granted) =>
      if In(w, a, AskingPermission) {
        StageKeeps(w, a, Loading);
        StageKeeps(w, a, Over);
        SameInv(SetStage(w, a, Loading), SetStage(w, a, Loading).(revoked := false));
      }
    case ConfigLoaded(a, passes) =>
      if In(w, a, Loading) {
        StageKeeps(w, a, Measuring);
        StageKeeps(w, a, Over);
      }
    case Measured(a, passes, echelon) =>
      if In(w, a, Measuring) {
        StageKeeps(w, a, Over);
        if Newest(w, a) {
          StartKeeps(w, a, echelon);
        }
      }
    case StartReturned(a) =>
      if In(w, a, Starting) {
        StageKeeps(w, a, Over);
      }
    case _ =>
  }

  lemma StopStepKeeps(w: World, m: Move)
    requires Inv(w)
    ensures Inv(StepStop(w, m))
  {
    hide Inv, StopEngine, Relaunch, AskStop, EndStop;
    match m
    case WatchdogFires =>
      StopEngineKeeps(w);
      SameInv(StopEngine(w), StopEngine(w).(watchdog := None));
    case EchelonFires(advances) =>
      RelaunchKeeps(w);
      SameInv(w, w.(echelon := None));
    case EngineFails(advances) =>
      SameInv(w, w.(watchdog := None));
      RelaunchKeeps(w.(watchdog := None));
      SameInv(w, w.(watchdog := None, echelon := None));
    case StopAsked => AskStopKeeps(w);
    case StopEnds(k) =>
      if k < |w.stops| {
        EndStopKeeps(w, k);
      }
    case LateConnected => StrayKeeps(w);
    case _ => SameInv(w, StepStop(w, m));
  }

  lemma StepKeeps(w: World, m: Move)
    requires Inv(w)
    ensures Inv(Step(w, m))
  {
    hide Inv, StepAttempt, StepStop;
    AttemptStepKeeps(w, m);
    StopStepKeeps(w, m);
    if m.StateEvent? || m.PollReply? || m.RuntimeReply? {
      SameInv(w, StepReport(w, m));
    }
  }

  lemma {:induction false} RunKeeps(ms: seq<Move>)
    ensures Inv(Run(START, ms))
  {
    hide Step;
    if ms != [] {
      hide Inv;
      RunKeeps(ms[..|ms| - 1]);
      StepKeeps(Run(START, ms[..|ms| - 1]), ms[|ms| - 1]);
    }
  }

  // ----- what every run keeps

  /** A step calls the engine at most once, and starts it only for the newest attempt. */
  predicate CallsOnce(w: World, m: Move, calls: seq<Call>) {
    || calls == w.calls
    || (&& |calls| == |w.calls| + 1 && calls[..|w.calls|] == w.calls
        && (calls[|w.calls|].StartVpn? ==>
              && m.Measured? && m.passes && In(w, m.a, Measuring) && Newest(w, m.a) && calls[|w.calls|].id == w.generation))
  }

  lemma NextCall(w: World, m: Move)
    ensures CallsOnce(w, m, Step(w, m).calls)
  {
    hide StepAttempt, StepStop, StepReport;
    NextCallOfAttempt(w, m);
    NextCallOfStop(w, m);
    NoCallOfReport(w, m);
  }

  lemma NextCallOfAttempt(w: World, m: Move)
    ensures CallsOnce(w, m, StepAttempt(w, m).calls)
  {
  }

  lemma NextCallOfStop(w: World, m: Move)
    ensures CallsOnce(w, m, StepStop(w, m).calls)
  {
  }

  lemma NoCallOfReport(w: World, m: Move)
    ensures StepReport(w, m).calls == w.calls
  {
  }

  /** Move p made the i-th call: it started the engine for the newest attempt, measured with success, under the identity in force. */
  predicate StartedAt(ms: seq<Move>, p: nat, i: nat, id: nat) {
    && p < |ms| && ms[p].Measured? && ms[p].passes
    && var w := Run(START, ms[..p]);
    && In(w, ms[p].a, Measuring) && Newest(w, ms[p].a) && w.attempts[ms[p].a].id == Some(id) && |w.calls| == i
  }

  lemma StartedAtLonger(ms: seq<Move>, n: nat, p: nat, i: nat, id: nat)
    requires n <= |ms| && StartedAt(ms[..n], p, i, id)
    ensures StartedAt(ms, p, i, id)
  {
    assert ms[..n][..p] == ms[..p];
  }

  /** Every start in a run was made by a move of the newest attempt of its moment, under its own identity. */
  lemma {:induction false} OnlyTheNewestStarts(ms: seq<Move>, i: nat)
    ensures var calls := Run(START, ms).calls; i < |calls| && calls[i].StartVpn? ==> exists p :: StartedAt(ms, p, i, calls[i].id)
    decreases |ms|
  {
    hide Step, StartedAt;
    if ms != [] {
      var n := |ms| - 1;
      var before, calls := Run(START, ms[..n]), Run(START, ms).calls;
      OnlyTheNewestStarts(ms[..n], i);
      NextCall(before, ms[n]);
      if i < |before.calls| {
        assert calls[..|before.calls|] == before.calls;
        if calls[i].StartVpn? {
          var p :| StartedAt(ms[..n], p, i, calls[i].id);
          StartedAtLonger(ms, n, p, i, calls[i].id);
        }
      } else if i < |calls| && calls[i].StartVpn? {
        StartedNow(ms, i);
        assert StartedAt(ms, n, i, calls[i].id);
      }
    }
  }

  lemma StartedNow(ms: seq<Move>, i: nat)
    requires ms != []
    requires var n := |ms| - 1; var w := Run(START, ms[..n]);
             && ms[n].Measured? && ms[n].passes && In(w, ms[n].a, Measuring) && Newest(w, ms[n].a) && |w.calls| == i
    ensures StartedAt(ms, |ms| - 1, i, Run(START, ms[..|ms| - 1]).generation)
  {
  }

  lemma StartedAtMostOnce(ms: seq<Move>)
    ensures var calls := Run(START, ms).calls;
            forall i, j | 0 <= i < j < |calls| && calls[i].StartVpn? && calls[j].StartVpn? :: calls[i].id < calls[j].id
  {
    hide Run;
    RunKeeps(ms);
  }

  /** No attempt that had its number before a stop starts the engine after it. */
  lemma NoStartAfterAStop(ms: seq<Move>)
    ensures var calls := Run(START, ms).calls;
            forall i, j | 0 <= i < j < |calls| && calls[i].StopVpn? && calls[j].StartVpn? :: calls[i].generation < calls[j].id
  {
    hide Run;
    RunKeeps(ms);
  }

  /** disconnectInFlight holds exactly while the newest stop has not ended. */
  lemma FlagMeansTheNewestStop(ms: seq<Move>)
    ensures var w := Run(START, ms);
            w.stopping <==> exists k :: 0 <= k < |w.stops| && w.stops[k].id == w.lastStop && !w.stops[k].ended
  {
    hide Run;
    RunKeeps(ms);
    var w := Run(START, ms);
    if w.stopping {
      assert w.stops[|w.stops| - 1].id == w.lastStop;
    }
  }

  lemma NativeSequenceNeverDecreases(w: World, m: Move)
    ensures w.nativeSequence <= Step(w, m).nativeSequence
  {
    hide StepAttempt, StepStop, StepReport;
    ReportsAreNewer(w, m);
    OthersReportNothing(w, m);
  }

  lemma ReportsAreNewer(w: World, m: Move)
    ensures w.nativeSequence <= StepReport(w, m).nativeSequence
  {
  }

  lemma OthersReportNothing(w: World, m: Move)
    ensures StepAttempt(w, m).nativeSequence == w.nativeSequence && StepStop(w, m).nativeSequence == w.nativeSequence
  {
    hide In, Newest;
  }

  lemma {:induction false} SequenceNeverDecreases(ms: seq<Move>, more: seq<Move>)
    ensures Run(START, ms).nativeSequence <= Run(START, ms + more).nativeSequence
  {
    hide Step;
    if more == [] {
      assert ms + more == ms;
    } else {
      var n := |more| - 1;
      SequenceNeverDecreases(ms, more[..n]);
      assert (ms + more)[..|ms + more| - 1] == ms + more[..n];
      NativeSequenceNeverDecreases(Run(START, ms + more[..n]), more[n]);
    }
  }

  // ----- exactly which attempts a stop leaves able to start the engine

  /** The last of these moves starts the engine for attempt a. */
  predicate StartsLast(w: World, more: seq<Move>, a: nat) {
    && more != [] && a < |Run(w, more).attempts| && Begun(Run(w, more).attempts[a])
    && Run(w, more).calls == Run(w, more[..|more| - 1]).calls + [StartVpn(Run(w, more).attempts[a].id.value)]
  }

  /** Attempt a will never start the engine: its number is overtaken, it is over without one, or its identity is gone. */
  predicate Spent(w: World, a: nat) {
    && a < |w.attempts|
    && var at := w.attempts[a];
       || at.identity < w.epoch
       || (at.id.Some? && at.id.value < w.generation)
       || (at.id.None? && at.stage.Over?)
  }

  /** An attempt keeps its identity and its number, and one that is over without a number gets none. */
  predicate SameAttempt(w: World, next: World, a: nat) {
    && a < |w.attempts| <= |next.attempts| && w.epoch <= next.epoch && w.generation <= next.generation
    && next.attempts[a].identity == w.attempts[a].identity
    && (w.attempts[a].id.Some? ==> next.attempts[a].id == w.attempts[a].id)
    && (w.attempts[a].id.None? && w.attempts[a].stage.Over? ==> next.attempts[a] == w.attempts[a])
  }

  lemma StageStays(w: World, b: nat, stage: Stage, a: nat)
    requires a < |w.attempts| && b < |w.attempts| && (w.attempts[b].stage.Over? && w.attempts[b].id.None? ==> stage.Over?)
    ensures SameAttempt(w, SetStage(w, b, stage), a)
  {
  }

  lemma NumberStays(w: World, b: nat, connecting: bool, a: nat)
    requires NumbersOk(w) && a < |w.attempts| && In(w, b, Prelude)
    ensures SameAttempt(w, TakeNumber(w, b, connecting), a)
  {
    assert !Begun(w.attempts[b]);
  }

  lemma AttemptStays(w: World, m: Move, a: nat)
    requires NumbersOk(w) && a < |w.attempts|
    ensures SameAttempt(w, StepAttempt(w, m), a)
  {
    hide NumbersOk, SameAttempt, SetStage, TakeNumber;
    TapStays(w, a);
    match m
    case PreludeEnds(b, passes, connecting) =>
      if In(w, b, Prelude) {
        assert w.attempts[b].stage.Prelude?;
        StageStays(w, b, Over, a);
        NumberStays(w, b, connecting, a);
      }
    case MemoryRead(b, passes) =>
      if In(w, b, ReadingMemory) {
        StageStays(w, b, AskingPermission, a);
        StageStays(w, b, Over, a);
      }
    case PermissionAnswered(b, granted) =>
      if In(w, b, AskingPermission) {
        StageStays(w, b, Loading, a);
        StageStays(w, b, Over, a);
        OthersStay(w, SetStage(w, b, Loading), SetStage(w, b, Loading).(revoked := false), a);
      }
    case ConfigLoaded(b, passes) =>
      if In(w, b, Loading) {
        StageStays(w, b, Measuring, a);
        StageStays(w, b, Over, a);
      }
    case Measured(b, passes, echelon) =>
      if In(w, b, Measuring) {
        StageStays(w, b, Starting, a);
        StageStays(w, b, Over, a);
        if Newest(w, b) {
          OthersStay(w, SetStage(w, b, Starting), StartTunnel(w, b, echelon), a);
        }
      }
    case StartReturned(b) =>
      if In(w, b, Starting) {
        StageStays(w, b, Over, a);
      }
    case _ =>
  }

  lemma TapStays(w: World, a: nat)
    requires a < |w.attempts|
    ensures SameAttempt(w, AddTap(w), a) && SameAttempt(w, w, a)
  {
  }

  lemma OthersStay(w: World, next: World, other: World, a: nat)
    requires SameAttempt(w, next, a)
    requires other.attempts == next.attempts && other.epoch == next.epoch && other.generation == next.generation
    ensures SameAttempt(w, other, a)
  {
  }

  lemma StopStays(w: World, m: Move, a: nat)
    requires a < |w.attempts|
    ensures SameAttempt(w, StepStop(w, m), a) && SameAttempt(w, StepReport(w, m), a)
  {
    hide StepStop, StepReport, SameAttempt;
    StopOnlyAdds(w, m);
    ReportAddsNothing(w, m);
    Extends(w, StepStop(w, m), a);
    Extends(w, StepReport(w, m), a);
  }

  predicate OnlyAdds(w: World, next: World) {
    w.attempts <= next.attempts && w.epoch <= next.epoch && w.generation <= next.generation
  }

  lemma StopOnlyAdds(w: World, m: Move)
    ensures OnlyAdds(w, StepStop(w, m))
  {
  }

  lemma ReportAddsNothing(w: World, m: Move)
    ensures OnlyAdds(w, StepReport(w, m))
  {
  }

  lemma Extends(w: World, next: World, a: nat)
    requires a < |w.attempts| && OnlyAdds(w, next)
    ensures SameAttempt(w, next, a)
  {
    assert next.attempts[..|w.attempts|] == w.attempts;
  }

  lemma SpentStep(w: World, m: Move, a: nat)
    requires Inv(w) && Spent(w, a)
    ensures Spent(Step(w, m), a)
  {
    hide Inv, StepAttempt, StepStop, StepReport, NumbersOk;
    NumbersHold(w);
    AttemptStays(w, m, a);
    StopStays(w, m, a);
  }

  lemma NumbersHold(w: World)
    requires Inv(w)
    ensures NumbersOk(w)
  {
  }

  lemma {:induction false} SpentKeeps(w: World, more: seq<Move>, a: nat)
    requires Inv(w) && Spent(w, a)
    ensures Inv(Run(w, more)) && Spent(Run(w, more), a)
    decreases |more|
  {
    hide Step, Inv, Spent;
    if more != [] {
      SpentKeeps(w, more[..|more| - 1], a);
      StepKeeps(Run(w, more[..|more| - 1]), more[|more| - 1]);
      SpentStep(Run(w, more[..|more| - 1]), more[|more| - 1], a);
    }
  }

  lemma SpentNeverStarts(w: World, more: seq<Move>, a: nat)
    requires Inv(w) && Spent(w, a)
    ensures !StartsLast(w, more, a)
  {
    hide Inv, Step, Spent;
    if more != [] {
      var n := |more| - 1;
      SpentKeeps(w, more[..n], a);
      StartIsNotSpent(Run(w, more[..n]), more[n], a);
    }
  }

  predicate StartsAttempt(w: World, m: Move, a: nat) {
    && a < |Step(w, m).attempts| && Begun(Step(w, m).attempts[a])
    && Step(w, m).calls == w.calls + [StartVpn(Step(w, m).attempts[a].id.value)]
  }

  lemma StartIsNotSpent(w: World, m: Move, a: nat)
    requires Inv(w)
    ensures StartsAttempt(w, m, a) ==> !Spent(w, a)
  {
    hide Step, StopsOk, CallsOrdered;
    if StartsAttempt(w, m, a) {
      var id := Step(w, m).attempts[a].id.value;
      NextCall(w, m);
      assert Step(w, m).calls[|w.calls|] == StartVpn(id);
      if a < |w.attempts| {
        AttemptNumbered(w, m, a);
        SameNumberSameAttempt(w, m.a, a);
      }
    }
  }

  lemma SameNumberSameAttempt(w: World, a: nat, b: nat)
    requires NumbersOk(w) && a < |w.attempts| && b < |w.attempts|
    requires Begun(w.attempts[a]) && w.attempts[a].id == w.attempts[b].id
    ensures a == b
  {
  }

  lemma AttemptNumbered(w: World, m: Move, a: nat)
    requires m.Measured? && a < |w.attempts|
    ensures a < |Step(w, m).attempts| && Step(w, m).attempts[a].id == w.attempts[a].id
  {
  }

  predicate Known(w: World, attempts: seq<Attempt>) { forall at | at in attempts :: at.identity <= w.epoch }

  /** Every attempt belongs to an identity that has been in force. */
  lemma {:induction false} IdentitiesAreKnown(ms: seq<Move>)
    ensures Known(Run(START, ms), Run(START, ms).attempts)
  {
    hide Step;
    if ms != [] {
      IdentitiesAreKnown(ms[..|ms| - 1]);
      RunKeeps(ms[..|ms| - 1]);
      IdentityStep(Run(START, ms[..|ms| - 1]), ms[|ms| - 1]);
    }
  }

  lemma IdentityStep(w: World, m: Move)
    requires Inv(w) && Known(w, w.attempts)
    ensures Known(Step(w, m), Step(w, m).attempts)
  {
    hide Inv, StepAttempt, StepStop, StepReport, NumbersOk;
    var next := Step(w, m);
    NumbersHold(w);
    NewAttempts(w, m);
    forall a | 0 <= a < |next.attempts|
      ensures next.attempts[a].identity <= next.epoch
    {
      if a < |w.attempts| {
        AttemptStays(w, m, a);
        StopStays(w, m, a);
        assert w.attempts[a] in w.attempts;
      }
    }
  }

  /** A step adds at most one attempt, of the identity in force. */
  predicate OneMore(w: World, next: World) {
    && |w.attempts| <= |next.attempts| <= |w.attempts| + 1
    && (|next.attempts| > |w.attempts| ==> next.attempts[|w.attempts|].identity == w.epoch == next.epoch)
  }

  lemma NewAttempts(w: World, m: Move)
    ensures OneMore(w, Step(w, m))
  {
    hide StepAttempt, StepStop, StepReport;
    NewOfAttempt(w, m);
    NewOfStop(w, m);
  }

  lemma NewOfAttempt(w: World, m: Move)
    ensures OneMore(w, StepAttempt(w, m))
  {
  }

  lemma NewOfStop(w: World, m: Move)
    ensures OneMore(w, StepStop(w, m)) && OneMore(w, StepReport(w, m))
  {
  }

  lemma Extended(w: World, ms: seq<Move>, m: Move) returns (more: seq<Move>)
    ensures more == ms + [m] && Run(w, more) == Step(Run(w, ms), m)
  {
    more := ms + [m];
    assert more[..|ms|] == ms;
  }

  lemma RunNone(w: World)
    ensures Run(w, []) == w
  {
  }

  predicate NewestAt(w: World, a: nat, stage: Stage) { In(w, a, stage) && Newest(w, a) }

  lemma NumberTaken(w: World, a: nat)
    requires In(w, a, Prelude) && w.attempts[a].identity == w.epoch
    ensures NewestAt(Step(w, PreludeEnds(a, true, false)), a, if w.relaunching then AskingPermission else ReadingMemory)
  {
  }

  predicate SameCalls(w: World, next: World) {
    next.calls == w.calls && next.generation == w.generation && |next.attempts| == |w.attempts|
  }

  lemma NewestProceeds(w: World, a: nat)
    ensures NewestAt(w, a, ReadingMemory) ==> NewestAt(Step(w, MemoryRead(a, true)), a, AskingPermission)
    ensures NewestAt(w, a, AskingPermission) ==> NewestAt(Step(w, PermissionAnswered(a, true)), a, Loading)
    ensures NewestAt(w, a, Loading) ==> NewestAt(Step(w, ConfigLoaded(a, true)), a, Measuring)
    ensures SameCalls(w, Step(w, MemoryRead(a, true))) && SameCalls(w, Step(w, PermissionAnswered(a, true)))
    ensures SameCalls(w, Step(w, ConfigLoaded(a, true)))
  {
  }

  lemma NewestStarts(w: World, a: nat)
    requires NewestAt(w, a, Measuring)
    ensures var next := Step(w, Measured(a, true, false));
            && a < |next.attempts| == |w.attempts| && next.attempts[a].id == Some(w.generation) && next.calls == w.calls + [StartVpn(w.generation)]
  {
  }

  /** An attempt that has no number yet, and whose identity is in force, goes on to start the engine. */
  lemma PreludeStarts(w: World, a: nat) returns (more: seq<Move>)
    requires In(w, a, Prelude) && w.attempts[a].identity == w.epoch
    ensures StartsLast(w, more, a)
  {
    hide Step, Run, NewestAt;
    RunNone(w);
    more := Extended(w, [], PreludeEnds(a, true, false));
    NumberTaken(w, a);
    if !w.relaunching {
      NewestProceeds(Run(w, more), a);
      more := Extended(w, more, MemoryRead(a, true));
    }
    NewestProceeds(Run(w, more), a);
    more := Extended(w, more, PermissionAnswered(a, true));
    NewestProceeds(Run(w, more), a);
    more := Extended(w, more, ConfigLoaded(a, true));
    NewestStarts(Run(w, more), a);
    var ready := more;
    more := Extended(w, more, Measured(a, true, false));
    assert more[..|more| - 1] == ready;
  }

  /**
   After a stop an attempt can still start the engine if and only if it had no number yet when the stop was
   asked for and its identity is the one in force.
   */
  lemma StartsAfterAStopExactly(ms: seq<Move>, a: nat)
    requires a < |Run(START, ms).attempts|
    ensures var w := Run(START, ms);
            (exists more :: StartsLast(Step(w, StopAsked), more, a))
            <==> w.attempts[a].stage.Prelude? && w.attempts[a].identity == w.epoch
  {
    hide Run, Step, StartsLast, Inv;
    var w := Run(START, ms);
    var stopped := Step(w, StopAsked);
    RunKeeps(ms);
    StepKeeps(w, StopAsked);
    IdentitiesAreKnown(ms);
    assert w.attempts[a] in w.attempts;
    StopLeaves(w, a);
    if w.attempts[a].stage.Prelude? && w.attempts[a].identity == w.epoch {
      var more := PreludeStarts(stopped, a);
      assert StartsLast(stopped, more, a);
    } else {
      forall more
        ensures !StartsLast(stopped, more, a)
      {
        SpentNeverStarts(stopped, more, a);
      }
    }
  }

  lemma StopLeaves(w: World, a: nat)
    requires Inv(w) && a < |w.attempts| && w.attempts[a].identity <= w.epoch
    ensures var stopped := Step(w, StopAsked);
            && a < |stopped.attempts| && stopped.attempts[a] == w.attempts[a] && stopped.epoch == w.epoch
            && (w.attempts[a].stage.Prelude? ==> In(stopped, a, Prelude))
            && (!w.attempts[a].stage.Prelude? || w.attempts[a].identity < w.epoch ==> Spent(stopped, a))
  {
    hide StepAttempt, StepReport;
  }

  /** A second tap while an attempt is connecting, a disconnection before it has its number, and the rest of it. */
  const OUTRUN := [
    Tap, PreludeEnds(0, true, false), MemoryRead(0, true), Tap, StopAsked,
    PreludeEnds(1, true, true), MemoryRead(1, true), PermissionAnswered(1, true), ConfigLoaded(1, true), Measured(1, true, false)]

  lemma TwoTapsAndAStop() returns (ms: seq<Move>)
    ensures ms == OUTRUN[..5]
    ensures var w := Run(START, ms);
            && w.attempts == [Attempt(0, Some(1), AskingPermission), Attempt(0, None, Prelude)]
            && w.calls == [StopVpn(2)] && w.generation == 2 && w.epoch == 0 && !w.relaunching
  {
    hide Run, StepReport;
    RunNone(START);
    ms := Extended(START, [], Tap);
    ms := Extended(START, ms, PreludeEnds(0, true, false));
    assert Run(START, ms).attempts == [Attempt(0, Some(1), ReadingMemory)] && Run(START, ms).calls == [];
    ms := Extended(START, ms, MemoryRead(0, true));
    ms := Extended(START, ms, Tap);
    assert Run(START, ms).attempts == [Attempt(0, Some(1), AskingPermission), Attempt(0, None, Prelude)];
    ms := Extended(START, ms, StopAsked);
  }

  /** connect reads the store before it takes a number: a tap made before a stop may start the engine after it. */
  lemma ATapMayOutrunAStop()
    ensures OUTRUN[3] == Tap && OUTRUN[4] == StopAsked
    ensures Run(START, OUTRUN).calls == [StopVpn(2), StopVpn(3), StartVpn(4)] && |Run(START, OUTRUN).attempts| == 2
  {
    hide Run, Step, NewestAt;
    var ms := TwoTapsAndAStop();
    SecondNumber(Run(START, ms));
    ms := Extended(START, ms, PreludeEnds(1, true, true));
    NewestProceeds(Run(START, ms), 1);
    ms := Extended(START, ms, MemoryRead(1, true));
    NewestProceeds(Run(START, ms), 1);
    ms := Extended(START, ms, PermissionAnswered(1, true));
    NewestProceeds(Run(START, ms), 1);
    ms := Extended(START, ms, ConfigLoaded(1, true));
    NewestStarts(Run(START, ms), 1);
    ms := Extended(START, ms, Measured(1, true, false));
    assert ms == OUTRUN;
  }

  lemma SecondNumber(w: World)
    requires w.attempts == [Attempt(0, Some(1), AskingPermission), Attempt(0, None, Prelude)]
    requires w.calls == [StopVpn(2)] && w.generation == 2 && w.epoch == 0 && !w.relaunching
    ensures var next := Step(w, PreludeEnds(1, true, true));
            NewestAt(next, 1, ReadingMemory) && next.calls == [StopVpn(2), StopVpn(3)] && next.generation == 4 && |next.attempts| == 2
  {
  }
}
