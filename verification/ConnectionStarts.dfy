/**
 What an attempt goes through before the engine is started for it, and what the reports of the engine and
 the timers decide, in every run of ConnectionAttempts.
 */
module ConnectionStarts {
  import opened Wrappers
  import opened ConnectionAttempts
  import opened ConnectionRuns

  // ----- the way of an attempt

  /** The newest number, under the identity in force. */
  predicate InForce(w: World, a: nat)
    requires a < |w.attempts|
  {
    w.attempts[a].id == Some(w.generation) && w.attempts[a].identity == w.epoch
  }

  /** Where a move takes an attempt that is at some stage. */
  function NextStage(w: World, m: Move, a: nat): Stage
    requires a < |w.attempts|
  {
    var stage := w.attempts[a].stage;
    match m
    case PreludeEnds(b, passes, _) =>
      if b != a || !stage.Prelude? then stage
      else if !passes then Over
      else if !w.relaunching then ReadingMemory
      else if w.attempts[a].identity == w.epoch then AskingPermission else Over
    case MemoryRead(b, passes) =>
      if b != a || !stage.ReadingMemory? then stage else if passes && InForce(w, a) then AskingPermission else Over
    case PermissionAnswered(b, granted) =>
      if b != a || !stage.AskingPermission? then stage
      else if granted && w.attempts[a].id == Some(w.generation) then Loading else Over
    case ConfigLoaded(b, passes) =>
      if b != a || !stage.Loading? then stage else if passes && InForce(w, a) then Measuring else Over
    case Measured(b, passes, _) =>
      if b != a || !stage.Measuring? then stage else if passes && InForce(w, a) then Starting else Over
    case StartReturned(b) => if b == a && stage.Starting? then Over else stage
    case _ => stage
  }

  /** Each attempt moves on by its own moves only, and past each pause only while it is in force. */
  lemma StagesAdvance(w: World, m: Move, a: nat)
    requires ConnectionRuns.Inv(w) && a < |w.attempts|
    ensures a < |Step(w, m).attempts| && Step(w, m).attempts[a].stage == NextStage(w, m, a)
  {
    NumbersHold(w);
    hide ConnectionRuns.Inv;
    assert Begun(w.attempts[a]) || w.attempts[a].stage.Prelude? || w.attempts[a].stage.Over?;
    if IsAttemptMove(m) {
      StagesOfAttempt(w, m, a);
    } else {
      StopOnlyAdds(w, m);
      ReportAddsNothing(w, m);
    }
  }

  predicate IsAttemptMove(m: Move) {
    m.Tap? || m.PreludeEnds? || m.MemoryRead? || m.PermissionAnswered? || m.ConfigLoaded? || m.Measured? || m.StartReturned?
  }

  lemma StagesOfAttempt(w: World, m: Move, a: nat)
    requires a < |w.attempts| && (Begun(w.attempts[a]) || w.attempts[a].stage.Prelude? || w.attempts[a].stage.Over?)
    requires IsAttemptMove(m)
    ensures a < |StepAttempt(w, m).attempts| && StepAttempt(w, m).attempts[a].stage == NextStage(w, m, a)
  {
    hide TakeNumber, StartTunnel;
    match m
    case PreludeEnds(b, passes, connecting) =>
      if In(w, b, Prelude) {
        StageTaken(w, b, connecting);
      }
    case Measured(b, passes, echelon) =>
      if In(w, b, Measuring) {
        StageStarted(w, b, echelon);
      }
    case Tap =>
    case _ => StagesOfPauses(w, m, a);
  }

  lemma StagesOfPauses(w: World, m: Move, a: nat)
    requires a < |w.attempts| && (Begun(w.attempts[a]) || w.attempts[a].stage.Prelude? || w.attempts[a].stage.Over?)
    requires m.MemoryRead? || m.PermissionAnswered? || m.ConfigLoaded? || m.StartReturned?
    ensures a < |StepAttempt(w, m).attempts| && StepAttempt(w, m).attempts[a].stage == NextStage(w, m, a)
  {
  }

  lemma StageTaken(w: World, b: nat, connecting: bool)
    requires b < |w.attempts|
    ensures TakeNumber(w, b, connecting).attempts
            == w.attempts[b := Attempt(w.attempts[b].identity, Some(TakeNumber(w, b, connecting).generation),
                                       if !w.relaunching then ReadingMemory
                                       else if w.attempts[b].identity == w.epoch then AskingPermission else Over)]
  {
  }

  lemma StageStarted(w: World, b: nat, echelon: bool)
    requires b < |w.attempts| && w.attempts[b].id.Some?
    ensures StartTunnel(w, b, echelon).attempts == w.attempts[b := w.attempts[b].(stage := Starting)]
  {
  }

  /** An attempt takes the next number, after stopping under a number of its own a connection in progress. */
  lemma TakesANumber(w: World, a: nat, connecting: bool)
    requires a < |w.attempts| && w.attempts[a].stage.Prelude?
    ensures var next := Step(w, PreludeEnds(a, true, connecting)); var g := w.generation;
            && a < |next.attempts| && next.attempts[a].id == Some(next.generation) && next.attempts[a].identity == w.attempts[a].identity
            && next.generation == (if connecting then g + 2 else g + 1)
            && next.calls == (if connecting then w.calls + [StopVpn(g + 1)] else w.calls)
            && !next.relaunching && next.echelon == None && next.watchdog == (if connecting then None else w.watchdog)
  {
  }

  // ----- before a start

  predicate Begins(m: Move, a: nat) { m.PreludeEnds? && m.a == a && m.passes }

  predicate Later(ms: seq<Move>, o: nat, p: nat, q: nat, a: nat) {
    o < p < q < |ms| && Begins(ms[o], a) && ms[p] == PermissionAnswered(a, true) && ms[q] == ConfigLoaded(a, true)
  }

  /** What a stage tells of the moves so far. */
  ghost predicate Passed(ms: seq<Move>, a: nat, stage: Stage) {
    && (stage.ReadingMemory? || stage.AskingPermission? ==> exists o :: 0 <= o < |ms| && Begins(ms[o], a))
    && (stage.Loading? ==> exists o, p :: 0 <= o < p < |ms| && Begins(ms[o], a) && ms[p] == PermissionAnswered(a, true))
    && (stage.Measuring? ==> exists o: nat, p: nat, q: nat :: Later(ms, o, p, q, a))
  }

  lemma PassedLonger(ms: seq<Move>, m: Move, a: nat, stage: Stage)
    requires Passed(ms, a, stage)
    ensures Passed(ms + [m], a, stage)
  {
    var more := ms + [m];
    assert forall k | 0 <= k < |ms| :: more[k] == ms[k];
    if stage.ReadingMemory? || stage.AskingPermission? {
      var o :| 0 <= o < |ms| && Begins(ms[o], a);
      assert Begins(more[o], a);
    } else if stage.Loading? {
      var o, p :| 0 <= o < p < |ms| && Begins(ms[o], a) && ms[p] == PermissionAnswered(a, true);
      assert Begins(more[o], a) && more[p] == PermissionAnswered(a, true);
    } else if stage.Measuring? {
      var o: nat, p: nat, q: nat :| Later(ms, o, p, q, a);
      assert Later(more, o, p, q, a);
    }
  }

  lemma PassedNext(w: World, ms: seq<Move>, m: Move, a: nat)
    requires a < |w.attempts| && Passed(ms, a, w.attempts[a].stage)
    ensures Passed(ms + [m], a, NextStage(w, m, a))
  {
    hide Passed, Later;
    var more, n := ms + [m], |ms|;
    assert more[n] == m && forall k | 0 <= k < n :: more[k] == ms[k];
    PassedLonger(ms, m, a, w.attempts[a].stage);
    OtherStages(more, a);
    match m
    case PreludeEnds(b, passes, _) =>
      if b == a && passes {
        PassedByBegin(more, a, n);
      }
    case MemoryRead(b, _) => PassedByMemory(ms, m, a);
    case PermissionAnswered(b, granted) => PassedByGrant(ms, m, a);
    case ConfigLoaded(b, passes) => PassedByCheck(ms, m, a);
    case _ =>
  }

  lemma OtherStages(ms: seq<Move>, a: nat)
    ensures Passed(ms, a, Over) && Passed(ms, a, Starting) && Passed(ms, a, Prelude)
  {
  }

  lemma PassedByBegin(ms: seq<Move>, a: nat, n: nat)
    requires n < |ms| && Begins(ms[n], a)
    ensures Passed(ms, a, ReadingMemory) && Passed(ms, a, AskingPermission)
  {
  }

  lemma PassedByMemory(ms: seq<Move>, m: Move, a: nat)
    ensures Passed(ms, a, ReadingMemory) ==> Passed(ms + [m], a, AskingPermission)
  {
    if Passed(ms, a, ReadingMemory) {
      var o :| 0 <= o < |ms| && Begins(ms[o], a);
      assert Begins((ms + [m])[o], a);
    }
  }

  lemma PassedByGrant(ms: seq<Move>, m: Move, a: nat)
    ensures Passed(ms, a, AskingPermission) && m == PermissionAnswered(a, true) ==> Passed(ms + [m], a, Loading)
  {
    if Passed(ms, a, AskingPermission) && m == PermissionAnswered(a, true) {
      var o :| 0 <= o < |ms| && Begins(ms[o], a);
      assert Begins((ms + [m])[o], a) && (ms + [m])[|ms|] == m;
    }
  }

  lemma PassedByCheck(ms: seq<Move>, m: Move, a: nat)
    ensures Passed(ms, a, Loading) && m == ConfigLoaded(a, true) ==> Passed(ms + [m], a, Measuring)
  {
    if Passed(ms, a, Loading) && m == ConfigLoaded(a, true) {
      var o, p :| 0 <= o < p < |ms| && Begins(ms[o], a) && ms[p] == PermissionAnswered(a, true);
      assert Later(ms + [m], o, p, |ms|, a);
    }
  }

  lemma NewAttemptsArePreludes(w: World, m: Move)
    ensures forall a | |w.attempts| <= a < |Step(w, m).attempts| :: Step(w, m).attempts[a].stage.Prelude?
  {
    hide TakeNumber, StartTunnel;
    if m.PreludeEnds? && In(w, m.a, Prelude) {
      StageTaken(w, m.a, m.connecting);
    }
    if m.Measured? && In(w, m.a, Measuring) {
      StageStarted(w, m.a, m.echelon);
    }
    ReportAddsNothing(w, m);
  }

  lemma {:induction false} EveryStageIsPassed(ms: seq<Move>, a: nat)
    ensures a < |Run(START, ms).attempts| ==> Passed(ms, a, Run(START, ms).attempts[a].stage)
    decreases |ms|
  {
    hide Step, Passed, NextStage;
    if ms != [] {
      var n := |ms| - 1;
      var w := Run(START, ms[..n]);
      EveryStageIsPassed(ms[..n], a);
      RunKeeps(ms[..n]);
      OtherStages(ms, a);
      assert ms == ms[..n] + [ms[n]];
      if a < |w.attempts| {
        StagesAdvance(w, ms[n], a);
        PassedNext(w, ms[..n], ms[n], a);
      } else {
        NewAttemptsArePreludes(w, ms[n]);
      }
    }
  }

  // ----- the permission

  /** While the permission is lost, no attempt past its question has the newest number. */
  predicate HeldBack(w: World) {
    w.revoked ==> forall a | 0 <= a < |w.attempts| && (w.attempts[a].stage.Loading? || w.attempts[a].stage.Measuring?) ::
                    w.attempts[a].id != Some(w.generation)
  }

  lemma HeldBackStep(w: World, m: Move)
    requires ConnectionRuns.Inv(w) && HeldBack(w)
    ensures HeldBack(Step(w, m))
  {
    NumbersHold(w);
    hide ConnectionRuns.Inv;
    if IsAttemptMove(m) {
      HeldBackAttempt(w, m);
    } else if m.StateEvent? || m.PollReply? || m.RuntimeReply? {
      HeldBackReport(w, m);
    } else {
      HeldBackStop(w, m);
    }
  }

  lemma HeldBackAttempt(w: World, m: Move)
    requires NumbersOk(w) && HeldBack(w) && IsAttemptMove(m)
    ensures HeldBack(StepAttempt(w, m))
  {
    hide TakeNumber, StartTunnel;
    if m.PreludeEnds? && In(w, m.a, Prelude) {
      HeldBackNumber(w, m.a, m.connecting);
    }
    if m.Measured? && In(w, m.a, Measuring) {
      StageStarted(w, m.a, m.echelon);
      HeldBackStart(w, m.a, m.echelon);
    }
  }

  lemma HeldBackNumber(w: World, a: nat, connecting: bool)
    requires NumbersOk(w) && In(w, a, Prelude)
    ensures HeldBack(TakeNumber(w, a, connecting))
  {
  }

  lemma HeldBackStart(w: World, a: nat, echelon: bool)
    requires HeldBack(w) && In(w, a, Measuring)
    ensures HeldBack(StartTunnel(w, a, echelon))
  {
  }

  lemma HeldBackStop(w: World, m: Move)
    requires NumbersOk(w) && HeldBack(w)
    ensures HeldBack(StepStop(w, m))
  {
  }

  lemma HeldBackReport(w: World, m: Move)
    requires NumbersOk(w) && HeldBack(w)
    ensures HeldBack(StepReport(w, m))
  {
  }

  lemma {:induction false} AlwaysHeldBack(ms: seq<Move>)
    ensures HeldBack(Run(START, ms))
  {
    hide Step, HeldBack;
    if ms == [] {
      NothingHeld();
    } else {
      AlwaysHeldBack(ms[..|ms| - 1]);
      RunKeeps(ms[..|ms| - 1]);
      HeldBackStep(Run(START, ms[..|ms| - 1]), ms[|ms| - 1]);
    }
  }

  lemma NothingHeld()
    ensures HeldBack(START)
  {
  }

  /** The engine is started by the i-th call, for attempt a, at the end of its whole way. */
  ghost predicate StartedAfterAll(ms: seq<Move>, i: nat, id: nat, a: nat, s: nat) {
    && s < |ms| && ms[s].Measured? && ms[s].a == a && ms[s].passes && StartedAt(ms, s, i, id)
    && (exists o: nat, p: nat, q: nat :: Later(ms[..s], o, p, q, a))
    && !Run(START, ms[..s]).revoked
  }

  /**
   Every start in a run ends the way of its attempt, in this order: the attempt began, the permission was granted,
   the configuration passed its checks and was measured. And the permission has not been lost since it was granted.
   */
  lemma StartsAreGranted(ms: seq<Move>, i: nat)
    ensures var calls := Run(START, ms).calls;
            i < |calls| && calls[i].StartVpn? ==> exists a: nat, s: nat :: StartedAfterAll(ms, i, calls[i].id, a, s)
  {
    var calls := Run(START, ms).calls;
    hide Run, Step;
    OnlyTheNewestStarts(ms, i);
    if i < |calls| && calls[i].StartVpn? {
      var s: nat :| StartedAt(ms, s, i, calls[i].id);
      var a, w := ms[s].a, Run(START, ms[..s]);
      EveryStageIsPassed(ms[..s], a);
      AlwaysHeldBack(ms[..s]);
      assert StartedAfterAll(ms, i, calls[i].id, a, s);
    }
  }

  // ----- reports and timers

  /** Whether a report is taken, by its number and the last one taken. */
  predicate Taken(w: World, m: Move) {
    match m
    case StateEvent(s, _) => s == None || s.value <= 0 || s.value > w.nativeSequence
    case PollReply(s, lost) => lost && (s == None || s.value >= w.nativeSequence)
    case RuntimeReply(s, _, recorded) => recorded && (s == None || s.value >= w.nativeSequence)
    case _ => false
  }

  predicate SaysLost(m: Move) { (m.StateEvent? || m.PollReply? || m.RuntimeReply?) && m.permissionLost }

  /**
   The permission is lost exactly by a report that says so and is taken, and granted again exactly by the answer
   to the newest attempt that asks; a loss makes every attempt so far an old one, and the timers and a relaunch
   that were due are dropped.
   */
  lemma PermissionIsLostExactly(w: World, m: Move)
    ensures var next := Step(w, m);
            && (next.revoked <==>
                  if SaysLost(m) && Taken(w, m) then true
                  else if m.PermissionAnswered? && m.granted && In(w, m.a, AskingPermission) && w.attempts[m.a].id == Some(w.generation) then false
                  else w.revoked)
            && (SaysLost(m) && Taken(w, m) ==>
                  && next.watchdog == None && next.echelon == None && !next.relaunching
                  && next.generation == (if w.revoked then w.generation else w.generation + 1)
                  && next.attempts == w.attempts && next.calls == w.calls)
  {
    hide TakeNumber, StartTunnel;
    if m.PreludeEnds? && In(w, m.a, Prelude) {
      NumberKeepsPermission(w, m.a, m.connecting);
    }
    if m.Measured? && In(w, m.a, Measuring) {
      StartKeepsPermission(w, m.a, m.echelon);
    }
  }

  lemma NumberKeepsPermission(w: World, a: nat, connecting: bool)
    requires a < |w.attempts|
    ensures TakeNumber(w, a, connecting).revoked == w.revoked && TakeNumber(w, a, connecting).nativeSequence == w.nativeSequence
  {
  }

  lemma StartKeepsPermission(w: World, a: nat, echelon: bool)
    requires a < |w.attempts| && w.attempts[a].id.Some?
    ensures StartTunnel(w, a, echelon).revoked == w.revoked && StartTunnel(w, a, echelon).nativeSequence == w.nativeSequence
  {
  }

  /** The last number changes exactly by a report that is taken and bears one, to that one. */
  lemma LastNumberExactly(w: World, m: Move)
    ensures Step(w, m).nativeSequence
            == if Taken(w, m) && m.sequence.Some? && m.sequence.value >= 0 && (!m.StateEvent? || m.sequence.value > 0)
               then m.sequence.value else w.nativeSequence
  {
    if !Taken(w, m) {
      OthersReportNothing(w, m);
    }
  }

  /** The timers stop the engine exactly for the newest number, each stop under a number of its own. */
  lemma TimersDecide(w: World, advances: bool)
    ensures var next := Step(w, WatchdogFires); var g := w.generation;
            if w.watchdog == Some(g) then next == w.(generation := g + 1, calls := w.calls + [StopVpn(g + 1)], watchdog := None) else next == w
    ensures var next := Step(w, EchelonFires(advances)); var g := w.generation;
            if w.echelon == Some(g) && advances then
              next == w.(generation := g + 1, calls := w.calls + [StopVpn(g + 1)], watchdog := None, echelon := None, relaunching := true,
                         attempts := w.attempts + [Attempt(w.epoch, None, Prelude)])
            else next == w.(echelon := None)
  {
  }

  /**
   A failure of the engine relaunches under a number of its own, or drops the timers; a phase of the engine arms the
   watchdog again for the newest number; a late connection is stopped without a number.
   */
  lemma EngineDecides(w: World, advances: bool)
    ensures var next := Step(w, EngineFails(advances)); var g := w.generation;
            if advances then
              next == w.(generation := g + 1, calls := w.calls + [StopVpn(g + 1)], watchdog := None, echelon := None, relaunching := true,
                         attempts := w.attempts + [Attempt(w.epoch, None, Prelude)])
            else next == w.(watchdog := None, echelon := None)
    ensures Step(w, WatchdogRearmed) == w.(watchdog := if w.watchdog == None then None else Some(w.generation))
    ensures Step(w, TimersCleared) == w.(watchdog := None, echelon := None)
    ensures Step(w, LateConnected) == w.(calls := w.calls + [StrayStop])
  {
  }

  /** A stop takes a number and stops the engine under it; its end lowers the flag if and only if no later stop was asked for. */
  lemma StopsDecide(w: World, k: nat)
    requires ConnectionRuns.Inv(w)
    ensures var next := Step(w, StopAsked); var g := w.generation;
            next == w.(generation := g + 1, calls := w.calls + [StopVpn(g + 1)], lastStop := g + 1, stopping := true,
                       stops := w.stops + [Stop(g + 1, false)], watchdog := None, echelon := None)
    ensures k < |w.stops| ==>
              Step(w, StopEnds(k)).stopping == (w.stopping && k < |w.stops| - 1) && Step(w, StopEnds(k)).stops[k].ended
  {
  }

  /** A tap begins an attempt of the identity in force; a change of identity makes every attempt so far another's. */
  lemma TapsDecide(w: World)
    ensures Step(w, Tap) == w.(attempts := w.attempts + [Attempt(w.epoch, None, Prelude)])
    ensures Step(w, IdentityChanges) == w.(epoch := w.epoch + 1)
  {
  }

  /** The engine starts with the timers of its attempt armed. */
  lemma StartArmsTheTimers(w: World, a: nat, echelon: bool)
    requires In(w, a, Measuring) && InForce(w, a)
    ensures var next := Step(w, Measured(a, true, echelon)); var g := w.generation;
            && next.calls == w.calls + [StartVpn(g)] && next.watchdog == Some(g)
            && next.echelon == (if echelon then Some(g) else None) && next.generation == g
  {
  }
}
