/**
 What a refresh comes to for the requests that wait for it: with the new token they are sent a second
 time, and when it fails they never are. Stated on the phases and the sends of requests.
 */
module SessionOutcomes {
  import opened Wrappers
  import opened SessionRefresh
  import opened SessionRefreshRuns

  // ----- a request keeps its epoch, and a flight its owner

  /** Nothing that identifies a request or a flight changes. */
  predicate SameParties(w: World, next: World) {
    && |next.requests| == |w.requests| && |next.flights| == |w.flights|
    && (forall r | 0 <= r < |w.requests| ::
          next.requests[r].epoch == w.requests[r].epoch && next.requests[r].joined == w.requests[r].joined)
    && (forall f | 0 <= f < |w.flights| ::
          next.flights[f].epoch == w.flights[f].epoch && next.flights[f].owner == w.flights[f].owner)
  }

  lemma FailParties(w: World, f: nat, error: Problem)
    requires Ready(w, f)
    ensures SameParties(w, Fail(w, f, error))
  {
  }

  lemma ProcessedParties(w: World, f: nat)
    requires Ready(w, f) && w.flights[f].stage.Written?
    ensures SameParties(w, OnProcessed(w, f))
  {
    hide Fail;
    FailParties(w, f, OtherProblem);
  }

  lemma FlightParties(w: World, m: Move)
    ensures SameParties(w, StepFlight(w, m))
  {
    hide Fail, OnProcessed;
    forall f, error | Ready(w, f)
      ensures SameParties(w, Fail(w, f, error))
    {
      FailParties(w, f, error);
    }
    match m
    case QueueProcessed(f) =>
      if Ready(w, f) && w.flights[f].stage.Written? {
        ProcessedParties(w, f);
      }
    case _ =>
  }

  /** A waiter and the owner of a flight are requests of its epoch. */
  predicate EpochsAgree(w: World) {
    && (forall r | 0 <= r < |w.requests| && w.requests[r].joined.Some? ::
          var f := w.requests[r].joined.value.flight; f < |w.flights| && w.flights[f].epoch == w.requests[r].epoch)
    && (forall f | 0 <= f < |w.flights| ::
          w.flights[f].owner < |w.requests| && w.requests[w.flights[f].owner].epoch == w.flights[f].epoch)
  }

  lemma EpochsOfSameParties(w: World, next: World)
    requires EpochsAgree(w) && SameParties(w, next)
    ensures EpochsAgree(next)
  {
  }

  lemma EpochsStep(w: World, m: Move)
    requires Inv(w) && EpochsAgree(w)
    ensures EpochsAgree(Step(w, m))
  {
    hide Inv, StepFlight, SameParties, OnUnauthorized;
    match m
    case NewRequest =>
    case Unauthorized(r) =>
      if In(w, r, InFlight) {
        EpochsOfUnauthorized(w, r);
      }
    case SessionChanges => NothingChanges(w, Step(w, m));
    case Sent(r) => RequestParties(w, m);
    case Answered(r) => RequestParties(w, m);
    case OtherError(r) => RequestParties(w, m);
    case Resumed(r) => RequestParties(w, m);
    case _ =>
      FlightParties(w, m);
      EpochsOfSameParties(w, StepFlight(w, m));
  }

  lemma NothingChanges(w: World, next: World)
    requires EpochsAgree(w) && next.requests == w.requests && next.flights == w.flights
    ensures EpochsAgree(next)
  {
  }

  lemma RequestParties(w: World, m: Move)
    requires EpochsAgree(w) && (m.Sent? || m.Answered? || m.OtherError? || m.Resumed?)
    ensures EpochsAgree(StepRequest(w, m))
  {
    hide EpochsAgree;
    assert SameParties(w, StepRequest(w, m));
    EpochsOfSameParties(w, StepRequest(w, m));
  }

  lemma EpochsOfUnauthorized(w: World, r: nat)
    requires Inv(w) && EpochsAgree(w) && In(w, r, InFlight)
    ensures EpochsAgree(OnUnauthorized(w, r))
  {
    SendsOf(w, r);
    hide Inv;
  }

  lemma {:induction false} EpochsKeep(ms: seq<Move>)
    ensures EpochsAgree(Run(START, ms))
  {
    hide Step, Inv;
    if ms != [] {
      hide EpochsAgree;
      EpochsKeep(ms[..|ms| - 1]);
      RunKeeps(ms[..|ms| - 1]);
      EpochsStep(Run(START, ms[..|ms| - 1]), ms[|ms| - 1]);
    } else {
      RunNone();
    }
  }

  // ----- the queue is served

  predicate WaitsFor(w: World, r: nat, f: nat) { r < |w.requests| && w.requests[r].phase == Waiting(f) }

  lemma WaitersAreQueued(w: World, f: nat, r: nat)
    requires Inv(w) && f < |w.flights| && w.flights[f].outcome.None? && WaitsFor(w, r, f)
    ensures r in w.flights[f].queue && r != w.flights[f].owner && w.requests[r].sends == 1 && w.requests[r].joined == Some(Joined(f, true))
  {
    assert RequestOk(w, r) && FlightOk(w, f);
  }

  predicate WrittenInTime(w: World, f: nat, token: string) {
    f < |w.flights| && w.flights[f].stage == Written(token) && w.flights[f].epoch == w.epoch
  }

  /** A request that has been given a token goes out with the next two moves. */
  lemma GivenGoesOut(w: World, r: nat, token: string)
    requires r < |w.requests| && w.requests[r].phase == Resolved(token) && w.requests[r].epoch == w.epoch
    ensures var later := Step(Step(w, Resumed(r)), Sent(r));
            r < |later.requests| && later.requests[r] == w.requests[r].(phase := InFlight, sends := w.requests[r].sends + 1)
  {
    hide StepFlight;
  }

  lemma WaiterIsServed(w: World, f: nat, token: string, r: nat)
    requires Inv(w) && WrittenInTime(w, f, token) && Ready(w, f) && WaitsFor(w, r, f)
    ensures var next := Step(w, QueueProcessed(f));
            r < |next.requests| && next.requests[r] == w.requests[r].(phase := Resolved(token)) && next.epoch == w.epoch
  {
    hide Inv, Settlements;
    ReadyFlight(w, f);
    WaitersAreQueued(w, f, r);
  }

  lemma OwnerIsServed(w: World, f: nat, token: string)
    requires Inv(w) && WrittenInTime(w, f, token) && Ready(w, f)
    ensures var next := Step(w, QueueProcessed(f)); var o := w.flights[f].owner;
            && |next.requests| == |w.requests| && next.requests[o] == w.requests[o].(phase := Preparing) && next.epoch == w.epoch
            && |next.flights| == |w.flights| && next.refreshing == None
            && next.flights[f] == w.flights[f].(stage := Finished, queue := [], outcome := Some(Renewed(token)))
  {
    ReadyFlight(w, f);
    Refreshes(w, f);
    hide Inv, Settlements;
    OwnerDoesNotWait(w, f);
  }

  /** These moves send the request for the second time. */
  predicate GoesOut(w: World, more: seq<Move>, r: nat) {
    var later := Run(w, more);
    r < |w.requests| && r < |later.requests| && later.requests[r] == w.requests[r].(phase := InFlight, sends := 2)
  }

  /**
   In every run: when the tokens of a refresh are written and the session is still its own, each request that
   waits for it is given that token, and goes out with it a second time; so does the request that began it.
   */
  lemma TheTokenServesAll(ms: seq<Move>, f: nat, token: string)
    requires WrittenInTime(Run(START, ms), f, token)
    ensures var w := Run(START, ms); var next := Step(w, QueueProcessed(f));
            && |next.requests| == |w.requests| && |next.flights| == |w.flights|
            && next.flights[f] == w.flights[f].(stage := Finished, queue := [], outcome := Some(Renewed(token))) && next.refreshing == None
    ensures var w := Run(START, ms); var next := Step(w, QueueProcessed(f));
            forall r: nat | WaitsFor(w, r, f) ::
              r < |next.requests| && next.requests[r] == w.requests[r].(phase := Resolved(token)) && GoesOut(next, [Resumed(r), Sent(r)], r)
    ensures var w := Run(START, ms); var next := Step(w, QueueProcessed(f)); var o := w.flights[f].owner;
            o < |next.requests| && next.requests[o] == w.requests[o].(phase := Preparing) && GoesOut(next, [Sent(o)], o)
  {
    hide Run, Step, Inv, EpochsAgree;
    RunKeeps(ms);
    EpochsKeep(ms);
    var w := Run(START, ms);
    var next, o := Step(w, QueueProcessed(f)), w.flights[f].owner;
    ReadyFlight(w, f);
    OwnerIsServed(w, f, token);
    OwnerEpoch(w, f);
    PreparedGoesOut(next, o);
    RunOneMore(next, [], Sent(o));
    forall r: nat | WaitsFor(w, r, f)
      ensures r < |next.requests| && next.requests[r] == w.requests[r].(phase := Resolved(token)) && GoesOut(next, [Resumed(r), Sent(r)], r)
    {
      WaiterIsServed(w, f, token, r);
      WaiterEpoch(w, f, r);
      GivenGoesOut(next, r, token);
      RunOneMore(next, [], Resumed(r));
      RunOneMore(next, [Resumed(r)], Sent(r));
      assert [Resumed(r)] + [Sent(r)] == [Resumed(r), Sent(r)];
    }
  }

  lemma OwnerEpoch(w: World, f: nat)
    requires Inv(w) && EpochsAgree(w) && f < |w.flights| && !w.flights[f].stage.Finished?
    ensures var o := w.flights[f].owner; o < |w.requests| && w.requests[o].epoch == w.flights[f].epoch && w.requests[o].sends == 1
  {
    assert FlightOk(w, f) && RequestOk(w, w.flights[f].owner);
  }

  lemma WaiterEpoch(w: World, f: nat, r: nat)
    requires Inv(w) && EpochsAgree(w) && f < |w.flights| && w.flights[f].outcome.None? && WaitsFor(w, r, f)
    ensures w.requests[r].epoch == w.flights[f].epoch && w.requests[r].sends == 1
  {
    hide Inv;
    WaitersAreQueued(w, f, r);
  }

  lemma PreparedGoesOut(w: World, r: nat)
    requires r < |w.requests| && w.requests[r].phase.Preparing? && w.requests[r].epoch == w.epoch
    ensures var later := Step(w, Sent(r));
            r < |later.requests| && later.requests[r] == w.requests[r].(phase := InFlight, sends := w.requests[r].sends + 1)
  {
    hide StepFlight;
  }

  lemma RunOneMore(w: World, ms: seq<Move>, m: Move)
    ensures Run(w, []) == w && Run(w, ms + [m]) == Step(Run(w, ms), m) && [] + [m] == [m]
  {
    assert (ms + [m])[..|ms|] == ms;
  }

  lemma Refreshes(w: World, f: nat)
    requires Inv(w) && f < |w.flights| && !w.flights[f].stage.Finished? && w.flights[f].epoch == w.epoch
    ensures w.refreshing == Some(f)
  {
    assert FlightOk(w, f);
  }

  // ----- exactly when a refresh fails

  /** The move ends a wait of the flight with an error, or finds its session over. */
  predicate FailsAt(w: World, m: Move, f: nat) {
    f < |w.flights| &&
    var stage, late := w.flights[f].stage, w.flights[f].epoch != w.epoch;
    match m
    case Prepared(g, error) => g == f && stage.Starting? && (error.Some? || late)
    case Replied(g, reply) => g == f && stage.Posting? && (reply.Refused? || late)
    case WriteTurn(g) => g == f && stage.Storing? && w.writer.None? && late
    case SecuritySaved(g, error) => g == f && stage.Securing? && (error.Some? || late)
    case TokensWritten(g, error) => g == f && stage.Writing? && (error.Some? || late)
    case QueueProcessed(g) => g == f && stage.Written? && late
    case _ => false
  }

  /** The server says, or a wait ends with, that the session itself is invalid. */
  predicate SaysInvalid(m: Move) {
    match m
    case Prepared(_, error) => error == Some(InvalidSession)
    case Replied(_, reply) => reply == Refused(InvalidSession)
    case SecuritySaved(_, error) => error == Some(InvalidSession)
    case TokensWritten(_, error) => error == Some(InvalidSession)
    case _ => false
  }

  /** A failing move is a failure of the flight, for some reason. */
  lemma FailingFails(w: World, m: Move, f: nat) returns (error: Problem)
    requires Ready(w, f) && FailsAt(w, m, f)
    ensures Step(w, m).requests == Fail(w, f, error).requests && Step(w, m).flights == Fail(w, f, error).flights
    ensures Step(w, m).refreshing == Fail(w, f, error).refreshing && (error.InvalidSession? <==> SaysInvalid(m))
  {
    hide Fail;
    var late := w.flights[f].epoch != w.epoch;
    match m
    case Prepared(_, e) => error := if e.Some? then e.value else OtherProblem;
    case Replied(_, reply) => error := if reply.Refused? then reply.problem else OtherProblem;
    case WriteTurn(_) => error := OtherProblem;
    case SecuritySaved(_, e) =>
      error := if e.Some? then e.value else OtherProblem;
      FailLeavesWriting(w, f, error, Writing(w.flights[f].stage.token));
    case TokensWritten(_, e) => error := if e.Some? then e.value else OtherProblem;
    case QueueProcessed(_) => error := OtherProblem;
  }

  lemma FailOutcome(w: World, f: nat, error: Problem)
    requires Ready(w, f)
    ensures var next := Fail(w, f, error);
            && |next.flights| == |w.flights| && next.flights[f].outcome == Some(Refused(error))
            && (next.flights[f].stage == Clearing || next.flights[f].stage == Finished)
            && forall g | 0 <= g < |w.flights| && g != f :: next.flights[g] == w.flights[g]
  {
  }

  /** The flight that a move ends a wait of. */
  predicate About(m: Move, f: nat) {
    match m
    case Prepared(g, _) => g == f
    case Replied(g, _) => g == f
    case WriteTurn(g) => g == f
    case SecuritySaved(g, _) => g == f
    case TokensWritten(g, _) => g == f
    case QueueProcessed(g) => g == f
    case TokensRemoved(g) => g == f
    case _ => false
  }

  /** A move changes the stage and the outcome of no other flight. */
  lemma OtherFlightsStay(w: World, m: Move, f: nat)
    requires f < |w.flights| && !About(m, f)
    ensures var next := Step(w, m);
            f < |next.flights| && next.flights[f].stage == w.flights[f].stage && next.flights[f].outcome == w.flights[f].outcome
  {
    hide Fail, OnProcessed;
    forall g: nat, error | Ready(w, g)
      ensures |Fail(w, g, error).flights| == |w.flights|
      ensures forall h | 0 <= h < |w.flights| && h != g :: Fail(w, g, error).flights[h] == w.flights[h]
    {
      FailOutcome(w, g, error);
    }
    if m.QueueProcessed? && Ready(w, m.f) && w.flights[m.f].stage.Written? {
      ProcessedOutcome(w, m.f);
    }
  }

  lemma ProcessedOutcome(w: World, f: nat)
    requires Ready(w, f) && w.flights[f].stage.Written?
    ensures var next := OnProcessed(w, f);
            && |next.flights| == |w.flights|
            && (w.flights[f].epoch == w.epoch ==>
                  next.flights[f].stage == Finished && next.flights[f].outcome == Some(Renewed(w.flights[f].stage.token)))
            && forall g | 0 <= g < |w.flights| && g != f :: next.flights[g] == w.flights[g]
  {
    hide Fail;
    FailOutcome(w, f, OtherProblem);
  }

  /** A move that ends a wait of the flight and does not fail takes it to its next stage. */
  function NextStage(stage: Stage, m: Move): Stage {
    match m
    case Prepared(_, _) => if stage.Starting? then Posting else stage
    case Replied(_, reply) => if stage.Posting? && reply.Renewed? then Storing(reply.token) else stage
    case WriteTurn(_) => if stage.Storing? then Securing(stage.token) else if stage.Clearing? then Removing else stage
    case SecuritySaved(_, _) => if stage.Securing? then Writing(stage.token) else stage
    case TokensWritten(_, _) => if stage.Writing? then Written(stage.token) else stage
    case QueueProcessed(_) => if stage.Written? then Finished else stage
    case TokensRemoved(_) => if stage.Removing? then Finished else stage
    case _ => stage
  }

  /** The removal of the tokens is given up when the session is over. */
  predicate GivesUp(w: World, m: Move, f: nat) {
    f < |w.flights| && w.flights[f].stage.Clearing? && m == WriteTurn(f) && w.writer.None? && w.flights[f].epoch != w.epoch
  }

  lemma StagesAdvance(w: World, m: Move, f: nat)
    requires Ready(w, f) && About(m, f) && !FailsAt(w, m, f)
    ensures var next := Step(w, m);
            && f < |next.flights|
            && next.flights[f].stage == (if m.WriteTurn? && w.writer.Some? then w.flights[f].stage
                                         else if GivesUp(w, m, f) then Finished
                                         else NextStage(w.flights[f].stage, m))
            && (!m.QueueProcessed? || !w.flights[f].stage.Written? ==> next.flights[f].outcome == w.flights[f].outcome)
  {
    hide Fail, OnProcessed;
    if m.QueueProcessed? && w.flights[f].stage.Written? {
      ProcessedOutcome(w, f);
    }
  }

  /** In every run a refresh without an outcome yet fails exactly then, and succeeds exactly once its tokens are written in time. */
  lemma FailsExactly(ms: seq<Move>, m: Move, f: nat)
    requires f < |Run(START, ms).flights| && Run(START, ms).flights[f].outcome.None?
    ensures var w := Run(START, ms); var next := Step(w, m);
            && f < |next.flights|
            && (next.flights[f].outcome.Some? && next.flights[f].outcome.value.Refused? <==> FailsAt(w, m, f))
            && (next.flights[f].outcome.Some? && next.flights[f].outcome.value.Renewed? <==>
                  m == QueueProcessed(f) && w.flights[f].stage.Written? && w.flights[f].epoch == w.epoch)
  {
    hide Run, Fail, Step;
    RunKeeps(ms);
    var w := Run(START, ms);
    ReadyFlight(w, f);
    hide Inv;
    if !About(m, f) {
      OtherFlightsStay(w, m, f);
    } else if FailsAt(w, m, f) {
      var error := FailingFails(w, m, f);
      FailOutcome(w, f, error);
    } else {
      StagesAdvance(w, m, f);
      if m.QueueProcessed? && w.flights[f].stage.Written? {
        SucceedsAtTheEnd(w, m, f);
      }
    }
  }

  lemma SucceedsAtTheEnd(w: World, m: Move, f: nat)
    requires Ready(w, f) && About(m, f) && !FailsAt(w, m, f) && w.flights[f].stage.Written? && m.QueueProcessed?
    ensures f < |Step(w, m).flights| && Step(w, m).flights[f].outcome == Some(Renewed(w.flights[f].stage.token))
  {
    ProcessedOutcome(w, f);
  }

  // ----- the queue is refused

  /** A rejected request is over. */
  lemma RejectedStays(w: World, m: Move, r: nat)
    requires Inv(w) && r < |w.requests| && w.requests[r].phase.Rejected?
    ensures r < |Step(w, m).requests| && Step(w, m).requests[r] == w.requests[r]
  {
    hide StepFlight;
    RejectedInFlights(w, m, r);
  }

  lemma RejectedInFlights(w: World, m: Move, r: nat)
    requires Inv(w) && r < |w.requests| && w.requests[r].phase.Rejected?
    ensures r < |StepFlight(w, m).requests| && StepFlight(w, m).requests[r] == w.requests[r]
  {
    hide Fail, OnProcessed;
    forall f: nat, error | Ready(w, f) && !w.flights[f].stage.Finished?
      ensures r < |Fail(w, f, error).requests| && Fail(w, f, error).requests[r] == w.requests[r]
    {
      RejectedInFail(w, f, error, r);
    }
    forall f: nat | f < |w.flights| && !w.flights[f].stage.Finished?
      ensures w.flights[f].owner != r
    {
      assert FlightOk(w, f);
    }
    if m.QueueProcessed? && Ready(w, m.f) && w.flights[m.f].stage.Written? {
      RejectedInProcessed(w, m.f, r);
    }
    hide Inv;
  }

  lemma RejectedInFail(w: World, f: nat, error: Problem, r: nat)
    requires Inv(w) && r < |w.requests| && w.requests[r].phase.Rejected? && Ready(w, f) && !w.flights[f].stage.Finished?
    ensures r < |Fail(w, f, error).requests| && Fail(w, f, error).requests[r] == w.requests[r]
  {
    hide Settlements, OneByEpoch, OneByWaiter;
    assert FlightOk(w, f);
  }

  lemma RejectedInProcessed(w: World, f: nat, r: nat)
    requires Inv(w) && r < |w.requests| && w.requests[r].phase.Rejected? && Ready(w, f) && w.flights[f].stage.Written?
    ensures r < |OnProcessed(w, f).requests| && OnProcessed(w, f).requests[r] == w.requests[r]
  {
    hide Settlements, OneByEpoch, OneByWaiter, Fail;
    assert FlightOk(w, f);
    RejectedInFail(w, f, OtherProblem, r);
  }

  lemma {:induction false} RejectedForGood(ms: seq<Move>, more: seq<Move>, r: nat)
    requires r < |Run(START, ms).requests| && Run(START, ms).requests[r].phase.Rejected?
    ensures var later := Run(START, ms + more); r < |later.requests| && later.requests[r] == Run(START, ms).requests[r]
    decreases |more|
  {
    hide Step, Inv;
    if more == [] {
      assert ms + more == ms;
    } else {
      var n := |more| - 1;
      RejectedForGood(ms, more[..n], r);
      RunKeeps(ms + more[..n]);
      RejectedStays(Run(START, ms + more[..n]), more[n], r);
      assert (ms + more)[..|ms + more| - 1] == ms + more[..n];
    }
  }

  lemma WaiterIsRefused(w: World, f: nat, error: Problem, r: nat)
    requires Inv(w) && f < |w.flights| && w.flights[f].outcome.None? && Ready(w, f) && WaitsFor(w, r, f)
    ensures r < |Fail(w, f, error).requests| && Fail(w, f, error).requests[r] == w.requests[r].(phase := Rejected)
  {
    hide Settlements;
    WaitersAreQueued(w, f, r);
  }

  /**
   In every run: when a refresh fails, each request that waits for it is rejected and, whatever happens next,
   is never sent again.
   */
  lemma AFailureRefusesAll(ms: seq<Move>, m: Move, f: nat, more: seq<Move>, r: nat)
    requires FailsAt(Run(START, ms), m, f) && WaitsFor(Run(START, ms), r, f)
    ensures var w, later := Run(START, ms), Run(START, ms + [m] + more);
            r < |later.requests| && later.requests[r] == w.requests[r].(phase := Rejected) && later.requests[r].sends == 1
  {
    hide Run, Fail, Inv;
    RunKeeps(ms);
    var w := Run(START, ms);
    RunOneMore(START, ms, m);
    ReadyFlight(w, f);
    WaiterEpochs(w, f, r);
    forall error
      ensures r < |Fail(w, f, error).requests| && Fail(w, f, error).requests[r] == w.requests[r].(phase := Rejected)
    {
      WaiterIsRefused(w, f, error, r);
    }
    RejectedForGood(ms + [m], more, r);
  }

  lemma WaiterEpochs(w: World, f: nat, r: nat)
    requires Inv(w) && f < |w.flights| && w.flights[f].outcome.None? && WaitsFor(w, r, f)
    ensures w.requests[r].sends == 1
  {
    WaitersAreQueued(w, f, r);
  }

  /**
   The request that began a failed refresh is rejected too, at once or, if the session itself was refused while
   still in force, when the stored tokens have been removed or their removal is given up.
   */
  lemma AFailureRefusesItsOwner(ms: seq<Move>, m: Move, f: nat)
    requires FailsAt(Run(START, ms), m, f)
    ensures var w, next := Run(START, ms), Step(Run(START, ms), m); var o := w.flights[f].owner;
            && o < |next.requests| && f < |next.flights|
            && (if SaysInvalid(m) && w.flights[f].epoch == w.epoch
                then next.flights[f].stage.Clearing? && next.requests[o].phase == Owning(f)
                else next.flights[f].stage.Finished? && next.requests[o].phase == Rejected)
  {
    hide Run, Fail, Step;
    RunKeeps(ms);
    var w := Run(START, ms);
    ReadyFlight(w, f);
    OwnerDoesNotWait(w, f);
    hide Inv;
    var error := FailingFails(w, m, f);
    OwnerOfFailure(w, f, error);
  }

  lemma OwnerOfFailure(w: World, f: nat, error: Problem)
    requires Ready(w, f) && w.flights[f].owner !in w.flights[f].queue && w.requests[w.flights[f].owner].phase == Owning(f)
    ensures var next := Fail(w, f, error); var o := w.flights[f].owner;
            && o < |next.requests| && f < |next.flights|
            && (if error.InvalidSession? && w.flights[f].epoch == w.epoch then next.flights[f].stage.Clearing? && next.requests[o].phase == Owning(f)
                else next.flights[f].stage.Finished? && next.requests[o].phase == Rejected)
  {
    hide Settlements;
  }

  lemma RemovalRefusesTheOwner(ms: seq<Move>, m: Move, f: nat)
    requires var w := Run(START, ms); f < |w.flights| && (w.flights[f].stage.Clearing? || w.flights[f].stage.Removing?)
    ensures var w, next := Run(START, ms), Step(Run(START, ms), m); var o := w.flights[f].owner;
            && f < |next.flights| && o < |next.requests|
            && (next.flights[f].stage.Finished? <==>
                  || (m == TokensRemoved(f) && w.flights[f].stage.Removing?)
                  || (m == WriteTurn(f) && w.flights[f].stage.Clearing? && w.writer.None? && w.flights[f].epoch != w.epoch))
            && (next.flights[f].stage.Finished? ==> next.requests[o].phase == Rejected)
  {
    hide Run, Step;
    RunKeeps(ms);
    var w := Run(START, ms);
    ReadyFlight(w, f);
    hide Inv;
    RequestsStay(w, m, w.flights[f].owner);
    if About(m, f) {
      StagesAdvance(w, m, f);
      LeavesRejected(w, m, f);
    } else {
      OtherFlightsStay(w, m, f);
    }
  }

  lemma RequestsStay(w: World, m: Move, r: nat)
    requires r < |w.requests|
    ensures r < |Step(w, m).requests|
  {
    hide StepFlight;
    FlightParties(w, m);
  }

  lemma LeavesRejected(w: World, m: Move, f: nat)
    requires Ready(w, f) && About(m, f) && (w.flights[f].stage.Clearing? || w.flights[f].stage.Removing?)
    ensures var next := Step(w, m); var o := w.flights[f].owner;
            f < |next.flights| && o < |next.requests| && (next.flights[f].stage.Finished? ==> next.requests[o].phase == Rejected)
  {
    hide Fail, OnProcessed;
  }

  // ----- the token of a refresh is the one that the server sent

  predicate Carries(stage: Stage, token: string) {
    stage == Storing(token) || stage == Securing(token) || stage == Writing(token) || stage == Written(token)
  }

  predicate HasToken(w: World, f: nat, token: string) {
    f < |w.flights| && (Carries(w.flights[f].stage, token) || w.flights[f].outcome == Some(Renewed(token)))
  }

  lemma TokenStep(w: World, m: Move, f: nat, token: string)
    requires Inv(w) && HasToken(Step(w, m), f, token)
    ensures HasToken(w, f, token) || m == Replied(f, Renewed(token))
  {
    hide Step, Fail;
    if f < |w.flights| {
      ReadyFlight(w, f);
      hide Inv;
      if !About(m, f) {
        OtherFlightsStay(w, m, f);
      } else if FailsAt(w, m, f) {
        var error := FailingFails(w, m, f);
        FailOutcome(w, f, error);
      } else {
        StagesAdvance(w, m, f);
        if m.QueueProcessed? && w.flights[f].stage.Written? {
          SucceedsAtTheEnd(w, m, f);
        }
      }
    } else {
      NewFlightsStart(w, m, f);
    }
  }

  lemma NewFlightsStart(w: World, m: Move, f: nat)
    requires |w.flights| <= f < |Step(w, m).flights|
    ensures Step(w, m).flights[f].stage.Starting? && Step(w, m).flights[f].outcome.None?
  {
    hide StepFlight;
    FlightParties(w, m);
  }

  /** In every run the token that a refresh stores, and serves to its waiters, is the one the server replied with. */
  lemma {:induction false} TokensAreReplied(ms: seq<Move>, f: nat, token: string)
    requires HasToken(Run(START, ms), f, token)
    ensures exists p :: 0 <= p < |ms| && ms[p] == Replied(f, Renewed(token))
    decreases |ms|
  {
    hide Step, Inv, HasToken;
    if ms == [] {
      RunNone();
      NothingYet(f, token);
    } else {
      var n := |ms| - 1;
      RunKeeps(ms[..n]);
      TokenStep(Run(START, ms[..n]), ms[n], f, token);
      if HasToken(Run(START, ms[..n]), f, token) {
        TokensAreReplied(ms[..n], f, token);
        var p :| 0 <= p < n && ms[..n][p] == Replied(f, Renewed(token));
        assert ms[p] == Replied(f, Renewed(token));
      }
    }
  }

  lemma NothingYet(f: nat, token: string)
    ensures !HasToken(START, f, token)
  {
  }

  /** When nothing goes wrong and nobody else writes, a refresh that begins gets its tokens written. */
  lemma ARefreshGoesThrough(ms: seq<Move>, f: nat, token: string)
    requires var w := Run(START, ms);
             f < |w.flights| && w.flights[f].stage == Starting && w.flights[f].epoch == w.epoch && w.writer.None?
    ensures var w := Run(START, ms);
            var later := Run(w, [Prepared(f, None), Replied(f, Renewed(token)), WriteTurn(f), SecuritySaved(f, None), TokensWritten(f, None)]);
            && later.requests == w.requests && WrittenInTime(later, f, token)
            && later.writer == None && later.writes == w.writes + [TokenWrite(f, w.epoch)]
  {
    hide Run, Step;
    RunKeeps(ms);
    var w := Run(START, ms);
    ReadyFlight(w, f);
    hide Inv;
    var a, b, c, d, e := Prepared(f, None), Replied(f, Renewed(token)), WriteTurn(f), SecuritySaved(f, None), TokensWritten(f, None);
    RunOneMore(w, [], a);
    RunOneMore(w, [a], b);
    RunOneMore(w, [a, b], c);
    RunOneMore(w, [a, b, c], d);
    RunOneMore(w, [a, b, c, d], e);
    assert [a] + [b] == [a, b] && [a, b] + [c] == [a, b, c] && [a, b, c] + [d] == [a, b, c, d] && [a, b, c, d] + [e] == [a, b, c, d, e];
    GoesThrough(w, f, token);
  }

  lemma GoesThrough(w: World, f: nat, token: string)
    requires Ready(w, f) && w.flights[f].stage == Starting && w.flights[f].epoch == w.epoch && w.writer.None?
    ensures var w1 := Step(w, Prepared(f, None));
            var w2 := Step(w1, Replied(f, Renewed(token)));
            var w3 := Step(w2, WriteTurn(f));
            var w4 := Step(w3, SecuritySaved(f, None));
            Step(w4, TokensWritten(f, None)) == AtStage(w, f, Written(token), None, w.writes + [TokenWrite(f, w.epoch)])
  {
    hide Step;
    var writes := w.writes + [TokenWrite(f, w.epoch)];
    PassesOn(w, f, token);
    Restaged(w, f, Posting, None, w.writes, Storing(token), None, w.writes);
    PassesOn(AtStage(w, f, Posting, None, w.writes), f, token);
    Restaged(w, f, Storing(token), None, w.writes, Securing(token), Some(f), w.writes);
    PassesOn(AtStage(w, f, Storing(token), None, w.writes), f, token);
    Restaged(w, f, Securing(token), Some(f), w.writes, Writing(token), Some(f), writes);
    PassesOn(AtStage(w, f, Securing(token), Some(f), w.writes), f, token);
    Restaged(w, f, Writing(token), Some(f), writes, Written(token), None, writes);
    PassesOn(AtStage(w, f, Writing(token), Some(f), writes), f, token);
  }

  lemma Restaged(w: World, f: nat, stage: Stage, writer: Option<nat>, writes: seq<TokenWrite>,
                 stage': Stage, writer': Option<nat>, writes': seq<TokenWrite>)
    requires Ready(w, f)
    ensures Ready(AtStage(w, f, stage, writer, writes), f)
    ensures AtStage(AtStage(w, f, stage, writer, writes), f, stage', writer', writes') == AtStage(w, f, stage', writer', writes')
  {
  }

  function AtStage(w: World, f: nat, stage: Stage, writer: Option<nat>, writes: seq<TokenWrite>): World
    requires f < |w.flights|
  {
    w.(flights := w.flights[f := w.flights[f].(stage := stage)], writer := writer, writes := writes)
  }

  lemma PassesOn(w: World, f: nat, token: string)
    requires Ready(w, f) && w.flights[f].epoch == w.epoch
    ensures w.flights[f].stage == Starting ==> Step(w, Prepared(f, None)) == AtStage(w, f, Posting, w.writer, w.writes)
    ensures w.flights[f].stage == Posting ==> Step(w, Replied(f, Renewed(token))) == AtStage(w, f, Storing(token), w.writer, w.writes)
    ensures w.flights[f].stage == Storing(token) && w.writer.None? ==>
              Step(w, WriteTurn(f)) == AtStage(w, f, Securing(token), Some(f), w.writes)
    ensures w.flights[f].stage == Securing(token) ==>
              Step(w, SecuritySaved(f, None)) == AtStage(w, f, Writing(token), w.writer, w.writes + [TokenWrite(f, w.epoch)])
    ensures w.flights[f].stage == Writing(token) && w.writer == Some(f) ==>
              Step(w, TokensWritten(f, None)) == AtStage(w, f, Written(token), None, w.writes)
  {
    hide Fail;
  }

  // ----- a 401, and what a request may still do

  /** In every run a 401 rejects the request if it was sent twice or its session is over; else it waits or begins a refresh. */
  lemma UnauthorizedDecides(ms: seq<Move>, r: nat)
    requires In(Run(START, ms), r, InFlight)
    ensures var w := Run(START, ms); var q := w.requests[r]; var next := Step(w, Unauthorized(r));
            && r < |next.requests|
            && (next.requests[r].phase == Rejected <==> q.sends == 2 || q.epoch != w.epoch)
            && (next.requests[r].phase != Rejected ==>
                  if w.refreshing.Some? && w.refreshing.value < |w.flights| && w.flights[w.refreshing.value].epoch == q.epoch then
                    var f := w.refreshing.value;
                    && next.requests[r].phase == Waiting(f) && f < |next.flights| == |w.flights| && next.refreshing == w.refreshing
                    && next.flights[f].queue == w.flights[f].queue + [r] && next.flights[f].stage == w.flights[f].stage
                  else
                    && next.requests[r].phase == Owning(|w.flights|) && next.refreshing == Some(|w.flights|)
                    && |next.flights| == |w.flights| + 1
                    && next.flights[|w.flights|] == Flight(q.epoch, r, [], Starting, None))
  {
    hide Run;
    RunKeeps(ms);
    SendsOf(Run(START, ms), r);
    hide Inv;
  }

  /** A request is sent exactly by its own move, ready and in the session it was prepared in. */
  lemma SentExactly(w: World, m: Move, r: nat)
    requires Inv(w) && r < |w.requests|
    ensures r < |Step(w, m).requests|
    ensures Step(w, m).requests[r].sends != w.requests[r].sends <==>
              m == Sent(r) && w.requests[r].phase.Preparing? && w.requests[r].epoch == w.epoch
  {
    hide Fail, OnProcessed, Inv;
    forall f: nat, error | Ready(w, f)
      ensures |Fail(w, f, error).requests| == |w.requests| && Fail(w, f, error).requests[r].sends == w.requests[r].sends
    {
      FailSendsNothing(w, f, error, r);
    }
    if m.QueueProcessed? && Ready(w, m.f) && w.flights[m.f].stage.Written? {
      ProcessedSendsNothing(w, m.f, r);
    }
  }

  /** A request begins in the session in force; an answer that comes after its session is an error, as any other error is. */
  lemma RequestsDecide(w: World, r: nat)
    requires r < |w.requests|
    ensures Step(w, NewRequest) == w.(requests := w.requests + [Request(w.epoch, 0, false, Preparing, None)])
    ensures w.requests[r].phase == InFlight ==>
              && Step(w, Answered(r)).requests[r].phase == (if w.requests[r].epoch == w.epoch then Fulfilled else Rejected)
              && Step(w, OtherError(r)).requests[r].phase == Rejected
    ensures w.requests[r].phase == Preparing && w.requests[r].epoch != w.epoch ==> Step(w, Sent(r)).requests[r].phase == Rejected
    ensures w.requests[r].phase.Resolved? && w.requests[r].epoch != w.epoch ==> Step(w, Resumed(r)).requests[r].phase == Rejected
    ensures Step(w, SessionChanges) == w.(epoch := w.epoch + 1)
  {
  }

  lemma FailSendsNothing(w: World, f: nat, error: Problem, r: nat)
    requires Ready(w, f) && r < |w.requests|
    ensures |Fail(w, f, error).requests| == |w.requests| && Fail(w, f, error).requests[r].sends == w.requests[r].sends
  {
  }

  lemma ProcessedSendsNothing(w: World, f: nat, r: nat)
    requires Ready(w, f) && w.flights[f].stage.Written? && r < |w.requests|
    ensures |OnProcessed(w, f).requests| == |w.requests| && OnProcessed(w, f).requests[r].sends == w.requests[r].sends
  {
    hide Fail;
    FailSendsNothing(w, f, OtherProblem, r);
  }
}
