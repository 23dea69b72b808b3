/** What every run of SessionRefresh keeps. */
module SessionRefreshRuns {
  import opened Wrappers
  import opened SessionRefresh

  // ----- the invariant

  predicate Sends(q: Request) {
    && q.sends <= (if q.retried then 2 else 1)
    && (q.phase.Preparing? ==> q.sends == (if q.retried then 1 else 0))
    && (q.phase.InFlight? ==> q.sends == (if q.retried then 2 else 1))
    && ((q.phase.Waiting? || q.phase.Owning? || q.phase.Resolved?) ==> q.retried && q.sends == 1)
    && (q.joined.Some? ==> q.retried)
  }

  predicate RequestOk(w: World, r: nat)
    requires r < |w.requests|
  {
    var q := w.requests[r];
    && Sends(q)
    && (q.phase.Owning? ==> q.joined.None?)
    && (q.phase.Owning? ==> var f := q.phase.flight; f < |w.flights| && w.flights[f].owner == r && !w.flights[f].stage.Finished?)
    && (q.phase.Waiting? ==> q.joined.Some? && q.joined.value.flight == q.phase.flight)
    && (q.joined.Some? ==>
          var f := q.joined.value.flight;
          && f < |w.flights|
          && (!q.joined.value.early ==> q.phase == Waiting(f) && w.flights[f].outcome.Some?)
          && (q.joined.value.early ==> (q.phase.Waiting? <==> w.flights[f].outcome.None?))
          && (q.phase.Waiting? && q.joined.value.early ==> r in w.flights[f].queue))
  }

  predicate Distinct(queue: seq<nat>) { forall i, j | 0 <= i < j < |queue| :: queue[i] != queue[j] }

  predicate FlightOk(w: World, f: nat)
    requires f < |w.flights|
  {
    var fl := w.flights[f];
    && fl.owner < |w.requests| && fl.epoch <= w.epoch
    && (!fl.stage.Finished? ==> w.requests[fl.owner].phase == Owning(f))
    && Distinct(fl.queue)
    && (forall q | q in fl.queue :: q < |w.requests| && w.requests[q].phase == Waiting(f)
                                    && w.requests[q].joined == Some(Joined(f, fl.outcome.None?)))
    && (fl.outcome.Some? <==> fl.stage.Clearing? || fl.stage.Removing? || fl.stage.Finished?)
    && (!fl.stage.Finished? && fl.epoch == w.epoch ==> w.refreshing == Some(f))
    && ((fl.stage.Securing? || fl.stage.Writing? || fl.stage.Removing?) <==> w.writer == Some(f))
  }

  predicate OneByEpoch(w: World) {
    forall f, g | 0 <= f < g < |w.flights| && !w.flights[f].stage.Finished? && !w.flights[g].stage.Finished? ::
      w.flights[f].epoch != w.flights[g].epoch
  }

  predicate SettlementOk(w: World, s: Settlement) {
    && s.waiter < |w.requests| && s.flight < |w.flights|
    && w.requests[s.waiter].joined == Some(Joined(s.flight, true))
    && w.flights[s.flight].outcome == Some(s.outcome)
  }

  predicate OneByWaiter(settled: seq<Settlement>) {
    forall i, j | 0 <= i < j < |settled| :: settled[i].waiter != settled[j].waiter
  }

  predicate IsSettled(w: World, r: nat) { exists i :: 0 <= i < |w.settled| && w.settled[i].waiter == r }

  predicate SettledWhenDue(w: World, r: nat)
    requires r < |w.requests|
  {
    var j := w.requests[r].joined;
    j.Some? && j.value.early && j.value.flight < |w.flights| && w.flights[j.value.flight].outcome.Some? ==> IsSettled(w, r)
  }

  ghost predicate Inv(w: World) {
    && (forall r | 0 <= r < |w.requests| :: RequestOk(w, r))
    && (forall f | 0 <= f < |w.flights| :: FlightOk(w, f))
    && (w.refreshing.Some? ==> w.refreshing.value < |w.flights| && !w.flights[w.refreshing.value].stage.Finished?)
    && (w.writer.Some? ==> w.writer.value < |w.flights|)
    && OneByEpoch(w)
    && (forall s | s in w.settled :: SettlementOk(w, s))
    && OneByWaiter(w.settled)
    && (forall r | 0 <= r < |w.requests| :: SettledWhenDue(w, r))
    && (forall x | x in w.writes :: x.flight < |w.flights| && w.flights[x.flight].epoch == x.epoch)
  }

  // ----- requests

  predicate Free(phase: ReqPhase) { !phase.Waiting? && !phase.Owning? }

  /** A request that neither waits nor refreshes may change alone. */
  lemma ChangeRequest(w: World, r: nat, q: Request)
    requires Inv(w) && r < |w.requests| && Free(w.requests[r].phase) && Free(q.phase)
    requires Sends(q) && q.joined == w.requests[r].joined
    ensures Inv(w.(requests := w.requests[r := q]))
  {
    hide Sends, Distinct, OneByWaiter;
    var next := w.(requests := w.requests[r := q]);
    forall k | 0 <= k < |next.requests|
      ensures RequestOk(next, k) && SettledWhenDue(next, k)
    {
      assert RequestOk(w, k) && SettledWhenDue(w, k);
      assert IsSettled(next, k) == IsSettled(w, k);
    }
    forall f | 0 <= f < |next.flights|
      ensures FlightOk(next, f)
    {
      assert FlightOk(w, f);
    }
    forall s | s in next.settled
      ensures SettlementOk(next, s)
    {
      assert SettlementOk(w, s);
    }
  }

  lemma NewRequestKeeps(w: World)
    requires Inv(w)
    ensures Inv(StepRequest(w, NewRequest))
  {
    hide Distinct, OneByWaiter;
    var next := StepRequest(w, NewRequest);
    forall k | 0 <= k < |next.requests|
      ensures RequestOk(next, k) && SettledWhenDue(next, k)
    {
      if k < |w.requests| {
        assert RequestOk(w, k) && SettledWhenDue(w, k);
        assert IsSettled(next, k) == IsSettled(w, k);
      }
    }
    forall f | 0 <= f < |next.flights|
      ensures FlightOk(next, f)
    {
      assert FlightOk(w, f);
    }
    forall s | s in next.settled
      ensures SettlementOk(next, s)
    {
      assert SettlementOk(w, s);
    }
  }

  lemma RequestStepKeeps(w: World, m: Move)
    requires Inv(w) && !m.Unauthorized?
    ensures Inv(StepRequest(w, m))
  {
    hide Inv;
    match m
    case NewRequest => NewRequestKeeps(w);
    case Sent(r) =>
      if In(w, r, Preparing) {
        SendsOf(w, r);
        ChangeRequest(w, r, w.requests[r].(phase := Rejected));
        ChangeRequest(w, r, w.requests[r].(sends := w.requests[r].sends + 1, phase := InFlight));
      }
    case Answered(r) =>
      if In(w, r, InFlight) {
        SendsOf(w, r);
        ChangeRequest(w, r, w.requests[r].(phase := Rejected));
        ChangeRequest(w, r, w.requests[r].(phase := Fulfilled));
      }
    case OtherError(r) =>
      if In(w, r, InFlight) {
        SendsOf(w, r);
        ChangeRequest(w, r, w.requests[r].(phase := Rejected));
      }
    case Resumed(r) =>
      if r < |w.requests| && w.requests[r].phase.Resolved? {
        SendsOf(w, r);
        ChangeRequest(w, r, w.requests[r].(phase := Rejected));
        ChangeRequest(w, r, w.requests[r].(phase := Preparing));
      }
    case _ =>
  }

  lemma SendsOf(w: World, r: nat)
    requires Inv(w) && r < |w.requests|
    ensures Sends(w.requests[r])
  {
    assert RequestOk(w, r);
  }

  lemma NeverJoined(w: World, r: nat)
    requires Inv(w) && r < |w.requests| && !w.requests[r].retried
    ensures w.requests[r].joined.None? && Free(w.requests[r].phase) && forall s | s in w.settled :: s.waiter != r
  {
    assert RequestOk(w, r);
    forall s | s in w.settled
      ensures s.waiter != r
    {
      assert SettlementOk(w, s);
    }
  }

  /** A request joins the queue of the refresh of its epoch. */
  lemma JoinKeeps(w: World, r: nat, f: nat)
    requires Inv(w) && In(w, r, InFlight) && !w.requests[r].retried && w.refreshing == Some(f) && f < |w.flights|
    requires Current(w, w.requests[r].epoch) && w.flights[f].epoch == w.requests[r].epoch
    ensures Inv(OnUnauthorized(w, r))
  {
    hide OneByWaiter;
    var next := OnUnauthorized(w, r);
    NeverJoined(w, r);
    assert RequestOk(w, r) && FlightOk(w, f);
    forall k | 0 <= k < |next.requests|
      ensures RequestOk(next, k) && SettledWhenDue(next, k)
    {
      assert RequestOk(w, k) && SettledWhenDue(w, k);
      assert IsSettled(next, k) == IsSettled(w, k);
    }
    forall g | 0 <= g < |next.flights|
      ensures FlightOk(next, g)
    {
      assert FlightOk(w, g);
    }
    forall s | s in next.settled
      ensures SettlementOk(next, s)
    {
      assert SettlementOk(w, s);
    }
  }

  /** A request starts the refresh of its epoch. */
  lemma OwnKeeps(w: World, r: nat)
    requires Inv(w) && In(w, r, InFlight) && !w.requests[r].retried && Current(w, w.requests[r].epoch)
    requires w.refreshing.Some? ==> w.flights[w.refreshing.value].epoch != w.requests[r].epoch
    ensures Inv(OnUnauthorized(w, r))
  {
    hide OneByWaiter;
    var next := OnUnauthorized(w, r);
    NeverJoined(w, r);
    assert RequestOk(w, r);
    forall k | 0 <= k < |next.requests|
      ensures RequestOk(next, k) && SettledWhenDue(next, k)
    {
      assert RequestOk(w, k) && SettledWhenDue(w, k);
      assert IsSettled(next, k) == IsSettled(w, k);
    }
    forall g | 0 <= g < |next.flights|
      ensures FlightOk(next, g)
    {
      if g < |w.flights| {
        assert FlightOk(w, g);
      }
    }
    forall g | 0 <= g < |w.flights| && !w.flights[g].stage.Finished?
      ensures w.flights[g].epoch != w.requests[r].epoch
    {
      assert FlightOk(w, g);
    }
    forall s | s in next.settled
      ensures SettlementOk(next, s)
    {
      assert SettlementOk(w, s);
    }
  }

  lemma UnauthorizedKeeps(w: World, r: nat)
    requires Inv(w) && In(w, r, InFlight)
    ensures Inv(OnUnauthorized(w, r))
  {
    var q := w.requests[r];
    assert RequestOk(w, r);
    if q.retried {
      ChangeRequest(w, r, q.(phase := Rejected));
    } else if !Current(w, q.epoch) {
      var next := OnUnauthorized(w, r);
      assert next.requests == w.requests[r := q.(retried := true, phase := Rejected)];
      ChangeRequest(w, r, q.(retried := true, phase := Rejected));
    } else if w.refreshing.Some? && w.flights[w.refreshing.value].epoch == q.epoch {
      JoinKeeps(w, r, w.refreshing.value);
    } else {
      OwnKeeps(w, r);
    }
  }

  // ----- flights

  lemma SessionChangeKeeps(w: World)
    requires Inv(w)
    ensures Inv(w.(epoch := w.epoch + 1))
  {
    hide Distinct, OneByWaiter;
    var next := w.(epoch := w.epoch + 1);
    forall k | 0 <= k < |next.requests|
      ensures RequestOk(next, k) && SettledWhenDue(next, k)
    {
      assert RequestOk(w, k) && SettledWhenDue(w, k);
      assert IsSettled(next, k) == IsSettled(w, k);
    }
    forall f | 0 <= f < |next.flights|
      ensures FlightOk(next, f)
    {
      assert FlightOk(w, f);
    }
    forall s | s in next.settled
      ensures SettlementOk(next, s)
    {
      assert SettlementOk(w, s);
    }
  }

  predicate HoldsWriter(stage: Stage) { stage.Securing? || stage.Writing? || stage.Removing? }

  /** A flight moves to another stage on the same side of its outcome. */
  lemma ChangeStage(w: World, f: nat, stage: Stage, writer: Option<nat>, writes: seq<TokenWrite>)
    requires Inv(w) && f < |w.flights| && !w.flights[f].stage.Finished? && !stage.Finished?
    requires (stage.Clearing? || stage.Removing?) == w.flights[f].outcome.Some?
    requires writer == (if HoldsWriter(stage) then Some(f) else if w.writer == Some(f) then None else w.writer)
    requires HoldsWriter(stage) ==> w.writer.None? || w.writer == Some(f)
    requires writes == w.writes || (writes == w.writes + [TokenWrite(f, w.epoch)] && Current(w, w.flights[f].epoch))
    ensures Inv(SetStage(w, f, stage).(writer := writer, writes := writes))
  {
    hide Distinct, OneByWaiter, Sends, HoldsWriter;
    var next := SetStage(w, f, stage).(writer := writer, writes := writes);
    forall k | 0 <= k < |next.requests|
      ensures RequestOk(next, k) && SettledWhenDue(next, k)
    {
      assert RequestOk(w, k) && SettledWhenDue(w, k);
      assert IsSettled(next, k) == IsSettled(w, k);
    }
    forall g | 0 <= g < |next.flights|
      ensures FlightOk(next, g)
    {
      StageFlight(w, f, stage, writer, writes, g);
    }
    forall s | s in next.settled
      ensures SettlementOk(next, s)
    {
      assert SettlementOk(w, s);
    }
    assert FlightOk(w, f);
  }

  lemma StageFlight(w: World, f: nat, stage: Stage, writer: Option<nat>, writes: seq<TokenWrite>, g: nat)
    requires Inv(w) && f < |w.flights| && !w.flights[f].stage.Finished? && !stage.Finished? && g < |w.flights|
    requires (stage.Clearing? || stage.Removing?) == w.flights[f].outcome.Some?
    requires writer == (if HoldsWriter(stage) then Some(f) else if w.writer == Some(f) then None else w.writer)
    requires HoldsWriter(stage) ==> w.writer.None? || w.writer == Some(f)
    ensures FlightOk(SetStage(w, f, stage).(writer := writer, writes := writes), g)
  {
    hide Distinct, RequestOk, SettledWhenDue, OneByWaiter, OneByEpoch, SettlementOk;
    assert FlightOk(w, g);
  }

  /** A flight settles its queue with an outcome and goes on to `stage`; its own request to `phase`. */
  function Ended(w: World, f: nat, outcome: Outcome, stage: Stage, phase: ReqPhase): World
    requires Ready(w, f)
  {
    var fl := w.flights[f];
    var requests := SettleAll(w.requests, fl.queue, outcome);
    w.(requests := requests[fl.owner := requests[fl.owner].(phase := phase)],
       settled := w.settled + Settlements(fl.queue, f, outcome),
       flights := w.flights[f := fl.(queue := [], outcome := Some(outcome), stage := stage)],
       refreshing := if stage.Finished? && w.refreshing == Some(f) then None else w.refreshing,
       writer := if w.writer == Some(f) then None else w.writer)
  }

  predicate Settles(stage: Stage, phase: ReqPhase, f: nat) {
    (stage.Clearing? && phase == Owning(f)) || (stage.Finished? && (phase.Rejected? || phase.Preparing?))
  }

  lemma EndedRequests(w: World, f: nat, outcome: Outcome, stage: Stage, phase: ReqPhase, k: nat)
    requires Inv(w) && Ready(w, f) && w.flights[f].outcome.None? && Settles(stage, phase, f) && k < |w.requests|
    ensures var next := Ended(w, f, outcome, stage, phase); RequestOk(next, k) && SettledWhenDue(next, k)
  {
    var next, fl := Ended(w, f, outcome, stage, phase), w.flights[f];
    assert RequestOk(w, k) && SettledWhenDue(w, k) && FlightOk(w, f) && RequestOk(w, fl.owner);
    if k in fl.queue {
      var i :| 0 <= i < |fl.queue| && fl.queue[i] == k;
      assert next.settled[|w.settled| + i].waiter == k;
    } else if IsSettled(w, k) {
      var i :| 0 <= i < |w.settled| && w.settled[i].waiter == k;
      assert next.settled[i].waiter == k;
    }
  }

  lemma EndedFlights(w: World, f: nat, outcome: Outcome, stage: Stage, phase: ReqPhase, g: nat)
    requires Inv(w) && Ready(w, f) && w.flights[f].outcome.None? && Settles(stage, phase, f) && g < |w.flights|
    ensures FlightOk(Ended(w, f, outcome, stage, phase), g)
  {
    hide OneByEpoch, OneByWaiter, IsSettled;
    var fl := w.flights[f];
    assert FlightOk(w, f) && FlightOk(w, g);
    assert w.requests[fl.owner].phase == Owning(f);
    assert w.requests[w.flights[g].owner].phase == Owning(g) || w.flights[g].stage.Finished?;
  }

  lemma EndedSettlements(w: World, f: nat, outcome: Outcome, stage: Stage, phase: ReqPhase)
    requires Inv(w) && Ready(w, f) && w.flights[f].outcome.None? && Settles(stage, phase, f)
    ensures var next := Ended(w, f, outcome, stage, phase);
            OneByWaiter(next.settled) && forall s | s in next.settled :: SettlementOk(next, s)
  {
    hide OneByEpoch, IsSettled;
    var next, fl := Ended(w, f, outcome, stage, phase), w.flights[f];
    assert FlightOk(w, f);
    forall i | 0 <= i < |next.settled|
      ensures SettlementOk(next, next.settled[i])
      ensures i < |w.settled| ==> next.settled[i].waiter !in fl.queue
      ensures i >= |w.settled| ==> next.settled[i].waiter == fl.queue[i - |w.settled|]
    {
      if i < |w.settled| {
        assert w.settled[i] in w.settled && SettlementOk(w, w.settled[i]);
      } else {
        assert fl.queue[i - |w.settled|] in fl.queue;
      }
    }
  }

  lemma EndKeeps(w: World, f: nat, outcome: Outcome, stage: Stage, phase: ReqPhase)
    requires Inv(w) && Ready(w, f) && w.flights[f].outcome.None? && Settles(stage, phase, f)
    ensures Inv(Ended(w, f, outcome, stage, phase))
  {
    hide Sends, IsSettled, SettlementOk, OneByWaiter, Settlements, SettleAll;
    var next := Ended(w, f, outcome, stage, phase);
    forall k | 0 <= k < |next.requests|
      ensures RequestOk(next, k) && SettledWhenDue(next, k)
    {
      EndedRequests(w, f, outcome, stage, phase, k);
    }
    forall g | 0 <= g < |next.flights|
      ensures FlightOk(next, g)
    {
      EndedFlights(w, f, outcome, stage, phase, g);
    }
    EndedSettlements(w, f, outcome, stage, phase);
    assert FlightOk(w, f);
  }

  lemma ReadyFlight(w: World, f: nat)
    requires Inv(w) && f < |w.flights|
    ensures Ready(w, f)
    ensures var fl := w.flights[f]; fl.outcome.Some? <==> fl.stage.Clearing? || fl.stage.Removing? || fl.stage.Finished?
    ensures var fl := w.flights[f]; !fl.stage.Finished? ==> w.requests[fl.owner].phase == Owning(f)
    ensures HoldsWriter(w.flights[f].stage) <==> w.writer == Some(f)
  {
    assert FlightOk(w, f);
  }

  lemma FailKeeps(w: World, f: nat, error: Problem)
    requires Inv(w) && f < |w.flights| && w.flights[f].outcome.None? && Ready(w, f)
    ensures Inv(Fail(w, f, error))
  {
    hide Inv, OneByEpoch;
    ReadyFlight(w, f);
    var fl := w.flights[f];
    OwnerDoesNotWait(w, f);
    if error.InvalidSession? && Current(w, fl.epoch) {
      EndKeeps(w, f, Refused(error), Clearing, Owning(f));
      assert Fail(w, f, error).requests == Ended(w, f, Refused(error), Clearing, Owning(f)).requests;
      assert Fail(w, f, error) == Ended(w, f, Refused(error), Clearing, Owning(f));
    } else {
      EndKeeps(w, f, Refused(error), Finished, Rejected);
      assert Fail(w, f, error).requests == Ended(w, f, Refused(error), Finished, Rejected).requests;
      assert Fail(w, f, error) == Ended(w, f, Refused(error), Finished, Rejected);
    }
  }

  lemma OwnerDoesNotWait(w: World, f: nat)
    requires Inv(w) && f < |w.flights| && !w.flights[f].stage.Finished?
    ensures w.flights[f].owner !in w.flights[f].queue
  {
    assert FlightOk(w, f);
  }

  lemma ProcessedKeeps(w: World, f: nat)
    requires Inv(w) && f < |w.flights| && w.flights[f].stage.Written? && Ready(w, f)
    ensures Inv(OnProcessed(w, f))
  {
    hide Inv, OneByEpoch;
    ReadyFlight(w, f);
    if Current(w, w.flights[f].epoch) {
      var token := w.flights[f].stage.token;
      EndKeeps(w, f, Renewed(token), Finished, Preparing);
      OwnerDoesNotWait(w, f);
      assert OnProcessed(w, f).requests == Ended(w, f, Renewed(token), Finished, Preparing).requests;
      assert OnProcessed(w, f) == Ended(w, f, Renewed(token), Finished, Preparing);
    } else {
      FailKeeps(w, f, OtherProblem);
    }
  }

  lemma ProceedKeeps(w: World, f: nat, error: Option<Problem>, stage: Stage)
    requires Inv(w) && f < |w.flights| && w.flights[f].outcome.None? && Ready(w, f)
    requires !stage.Finished? && !stage.Clearing? && !stage.Removing? && (HoldsWriter(stage) <==> w.writer == Some(f))
    ensures Inv(Proceed(w, f, error, stage))
  {
    hide Inv, Fail;
    ReadyFlight(w, f);
    if error.Some? {
      FailKeeps(w, f, error.value);
    } else if !Current(w, w.flights[f].epoch) {
      FailKeeps(w, f, OtherProblem);
    } else {
      ChangeStage(w, f, stage, w.writer, w.writes);
    }
  }

  /** The removal of the tokens ends, or never starts: the flight is over, its queue as it was. */
  lemma LeaveKeeps(w: World, f: nat)
    requires Inv(w) && f < |w.flights| && Ready(w, f) && (w.flights[f].stage.Clearing? || w.flights[f].stage.Removing?)
    ensures Inv(SetPhase(Finish(w, f), w.flights[f].owner, Rejected))
  {
    hide Distinct, OneByWaiter, Sends;
    var next, owner := SetPhase(Finish(w, f), w.flights[f].owner, Rejected), w.flights[f].owner;
    assert FlightOk(w, f) && RequestOk(w, owner);
    SendsOf(w, owner);
    assert Sends(next.requests[owner]) by { RejectedSends(w.requests[owner]); }
    forall k | 0 <= k < |next.requests|
      ensures RequestOk(next, k) && SettledWhenDue(next, k)
    {
      assert RequestOk(w, k) && SettledWhenDue(w, k);
      assert IsSettled(next, k) == IsSettled(w, k);
    }
    forall g | 0 <= g < |next.flights|
      ensures FlightOk(next, g)
    {
      assert FlightOk(w, g);
    }
    forall s | s in next.settled
      ensures SettlementOk(next, s)
    {
      assert SettlementOk(w, s);
    }
  }

  lemma RejectedSends(q: Request)
    requires Sends(q)
    ensures Sends(q.(phase := Rejected))
  {
  }

  lemma WriteTurnKeeps(w: World, f: nat)
    requires Inv(w) && f < |w.flights| && Ready(w, f)
    ensures Inv(OnWriteTurn(w, f))
  {
    hide Inv, Fail;
    ReadyFlight(w, f);
    var fl := w.flights[f];
    if w.writer.None? && fl.stage.Storing? {
      if Current(w, fl.epoch) {
        ChangeStage(w, f, Securing(fl.stage.token), Some(f), w.writes);
        assert OnWriteTurn(w, f) == SetStage(w, f, Securing(fl.stage.token)).(writer := Some(f), writes := w.writes);
      } else {
        FailKeeps(w, f, OtherProblem);
      }
    } else if w.writer.None? && fl.stage.Clearing? {
      if Current(w, fl.epoch) {
        ChangeStage(w, f, Removing, Some(f), w.writes + [TokenWrite(f, w.epoch)]);
      } else {
        LeaveKeeps(w, f);
      }
    }
  }

  lemma SecuritySavedKeeps(w: World, f: nat, error: Option<Problem>)
    requires Inv(w) && f < |w.flights| && Ready(w, f) && w.flights[f].stage.Securing?
    ensures Inv(OnSecuritySaved(w, f, error))
  {
    hide Inv, Fail;
    ReadyFlight(w, f);
    var writing := Writing(w.flights[f].stage.token);
    ProceedKeeps(w, f, error, writing);
    if error.None? && Current(w, w.flights[f].epoch) {
      ChangeStage(w, f, writing, w.writer, w.writes + [TokenWrite(f, w.epoch)]);
      assert OnSecuritySaved(w, f, error)
          == SetStage(w, f, writing).(writer := w.writer, writes := w.writes + [TokenWrite(f, w.epoch)]);
    } else {
      FailLeavesWriting(w, f, if error.Some? then error.value else OtherProblem, writing);
    }
  }

  lemma FailLeavesWriting(w: World, f: nat, error: Problem, writing: Stage)
    requires Ready(w, f) && writing.Writing?
    ensures !At(Fail(w, f, error), f, writing)
    ensures Fail(w, f, error).writer == if w.writer == Some(f) then None else w.writer
  {
  }

  lemma TokensWrittenKeeps(w: World, f: nat, error: Option<Problem>)
    requires Inv(w) && f < |w.flights| && Ready(w, f) && w.flights[f].stage.Writing?
    ensures Inv(StepFlight(w, TokensWritten(f, error)))
  {
    hide Inv, Fail;
    ReadyFlight(w, f);
    var token := w.flights[f].stage.token;
    if error.None? && Current(w, w.flights[f].epoch) {
      ChangeStage(w, f, Written(token), None, w.writes);
      assert StepFlight(w, TokensWritten(f, error)) == SetStage(w, f, Written(token)).(writer := None, writes := w.writes);
    } else {
      var problem := if error.Some? then error.value else OtherProblem;
      FailKeeps(w, f, problem);
      FailLeavesWriting(w, f, problem, Writing(token));
      assert StepFlight(w, TokensWritten(f, error)) == Fail(w, f, problem);
    }
  }

  lemma FlightStepKeeps(w: World, m: Move)
    requires Inv(w)
    ensures Inv(StepFlight(w, m))
  {
    hide Inv, Fail, OnProcessed, OnWriteTurn, OnSecuritySaved, Ready;
    match m
    case Prepared(f, error) =>
      if f < |w.flights| && At(w, f, Starting) {
        ReadyFlight(w, f);
        ProceedKeeps(w, f, error, Posting);
      }
    case Replied(f, reply) =>
      if f < |w.flights| && At(w, f, Posting) {
        ReadyFlight(w, f);
        match reply
        case Renewed(token) => ProceedKeeps(w, f, None, Storing(token));
        case Refused(problem) => FailKeeps(w, f, problem);
      }
    case WriteTurn(f) =>
      NotReady(w, f);
      if f < |w.flights| {
        ReadyFlight(w, f);
        WriteTurnKeeps(w, f);
      }
    case SecuritySaved(f, error) =>
      NotReady(w, f);
      if f < |w.flights| && w.flights[f].stage.Securing? {
        ReadyFlight(w, f);
        SecuritySavedKeeps(w, f, error);
      }
    case TokensWritten(f, error) =>
      NotReady(w, f);
      if f < |w.flights| && w.flights[f].stage.Writing? {
        ReadyFlight(w, f);
        TokensWrittenKeeps(w, f, error);
      }
    case QueueProcessed(f) =>
      NotReady(w, f);
      if f < |w.flights| && w.flights[f].stage.Written? {
        ReadyFlight(w, f);
        ProcessedKeeps(w, f);
      }
    case TokensRemoved(f) =>
      if f < |w.flights| && At(w, f, Removing) {
        ReadyFlight(w, f);
        LeaveKeeps(w, f);
      }
    case _ =>
  }

  lemma NotReady(w: World, f: nat)
    ensures f >= |w.flights| ==> !Ready(w, f)
  {
  }

  lemma StepKeeps(w: World, m: Move)
    requires Inv(w)
    ensures Inv(Step(w, m))
  {
    hide Inv, StepFlight, OnUnauthorized;
    match m
    case SessionChanges => SessionChangeKeeps(w);
    case Unauthorized(r) =>
      if In(w, r, InFlight) {
        UnauthorizedKeeps(w, r);
      }
    case NewRequest => RequestStepKeeps(w, m);
    case Sent(_) => RequestStepKeeps(w, m);
    case Answered(_) => RequestStepKeeps(w, m);
    case OtherError(_) => RequestStepKeeps(w, m);
    case Resumed(_) => RequestStepKeeps(w, m);
    case _ => FlightStepKeeps(w, m);
  }

  lemma {:induction false} RunKeeps(ms: seq<Move>)
    ensures Inv(Run(START, ms))
  {
    hide Step;
    if ms != [] {
      hide Inv;
      RunKeeps(ms[..|ms| - 1]);
      StepKeeps(Run(START, ms[..|ms| - 1]), ms[|ms| - 1]);
    }
  }

  // ----- what every run keeps

  /** At most one refresh is in flight for an epoch. */
  lemma OneRefreshPerEpoch(ms: seq<Move>)
    ensures var flights := Run(START, ms).flights;
            forall f, g | 0 <= f < g < |flights| && !flights[f].stage.Finished? && !flights[g].stage.Finished? ::
              flights[f].epoch != flights[g].epoch
  {
    hide Run;
    RunKeeps(ms);
  }

  lemma SentAtMostTwice(ms: seq<Move>)
    ensures forall q | q in Run(START, ms).requests :: q.sends <= 2
  {
    hide Run, Inv;
    RunKeeps(ms);
    forall r | 0 <= r < |Run(START, ms).requests|
      ensures Run(START, ms).requests[r].sends <= 2
    {
      SendsOf(Run(START, ms), r);
    }
  }

  /** Tokens begin to be written, or removed, only in the epoch of their refresh, and by one refresh at a time. */
  lemma TokensAreWrittenInTime(ms: seq<Move>)
    ensures var w := Run(START, ms);
            forall x | x in w.writes :: x.flight < |w.flights| && w.flights[x.flight].epoch == x.epoch
    ensures var flights := Run(START, ms).flights;
            forall f, g | 0 <= f < g < |flights| :: !(HoldsWriter(flights[f].stage) && HoldsWriter(flights[g].stage))
  {
    hide Run;
    RunKeeps(ms);
    var w := Run(START, ms);
    forall f, g | 0 <= f < g < |w.flights|
      ensures !(HoldsWriter(w.flights[f].stage) && HoldsWriter(w.flights[g].stage))
    {
      assert FlightOk(w, f) && FlightOk(w, g);
    }
  }

  /** A waiter that joined before its refresh settled the queue: still queued, or settled once with that refresh's outcome. */
  lemma EarlyWaitersAreSettledOnce(ms: seq<Move>)
    ensures forall r | Joins(Run(START, ms), r, true) :: ServedOnce(Run(START, ms), r)
  {
    hide Run, Inv, ServedOnce;
    RunKeeps(ms);
    forall r | Joins(Run(START, ms), r, true)
      ensures ServedOnce(Run(START, ms), r)
    {
      EarlyWaiterIsSettledOnce(Run(START, ms), r);
    }
  }

  predicate Joins(w: World, r: nat, early: bool) {
    r < |w.requests| && w.requests[r].joined.Some? && w.requests[r].joined.value.early == early
  }

  ghost predicate ServedOnce(w: World, r: nat)
    requires Joins(w, r, true)
  {
    var f := w.requests[r].joined.value.flight;
    && f < |w.flights|
    && match w.flights[f].outcome
       case None => r in w.flights[f].queue && !IsSettled(w, r)
       case Some(o) =>
         exists i ::
           && 0 <= i < |w.settled| && w.settled[i] == Settlement(r, f, o)
           && forall j | 0 <= j < |w.settled| && j != i :: w.settled[j].waiter != r
  }

  lemma EarlyWaiterIsSettledOnce(w: World, r: nat)
    requires Inv(w) && Joins(w, r, true)
    ensures ServedOnce(w, r)
  {
    hide Sends;
    assert RequestOk(w, r) && SettledWhenDue(w, r);
    forall i | 0 <= i < |w.settled|
      ensures SettlementOk(w, w.settled[i])
    {
      assert w.settled[i] in w.settled;
    }
    if IsSettled(w, r) {
      var i :| 0 <= i < |w.settled| && w.settled[i].waiter == r;
      assert SettlementOk(w, w.settled[i]);
      assert w.settled[i] == Settlement(r, w.settled[i].flight, w.settled[i].outcome);
    }
  }

  // ----- the window after the refusal of the queue

  lemma FailKeepsJoined(w: World, f: nat, error: Problem, r: nat)
    requires Ready(w, f) && r < |w.requests|
    ensures r < |Fail(w, f, error).requests| && Fail(w, f, error).requests[r].joined == w.requests[r].joined
  {
  }

  lemma ProcessedKeepsJoined(w: World, f: nat, r: nat)
    requires Ready(w, f) && w.flights[f].stage.Written? && r < |w.requests|
    ensures r < |OnProcessed(w, f).requests| && OnProcessed(w, f).requests[r].joined == w.requests[r].joined
  {
    hide Fail;
    FailKeepsJoined(w, f, OtherProblem, r);
  }

  lemma FlightKeepsJoined(w: World, m: Move, r: nat)
    requires r < |w.requests|
    ensures r < |StepFlight(w, m).requests| && StepFlight(w, m).requests[r].joined == w.requests[r].joined
  {
    hide Fail, OnProcessed;
    forall f, error | Ready(w, f)
      ensures r < |Fail(w, f, error).requests| && Fail(w, f, error).requests[r].joined == w.requests[r].joined
    {
      FailKeepsJoined(w, f, error, r);
    }
    match m
    case QueueProcessed(f) =>
      if Ready(w, f) && w.flights[f].stage.Written? {
        ProcessedKeepsJoined(w, f, r);
      }
    case _ =>
  }

  lemma JoinedStays(w: World, m: Move, r: nat)
    requires Inv(w) && r < |w.requests| && w.requests[r].joined.Some?
    ensures r < |Step(w, m).requests| && Step(w, m).requests[r].joined == w.requests[r].joined
  {
    hide Inv, StepFlight;
    SendsOf(w, r);
    FlightKeepsJoined(w, m, r);
  }

  /** A late waiter waits for ever, whatever happens next. */
  lemma {:induction false} LateWaitersWaitForever(before: seq<Move>, more: seq<Move>, r: nat)
    ensures Joins(Run(START, before), r, false) ==>
              var w := Run(START, before + more); r < |w.requests| && w.requests[r].phase.Waiting? && !IsSettled(w, r)
    decreases |more|
  {
    hide Run, Step, Sends;
    if !Joins(Run(START, before), r, false) {
    } else if more == [] {
      assert before + more == before;
      RunKeeps(before);
      var w := Run(START, before);
      assert RequestOk(w, r);
      forall i | 0 <= i < |w.settled|
        ensures w.settled[i].waiter != r
      {
        assert w.settled[i] in w.settled && SettlementOk(w, w.settled[i]);
      }
    } else {
      RunKeeps(before);
      JoinedStays(Run(START, before), more[0], r);
      RunOne(before, more[0]);
      assert before + more == (before + [more[0]]) + more[1..];
      LateWaitersWaitForever(before + [more[0]], more[1..], r);
    }
  }

  lemma RunOne(ms: seq<Move>, m: Move)
    ensures Run(START, ms + [m]) == Step(Run(START, ms), m)
  {
    assert (ms + [m])[..|ms|] == ms;
  }

  /** A 401 joins late exactly while the refresh of its epoch has settled its queue and removes the tokens. */
  lemma JoinsLateExactly(ms: seq<Move>, r: nat)
    requires var w := Run(START, ms); In(w, r, InFlight) && !w.requests[r].retried
    ensures var w := Run(START, ms); var j := Step(w, Unauthorized(r)).requests[r].joined;
            j.Some? && !j.value.early <==>
              && Current(w, w.requests[r].epoch) && w.refreshing.Some? && w.refreshing.value < |w.flights|
              && w.flights[w.refreshing.value].epoch == w.requests[r].epoch
              && (w.flights[w.refreshing.value].stage.Clearing? || w.flights[w.refreshing.value].stage.Removing?)
  {
    hide Run, Inv;
    RunKeeps(ms);
    var w := Run(START, ms);
    NeverJoined(w, r);
    RefreshingRuns(w);
    if w.refreshing.Some? {
      ReadyFlight(w, w.refreshing.value);
    }
  }

  lemma RefreshingRuns(w: World)
    requires Inv(w)
    ensures w.refreshing.Some? ==> w.refreshing.value < |w.flights| && !w.flights[w.refreshing.value].stage.Finished?
  {
  }

  const LATE_401 := [
    NewRequest, NewRequest, Sent(0), Sent(1), Unauthorized(0), Prepared(0, None), Replied(0, Refused(InvalidSession)), Unauthorized(1)]

  /** The window exists: two requests, an invalid session, and the second 401 during the removal. */
  lemma TheWindowIsReachable()
    ensures var w := Run(START, LATE_401); |w.requests| == 2 && w.requests[1].joined == Some(Joined(0, false))
  {
    hide Run;
    RunNone();
    var idle, flying := Request(0, 0, false, Preparing, None), Request(0, 1, false, InFlight, None);
    var owning := flying.(retried := true, phase := Owning(0));
    var ms: seq<Move> := [];
    ms := Extended(ms, NewRequest);
    ms := Extended(ms, NewRequest);
    assert Run(START, ms) == START.(requests := [idle, idle]);
    ms := Extended(ms, Sent(0));
    ms := Extended(ms, Sent(1));
    assert Run(START, ms) == START.(requests := [flying, flying]);
    ms := Extended(ms, Unauthorized(0));
    var flight := Flight(0, 0, [], Starting, None);
    assert Run(START, ms) == START.(requests := [owning, flying], flights := [flight], refreshing := Some(0));
    ms := Extended(ms, Prepared(0, None));
    assert Run(START, ms) == START.(requests := [owning, flying], flights := [flight.(stage := Posting)], refreshing := Some(0));
    ms := Extended(ms, Replied(0, Refused(InvalidSession)));
    var w := Run(START, ms);
    assert w.flights == [flight.(stage := Clearing, outcome := Some(Refused(InvalidSession)))];
    assert w.requests == [owning, flying] && w.refreshing == Some(0) && w.epoch == 0;
    ms := Extended(ms, Unauthorized(1));
    assert ms == LATE_401;
  }

  lemma Extended(ms: seq<Move>, m: Move) returns (more: seq<Move>)
    ensures more == ms + [m] && Run(START, more) == Step(Run(START, ms), m)
  {
    more := ms + [m];
    assert more[..|ms|] == ms;
  }

  lemma RunNone()
    ensures Run(START, []) == START
  {
  }
}
