/**
 The refresh of the session on a 401 (app-mobile/services/apiClient.ts) and the serialized writes of
 identityPersistence.ts, as steps between which anything else may happen. A request may be sent as soon
 as it is prepared; what it waits for before that only removes interleavings.
 */
module SessionRefresh {
  import opened Wrappers

  /** Why a refresh fails: the session itself is invalid, or anything else. */
  datatype Problem = InvalidSession | OtherProblem

  datatype Outcome = Renewed(token: string) | Refused(problem: Problem)

  datatype ReqPhase =
    | Preparing                // in the request interceptor
    | InFlight
    | Waiting(flight: nat)     // in the queue of a refresh
    | Owning(flight: nat)      // running a refresh
    | Resolved(token: string)  // given a token, about to be sent again
    | Fulfilled
    | Rejected

  /** How a request joined a refresh: early if its queue had not been settled yet. */
  datatype Joined = Joined(flight: nat, early: bool)

  datatype Request = Request(epoch: nat, sends: nat, retried: bool, phase: ReqPhase, joined: Option<Joined>)

  datatype Stage =
    | Starting
    | Posting
    | Storing(token: string)   // the write waits for its turn
    | Securing(token: string)  // saveSessionSecurity
    | Writing(token: string)   // the tokens are being written
    | Written(token: string)
    | Clearing                 // the removal waits for its turn
    | Removing
    | Finished

  datatype Flight = Flight(epoch: nat, owner: nat, queue: seq<nat>, stage: Stage, outcome: Option<Outcome>)

  datatype Settlement = Settlement(waiter: nat, flight: nat, outcome: Outcome)

  /** Tokens that begin to be written or removed, with the epoch at that moment. */
  datatype TokenWrite = TokenWrite(flight: nat, epoch: nat)

  datatype World = World(
    epoch: nat, requests: seq<Request>, flights: seq<Flight>, refreshing: Option<nat>, writer: Option<nat>,
    settled: seq<Settlement>, writes: seq<TokenWrite>)

  const START := World(0, [], [], None, None, [], [])

  datatype Move =
    | SessionChanges
    | NewRequest
    | Sent(r: nat)
    | Answered(r: nat)
    | Unauthorized(r: nat)            // a 401 that a refresh may cure
    | OtherError(r: nat)
    | Resumed(r: nat)
    | Prepared(f: nat, error: Option<Problem>)
    | Replied(f: nat, reply: Outcome)
    | WriteTurn(f: nat)               // the serialized write begins
    | SecuritySaved(f: nat, error: Option<Problem>)
    | TokensWritten(f: nat, error: Option<Problem>)
    | QueueProcessed(f: nat)
    | TokensRemoved(f: nat)

  // ----- small changes

  function SetPhase(w: World, r: nat, phase: ReqPhase): World
    requires r < |w.requests|
  {
    w.(requests := w.requests[r := w.requests[r].(phase := phase)])
  }

  function SetStage(w: World, f: nat, stage: Stage): World
    requires f < |w.flights|
  {
    w.(flights := w.flights[f := w.flights[f].(stage := stage)])
  }

  predicate In(w: World, r: nat, phase: ReqPhase) { r < |w.requests| && w.requests[r].phase == phase }

  predicate At(w: World, f: nat, stage: Stage) { f < |w.flights| && w.flights[f].stage == stage }

  /** assertIdentityRequest, currentIdentityRequest */
  predicate Current(w: World, epoch: nat) { w.epoch == epoch }

  function Verdict(outcome: Outcome): ReqPhase { match outcome case Renewed(t) => Resolved(t) case Refused(_) => Rejected }

  function SettleAll(requests: seq<Request>, queue: seq<nat>, outcome: Outcome): (settled: seq<Request>)
    ensures |settled| == |requests|
  {
    seq(|requests|, i requires 0 <= i < |requests| =>
      if i in queue then requests[i].(phase := Verdict(outcome)) else requests[i])
  }

  function Settlements(queue: seq<nat>, f: nat, outcome: Outcome): seq<Settlement> {
    seq(|queue|, i requires 0 <= i < |queue| => Settlement(queue[i], f, outcome))
  }

  predicate QueueFits(w: World, f: nat) { f < |w.flights| && forall q | q in w.flights[f].queue :: q < |w.requests| }

  /** processQueue and rejectQueue */
  function Drain(w: World, f: nat, outcome: Outcome): World
    requires QueueFits(w, f)
  {
    var fl := w.flights[f];
    w.(requests := SettleAll(w.requests, fl.queue, outcome),
       settled := w.settled + Settlements(fl.queue, f, outcome),
       flights := w.flights[f := fl.(queue := [], outcome := Some(outcome))])
  }

  /** finally */
  function Finish(w: World, f: nat): World
    requires f < |w.flights|
  {
    SetStage(w, f, Finished).(refreshing := if w.refreshing == Some(f) then None else w.refreshing,
                              writer := if w.writer == Some(f) then None else w.writer)
  }

  /** The catch block: waiters are refused, then the stored tokens are removed if the session is invalid. */
  function Fail(w: World, f: nat, error: Problem): World
    requires QueueFits(w, f) && w.flights[f].owner < |w.requests|
  {
    var fl := w.flights[f];
    var refused := Drain(w, f, Refused(error)).(writer := if w.writer == Some(f) then None else w.writer);
    if error.InvalidSession? && Current(w, fl.epoch) then SetStage(refused, f, Clearing)
    else SetPhase(Finish(refused, f), fl.owner, Rejected)
  }

  // ----- the steps

  function OnUnauthorized(w: World, r: nat): World
    requires r < |w.requests|
  {
    var q := w.requests[r];
    if q.retried then SetPhase(w, r, Rejected)
    else
      var tried := w.(requests := w.requests[r := q.(retried := true)]);
      if !Current(w, q.epoch) then SetPhase(tried, r, Rejected)
      else if w.refreshing.Some? && w.refreshing.value < |w.flights| && w.flights[w.refreshing.value].epoch == q.epoch then
        var f := w.refreshing.value;
        var fl := w.flights[f];
        w.(requests := w.requests[r := q.(retried := true, phase := Waiting(f), joined := Some(Joined(f, fl.outcome.None?)))],
           flights := w.flights[f := fl.(queue := fl.queue + [r])])
      else
        SetPhase(tried, r, Owning(|w.flights|)).(
          flights := w.flights + [Flight(q.epoch, r, [], Starting, None)], refreshing := Some(|w.flights|))
  }

  predicate Ready(w: World, f: nat) { QueueFits(w, f) && w.flights[f].owner < |w.requests| }

  /** An error, or the epoch of the flight being over, sends the flight to its catch block. */
  function Proceed(w: World, f: nat, error: Option<Problem>, stage: Stage): World
    requires Ready(w, f)
  {
    if error.Some? then Fail(w, f, error.value)
    else if !Current(w, w.flights[f].epoch) then Fail(w, f, OtherProblem)
    else SetStage(w, f, stage)
  }

  function OnWriteTurn(w: World, f: nat): World
    requires Ready(w, f)
  {
    var fl := w.flights[f];
    if w.writer.Some? then w
    else if fl.stage.Storing? then
      if Current(w, fl.epoch) then SetStage(w, f, Securing(fl.stage.token)).(writer := Some(f)) else Fail(w, f, OtherProblem)
    else if fl.stage.Clearing? then
      if Current(w, fl.epoch) then SetStage(w, f, Removing).(writer := Some(f), writes := w.writes + [TokenWrite(f, w.epoch)])
      else SetPhase(Finish(w, f), fl.owner, Rejected)
    else w
  }

  function OnSecuritySaved(w: World, f: nat, error: Option<Problem>): World
    requires Ready(w, f) && w.flights[f].stage.Securing?
  {
    var next := Proceed(w, f, error, Writing(w.flights[f].stage.token));
    if At(next, f, Writing(w.flights[f].stage.token)) then next.(writes := w.writes + [TokenWrite(f, w.epoch)]) else next
  }

  /** The queue is settled with the new token, the request is sent again and the flight is over. */
  function OnProcessed(w: World, f: nat): World
    requires Ready(w, f) && w.flights[f].stage.Written?
  {
    var token := w.flights[f].stage.token;
    if !Current(w, w.flights[f].epoch) then Fail(w, f, OtherProblem)
    else Finish(SetPhase(Drain(w, f, Renewed(token)), w.flights[f].owner, Preparing), f)
  }

  function StepFlight(w: World, m: Move): World {
    match m
    case Prepared(f, error) => if Ready(w, f) && At(w, f, Starting) then Proceed(w, f, error, Posting) else w
    case Replied(f, reply) =>
      if !(Ready(w, f) && At(w, f, Posting)) then w
      else (
        match reply
        case Renewed(token) => Proceed(w, f, None, Storing(token))
        case Refused(problem) => Fail(w, f, problem))
    case WriteTurn(f) => if Ready(w, f) then OnWriteTurn(w, f) else w
    case SecuritySaved(f, error) => if Ready(w, f) && w.flights[f].stage.Securing? then OnSecuritySaved(w, f, error) else w
    case TokensWritten(f, error) =>
      if Ready(w, f) && w.flights[f].stage.Writing? then
        var next := Proceed(w, f, error, Written(w.flights[f].stage.token));
        next.(writer := if w.writer == Some(f) then None else w.writer)
      else w
    case QueueProcessed(f) => if Ready(w, f) && w.flights[f].stage.Written? then OnProcessed(w, f) else w
    case TokensRemoved(f) =>
      if Ready(w, f) && At(w, f, Removing) then SetPhase(Finish(w, f), w.flights[f].owner, Rejected) else w
    case _ => w
  }

  function StepRequest(w: World, m: Move): World {
    match m
    case NewRequest => w.(requests := w.requests + [Request(w.epoch, 0, false, Preparing, None)])
    case Sent(r) =>
      if !In(w, r, Preparing) then w
      else if !Current(w, w.requests[r].epoch) then SetPhase(w, r, Rejected)
      else w.(requests := w.requests[r := w.requests[r].(sends := w.requests[r].sends + 1, phase := InFlight)])
    case Answered(r) =>
      if In(w, r, InFlight) then SetPhase(w, r, if Current(w, w.requests[r].epoch) then Fulfilled else Rejected) else w
    case Unauthorized(r) => if In(w, r, InFlight) then OnUnauthorized(w, r) else w
    case OtherError(r) => if In(w, r, InFlight) then SetPhase(w, r, Rejected) else w
    case Resumed(r) =>
      if r < |w.requests| && w.requests[r].phase.Resolved? then
        SetPhase(w, r, if Current(w, w.requests[r].epoch) then Preparing else Rejected)
      else w
    case _ => w
  }

  function Step(w: World, m: Move): World {
    match m
    case SessionChanges => w.(epoch := w.epoch + 1)
    case NewRequest => StepRequest(w, m)
    case Sent(_) => StepRequest(w, m)
    case Answered(_) => StepRequest(w, m)
    case Unauthorized(_) => StepRequest(w, m)
    case OtherError(_) => StepRequest(w, m)
    case Resumed(_) => StepRequest(w, m)
    case _ => StepFlight(w, m)
  }

  function Run(w: World, ms: seq<Move>): World {
    if ms == [] then w else Step(Run(w, ms[..|ms| - 1]), ms[|ms| - 1])
  }

  // ----- the interceptor

  /** The module variables, with the requests and flights they reach. */
  class Client {
    var epoch: nat
    var requests: seq<Request>
    var flights: seq<Flight>
    var refreshing: Option<nat>
    ghost var writer: Option<nat>
    ghost var settled: seq<Settlement>
    ghost var writes: seq<TokenWrite>

    ghost function Contents(): World
      reads this
    {
      World(epoch, requests, flights, refreshing, writer, settled, writes)
    }

    constructor ()
      ensures Contents() == START
    {
      epoch, requests, flights, refreshing, writer, settled, writes := 0, [], [], None, None, [], [];
    }

    /** The queue is emptied, each waiter resolved or rejected in its order. */
    method SettleQueue(f: nat, outcome: Outcome)
      requires QueueFits(Contents(), f)
      modifies this
      ensures Contents() == Drain(old(Contents()), f, outcome)
    {
      var queue := flights[f].queue;
      ghost var before := Contents();
      for i := 0 to |queue|
        invariant epoch == before.epoch && flights == before.flights && refreshing == before.refreshing
        invariant writer == before.writer && writes == before.writes
        invariant requests == SettleAll(before.requests, queue[..i], outcome)
        invariant settled == before.settled + Settlements(queue[..i], f, outcome)
      {
        var waiter := queue[i];
        assert queue[..i + 1] == queue[..i] + [waiter];
        assert waiter in queue;
        requests := requests[waiter := requests[waiter].(phase := Verdict(outcome))];
        settled := settled + [Settlement(waiter, f, outcome)];
        assert requests == SettleAll(before.requests, queue[..i + 1], outcome);
      }
      assert queue[..|queue|] == queue;
      flights := flights[f := flights[f].(queue := [], outcome := Some(outcome))];
    }

    /** A 401 on a request: refused, queued behind the refresh of its epoch, or starting that refresh. */
    method OnError401(r: nat)
      requires r < |requests| && requests[r].phase.InFlight?
      requires refreshing.Some? ==> refreshing.value < |flights|
      modifies this
      ensures Contents() == OnUnauthorized(old(Contents()), r)
    {
      if requests[r].retried {
        requests := requests[r := requests[r].(phase := Rejected)];
        return;
      }
      requests := requests[r := requests[r].(retried := true)];
      if epoch != requests[r].epoch {
        requests := requests[r := requests[r].(phase := Rejected)];
        return;
      }
      if refreshing.Some? && flights[refreshing.value].epoch == requests[r].epoch {
        var f := refreshing.value;
        var joined := Joined(f, flights[f].outcome.None?);
        flights := flights[f := flights[f].(queue := flights[f].queue + [r])];
        requests := requests[r := requests[r].(phase := Waiting(f), joined := Some(joined))];
        return;
      }
      refreshing := Some(|flights|);
      requests := requests[r := requests[r].(phase := Owning(|flights|))];
      flights := flights + [Flight(requests[r].epoch, r, [], Starting, None)];
    }

    method FinishFlight(f: nat)
      requires f < |flights|
      modifies this
      ensures Contents() == Finish(old(Contents()), f)
    {
      flights := flights[f := flights[f].(stage := Finished)];
      if refreshing == Some(f) {
        refreshing := None;
      }
      writer := if writer == Some(f) then None else writer;
    }

    /** The catch block up to its first pause, and the finally block when there is none. */
    method FailFlight(f: nat, error: Problem)
      requires Ready(Contents(), f)
      modifies this
      ensures Contents() == Fail(old(Contents()), f, error)
    {
      hide SettleAll, Settlements;
      var owner, own := flights[f].owner, flights[f].epoch;
      SettleQueue(f, Refused(error));
      writer := if writer == Some(f) then None else writer;
      if error.InvalidSession? && epoch == own {
        flights := flights[f := flights[f].(stage := Clearing)];
      } else {
        FinishFlight(f);
        requests := requests[owner := requests[owner].(phase := Rejected)];
      }
    }

    /** After the tokens are stored: the waiters and the request itself go on with the new token. */
    method CompleteFlight(f: nat, token: string)
      requires Ready(Contents(), f) && flights[f].stage == Written(token)
      modifies this
      ensures Contents() == OnProcessed(old(Contents()), f)
    {
      hide SettleAll, Settlements;
      if epoch != flights[f].epoch {
        FailFlight(f, OtherProblem);
        return;
      }
      var owner := flights[f].owner;
      SettleQueue(f, Renewed(token));
      requests := requests[owner := requests[owner].(phase := Preparing)];
      FinishFlight(f);
    }
  }
}
