/**
 Every interleaving of captures, responses, refusals, binds and clears over AccessState: turns are
 queued, run one at a time, and the next one waits for the write of the last. A tenure is what lies
 between two binds or restarts.
 */
module AccessStateRuns {
  import opened Wrappers
  import opened AccessPolicy
  import opened AccessPolicyRuns
  import opened AccessState

  /** A captured stamp, with the tenure and the authority that it was taken from. */
  datatype Ticket = Ticket(stamp: Stamp, tenure: nat, seen: Authority)

  /** The stamp of a request, with what was in force when it left. */
  datatype Request = Request(epoch: nat, revision: nat, seen: Option<Authority>)

  datatype Turn =
    | SnapshotTurn(ticket: Ticket, s: Snapshot, ps: seq<Profile>)
    | IssueTurn(ticket: Ticket, issue: Issue, ps: seq<Profile>)
    | BindTurn(userId: string, deviceId: string, now: string)
    | ClearTurn

  /** A response that changed the authority. */
  datatype Accepted = Accepted(ticket: Ticket, tenure: nat, before: Authority, after: Authority)

  datatype World = World(
    memory: Memory, turns: seq<Turn>, writing: Option<DiskOp>, disk: Option<Authority>, clearing: nat,
    tenure: nat, tickets: seq<Ticket>, requests: seq<Request>, log: seq<Accepted>)

  datatype Move =
    | Capture
    | SendRequest
    | SnapshotArrives(ticket: nat, s: Snapshot, ps: seq<Profile>)
    | IssueArrives(ticket: nat, issue: Issue, ps: seq<Profile>)
    | RefusalPublished(request: nat)           // the failure listener captures if the request is current
    | BindAsked(userId: string, deviceId: string, now: string)
    | ClearAsked                               // the session advances at once
    | ClearQueued                              // the turn follows
    | TurnRuns
    | WriteEnds(written: bool)
    | Restart(written: bool)                   // the process dies and starts again

  const NEW := World(BOOT, [], None, None, 0, 0, [], [], [])

  function WriteDisk(disk: Option<Authority>, op: Option<DiskOp>): Option<Authority> {
    match op case None => disk case Some(Store(a)) => Some(a) case Some(Remove) => None
  }

  function Logged(w: World, ticket: Ticket, after: Memory): seq<Accepted> {
    if w.memory.authority.Some? && after.authority.Some? && after.authority != w.memory.authority
    then w.log + [Accepted(ticket, w.tenure, w.memory.authority.value, after.authority.value)]
    else w.log
  }

  function RunTurn(w: World, t: Turn): World {
    match t
    case SnapshotTurn(ticket, s, ps) =>
      var (m, op) := ApplySnapshot(w.memory, ticket.stamp, s, ps);
      w.(memory := m, writing := op, log := Logged(w, ticket, m))
    case IssueTurn(ticket, issue, ps) =>
      var (m, op) := ApplyIssue(w.memory, ticket.stamp, issue, ps);
      w.(memory := m, writing := op, log := Logged(w, ticket, m))
    case BindTurn(userId, deviceId, now) =>
      var (m, op) := Bind(w.memory, w.disk, userId, deviceId, now);
      w.(memory := m, writing := op, tenure := if op.Some? then w.tenure + 1 else w.tenure)
    case ClearTurn =>
      var (m, op) := Clear(w.memory);
      w.(memory := m, writing := op)
  }

  function NewTicket(w: World): seq<Ticket> {
    match w.memory.authority
    case Some(a) => w.tickets + [Ticket(Stamp(a.session, a.sequence), w.tenure, a)]
    case None => w.tickets
  }

  function Step(w: World, m: Move): World {
    match m
    case Capture => w.(tickets := NewTicket(w))
    case SendRequest => w.(requests := w.requests + [Request(w.memory.epoch, w.memory.revision, w.memory.authority)])
    case SnapshotArrives(k, s, ps) =>
      if k < |w.tickets| && UniqueEntries(s.subscriptions) then w.(turns := w.turns + [SnapshotTurn(w.tickets[k], s, ps)]) else w
    case IssueArrives(k, i, ps) => if k < |w.tickets| then w.(turns := w.turns + [IssueTurn(w.tickets[k], i, ps)]) else w
    case RefusalPublished(k) =>
      if k < |w.requests| && CurrentRequest(w.memory, w.requests[k].epoch, w.requests[k].revision)
      then w.(tickets := NewTicket(w)) else w
    case BindAsked(u, d, now) => w.(turns := w.turns + [BindTurn(u, d, now)])
    case ClearAsked => w.(memory := AdvanceSession(w.memory), clearing := w.clearing + 1)
    case ClearQueued => if w.clearing > 0 then w.(turns := w.turns + [ClearTurn], clearing := w.clearing - 1) else w
    case TurnRuns => if w.writing.None? && w.turns != [] then RunTurn(w.(turns := w.turns[1..]), w.turns[0]) else w
    case WriteEnds(written) => w.(writing := None, disk := if written then WriteDisk(w.disk, w.writing) else w.disk)
    case Restart(written) =>
      World(BOOT, [], None, if written then WriteDisk(w.disk, w.writing) else w.disk, 0, w.tenure + 1, [], [], w.log)
  }

  function Run(w: World, ms: seq<Move>): World {
    if ms == [] then w else Step(Run(w, ms[..|ms| - 1]), ms[|ms| - 1])
  }

  // ----- the invariant

  /** In its own tenure a ticket is never ahead, and a ticket that is not behind saw what is in force. */
  predicate TicketOk(w: World, t: Ticket) {
    && t.stamp == Stamp(t.seen.session, t.seen.sequence)
    && t.tenure <= w.tenure
    && (t.tenure == w.tenure && w.memory.authority.Some? ==>
          var a := w.memory.authority.value;
          t.seen.session == a.session && t.seen.sequence <= a.sequence && (t.seen.sequence == a.sequence ==> t.seen == a))
  }

  predicate RequestOk(w: World, r: Request) {
    && r.revision <= w.memory.revision
    && (r.revision == w.memory.revision ==> w.memory.authority.None? || w.memory.authority == r.seen)
  }

  predicate AcceptedOk(w: World, x: Accepted) {
    && x.ticket.stamp == Stamp(x.before.session, x.before.sequence)
    && (x.ticket.tenure == x.tenure ==> x.ticket.seen == x.before)
    && x.before.session == x.after.session && x.before.sequence + 1 == x.after.sequence
    && x.tenure <= w.tenure
    && (x.tenure == w.tenure && w.memory.authority.Some? ==> x.after.sequence <= w.memory.authority.value.sequence)
  }

  predicate Ordered(log: seq<Accepted>) {
    forall i, j | 0 <= i < j < |log| ::
      log[i].tenure <= log[j].tenure && (log[i].tenure == log[j].tenure ==> log[i].after.sequence <= log[j].before.sequence)
  }

  ghost predicate WInv(w: World) {
    && (forall t | t in w.tickets :: TicketOk(w, t))
    && (forall k | 0 <= k < |w.turns| && (w.turns[k].SnapshotTurn? || w.turns[k].IssueTurn?) :: TicketOk(w, w.turns[k].ticket))
    && (forall r | r in w.requests :: RequestOk(w, r))
    && (forall x | x in w.log :: AcceptedOk(w, x))
    && Ordered(w.log)
    && (w.memory.ready ==> w.memory.authority.Some?)
  }

  /** What a reducer leaves of the identity, and how it moves the sequence. */
  lemma ReducersMoveOn(a: Authority, s: Snapshot, i: Issue, ps: seq<Profile>)
    ensures var r := ReduceSnapshot(a, s, ps);
            r.Some? ==> !Foreign(a, r.value) && r.value.session == a.session && r.value.sequence == a.sequence + 1
    ensures var r := ReduceIssue(a, i, ps);
            !Foreign(a, r) && r.session == a.session && (r == a || r.sequence == a.sequence + 1)
  {
    hide Candidates, MarkOmitted, ApplyEntries, FromList, HashesOf, LocalHashes, Remote, WithoutId, FirstLocalName;
  }

  /** A turn of a response keeps the memory, or moves its authority one step and bumps the revision. */
  predicate Moves(before: Memory, after: Memory, stamp: Stamp) {
    || after == before
    || (&& after.authority == before.authority && after.epoch == before.epoch && after.revision == before.revision
        && after.authority.Some?)
    || (&& Captured(before) == Some(stamp) && after.authority.Some?
        && after.ready && after.epoch == before.epoch && after.revision == before.revision + 1
        && after.authority.value.session == before.authority.value.session
        && after.authority.value.sequence == before.authority.value.sequence + 1)
  }

  lemma ResponsesMove(m: Memory, stamp: Stamp, s: Snapshot, i: Issue, ps: seq<Profile>)
    ensures Moves(m, ApplySnapshot(m, stamp, s, ps).0, stamp)
    ensures Moves(m, ApplyIssue(m, stamp, i, ps).0, stamp)
  {
    hide ReduceSnapshot, ReduceIssue;
    if m.authority.Some? {
      ReducersMoveOn(m.authority.value, s, i, ps);
    }
  }

  lemma ResponseKeeps(w: World, ticket: Ticket, m: Memory, op: Option<DiskOp>)
    requires WInv(w) && TicketOk(w, ticket) && Moves(w.memory, m, ticket.stamp)
    ensures WInv(w.(memory := m, writing := op, log := Logged(w, ticket, m)))
  {
    forall i | 0 <= i < |w.log|
      ensures AcceptedOk(w, w.log[i])
    {
      assert w.log[i] in w.log;
    }
  }

  lemma TurnKeeps(w: World)
    requires WInv(w) && w.writing.None? && w.turns != []
    ensures WInv(Step(w, TurnRuns))
  {
    hide ApplySnapshot, ApplyIssue, Moves, Ordered, AcceptedOk;
    var t, rest := w.turns[0], w.(turns := w.turns[1..]);
    assert forall k | 0 <= k < |rest.turns| :: rest.turns[k] == w.turns[k + 1];
    RestKeeps(w, rest);
    match t
    case SnapshotTurn(ticket, s, ps) =>
      ResponsesMove(w.memory, ticket.stamp, s, SessionIssue, ps);
      ResponseKeeps(rest, ticket, ApplySnapshot(w.memory, ticket.stamp, s, ps).0, ApplySnapshot(w.memory, ticket.stamp, s, ps).1);
    case IssueTurn(ticket, i, ps) =>
      IssueMoves(w.memory, ticket.stamp, i, ps);
      ResponseKeeps(rest, ticket, ApplyIssue(w.memory, ticket.stamp, i, ps).0, ApplyIssue(w.memory, ticket.stamp, i, ps).1);
    case BindTurn(u, d, now) => BindKeeps(rest, u, d, now);
    case ClearTurn => ClearKeeps(rest);
  }

  lemma RestKeeps(w: World, rest: World)
    requires WInv(w) && w.turns != [] && rest == w.(turns := w.turns[1..])
    ensures WInv(rest)
  {
    assert forall k | 0 <= k < |rest.turns| :: rest.turns[k] == w.turns[k + 1];
  }

  lemma BindKeeps(w: World, userId: string, deviceId: string, now: string)
    requires WInv(w)
    ensures WInv(RunTurn(w, BindTurn(userId, deviceId, now)))
  {
  }

  lemma ClearKeeps(w: World)
    requires WInv(w)
    ensures WInv(RunTurn(w, ClearTurn))
  {
  }

  lemma StepKeeps(w: World, m: Move)
    requires WInv(w)
    ensures WInv(Step(w, m))
  {
    hide RunTurn, Ordered, AcceptedOk;
    match m
    case TurnRuns =>
      if w.writing.None? && w.turns != [] {
        TurnKeeps(w);
      }
    case SnapshotArrives(k, s, ps) =>
      if k < |w.tickets| {
        ArrivalKeeps(w, k, SnapshotTurn(w.tickets[k], s, ps));
      }
    case IssueArrives(k, i, ps) =>
      if k < |w.tickets| {
        ArrivalKeeps(w, k, IssueTurn(w.tickets[k], i, ps));
      }
    case Restart(written) => RestartKeeps(w, written);
    case ClearAsked => ClearAskedKeeps(w);
    case _ => QuietMoveKeeps(w, m);
  }

  lemma ArrivalKeeps(w: World, k: nat, t: Turn)
    requires WInv(w) && k < |w.tickets| && (t.SnapshotTurn? || t.IssueTurn?) && t.ticket == w.tickets[k]
    ensures WInv(w.(turns := w.turns + [t]))
  {
    assert w.tickets[k] in w.tickets;
  }

  lemma RestartKeeps(w: World, written: bool)
    requires WInv(w)
    ensures WInv(Step(w, Restart(written)))
  {
  }

  lemma ClearAskedKeeps(w: World)
    requires WInv(w)
    ensures WInv(Step(w, ClearAsked))
  {
  }

  lemma QuietMoveKeeps(w: World, m: Move)
    requires WInv(w)
    requires m.Capture? || m.SendRequest? || m.RefusalPublished? || m.BindAsked? || m.ClearQueued? || m.WriteEnds?
    ensures WInv(Step(w, m))
  {
  }

  lemma IssueMoves(m: Memory, stamp: Stamp, i: Issue, ps: seq<Profile>)
    ensures Moves(m, ApplyIssue(m, stamp, i, ps).0, stamp)
  {
    ResponsesMove(m, stamp, Snapshot("", Device("", DeviceActive, false), []), i, ps);
  }

  lemma {:induction false} RunKeeps(ms: seq<Move>)
    ensures WInv(Run(NEW, ms))
  {
    hide Step, WInv;
    if ms == [] {
      NewInv();
    } else {
      RunKeeps(ms[..|ms| - 1]);
      StepKeeps(Run(NEW, ms[..|ms| - 1]), ms[|ms| - 1]);
    }
  }

  lemma NewInv()
    ensures WInv(NEW)
  {
  }

  // ----- what every run keeps

  /** Every accepted response was stamped with the authority it changed, and is the only one of its tenure to change it. */
  lemma AcceptedResponses(ms: seq<Move>)
    ensures var log := Run(NEW, ms).log;
            && (forall x | x in log ::
                  && x.ticket.stamp == Stamp(x.before.session, x.before.sequence)
                  && (x.ticket.tenure == x.tenure ==> x.ticket.seen == x.before))
            && forall i, j | 0 <= i < j < |log| && log[i].tenure == log[j].tenure :: log[i].ticket.stamp != log[j].ticket.stamp
  {
    hide Step, Run;
    RunKeeps(ms);
    var log := Run(NEW, ms).log;
    forall i, j | 0 <= i < j < |log| && log[i].tenure == log[j].tenure
      ensures log[i].ticket.stamp != log[j].ticket.stamp
    {
      assert log[i] in log && log[j] in log;
      assert log[i].after.sequence <= log[j].before.sequence;
    }
  }

  /** What a step does to the authority within a tenure: it moves on, stays, or goes for good. */
  lemma TenureStep(w: World, m: Move)
    ensures var next := Step(w, m);
            && w.tenure <= next.tenure
            && (w.tenure == next.tenure && next.memory.authority.Some? ==>
                  && w.memory.authority.Some?
                  && next.memory.authority.value.session == w.memory.authority.value.session
                  && w.memory.authority.value.sequence <= next.memory.authority.value.sequence)
  {
    hide ApplySnapshot, ApplyIssue, Restored;
    if m.TurnRuns? && w.turns != [] {
      match w.turns[0]
      case SnapshotTurn(t, s, ps) => ResponsesMove(w.memory, t.stamp, s, SessionIssue, ps);
      case IssueTurn(t, i, ps) => IssueMoves(w.memory, t.stamp, i, ps);
      case _ =>
    }
  }

  /** Between any two points of a tenure the session stays and the sequence never decreases. */
  lemma {:induction false} SequenceNeverDecreases(ms: seq<Move>, more: seq<Move>)
    ensures var w, later := Run(NEW, ms), Run(NEW, ms + more);
            && w.tenure <= later.tenure
            && (w.tenure == later.tenure && later.memory.authority.Some? ==>
                  && w.memory.authority.Some?
                  && later.memory.authority.value.session == w.memory.authority.value.session
                  && w.memory.authority.value.sequence <= later.memory.authority.value.sequence)
    decreases |more|
  {
    hide Step;
    if more == [] {
      assert ms + more == ms;
    } else {
      var n := |more| - 1;
      SequenceNeverDecreases(ms, more[..n]);
      assert (ms + more)[..|ms + more| - 1] == ms + more[..n];
      TenureStep(Run(NEW, ms + more[..n]), more[n]);
    }
  }

  /** A request stamp that is still current: nothing has been decided since, short of a sign-out. */
  lemma CurrentRequestSawTheAuthority(ms: seq<Move>, k: nat)
    requires var w := Run(NEW, ms);
             k < |w.requests| && CurrentRequest(w.memory, w.requests[k].epoch, w.requests[k].revision)
    ensures var w := Run(NEW, ms); w.memory.authority.None? || w.memory.authority == w.requests[k].seen
  {
    hide Run, Step;
    RunKeeps(ms);
    assert Run(NEW, ms).requests[k] in Run(NEW, ms).requests;
  }

  /** So the ticket that a refusal takes designates the authority its request was sent under. */
  lemma RefusalKeepsItsRequest(ms: seq<Move>, k: nat)
    requires var w := Run(NEW, ms); k < |w.requests| && |Step(w, RefusalPublished(k)).tickets| > |w.tickets|
    ensures var w := Run(NEW, ms); var t := Step(w, RefusalPublished(k)).tickets[|w.tickets|];
            Some(t.seen) == w.requests[k].seen && t.tenure == w.tenure
  {
    hide Run;
    CurrentRequestSawTheAuthority(ms, k);
  }

  // ----- the authority in force, resumed from disk or not

  /** The invariant of the reducers holds in memory, on disk and in the write in flight. */
  ghost predicate PolicyInv(w: World) {
    && (w.memory.authority.Some? ==> Inv(w.memory.authority.value))
    && (w.disk.Some? ==> Inv(w.disk.value))
    && (w.writing.Some? && w.writing.value.Store? ==> Inv(w.writing.value.authority))
    && (forall k | 0 <= k < |w.turns| && w.turns[k].SnapshotTurn? :: UniqueEntries(w.turns[k].s.subscriptions))
  }

  lemma ResponsesKeepPolicy(m: Memory, stamp: Stamp, e: Event)
    requires m.authority.Some? ==> Inv(m.authority.value)
    requires Parsed(e)
    ensures var (next, op) := match e
                              case SnapshotEvent(s, ps) => ApplySnapshot(m, stamp, s, ps)
                              case IssueEvent(i, ps) => ApplyIssue(m, stamp, i, ps);
            && (next.authority.Some? ==> Inv(next.authority.value))
            && (op.Some? && op.value.Store? ==> Inv(op.value.authority))
  {
    hide Inv, ReduceSnapshot, ReduceIssue;
    if m.authority.Some? {
      AccessPolicyRuns.StepKeeps(m.authority.value, e);
    }
  }

  lemma RestoredKeepsPolicy(cached: Option<Authority>, userId: string, deviceId: string, now: string)
    requires cached.Some? ==> Inv(cached.value)
    ensures Inv(Restored(cached, userId, deviceId, now))
  {
    FreshInv(userId, deviceId, now + ":" + userId);
  }

  lemma PolicyStep(w: World, m: Move)
    requires PolicyInv(w)
    ensures PolicyInv(Step(w, m))
  {
    hide Inv, UniqueEntries, ApplySnapshot, ApplyIssue, Restored;
    if m.TurnRuns? && w.writing.None? && w.turns != [] {
      match w.turns[0]
      case SnapshotTurn(t, s, ps) => ResponsesKeepPolicy(w.memory, t.stamp, SnapshotEvent(s, ps));
      case IssueTurn(t, i, ps) => ResponsesKeepPolicy(w.memory, t.stamp, IssueEvent(i, ps));
      case BindTurn(u, d, now) => RestoredKeepsPolicy(w.disk, u, d, now);
      case ClearTurn =>
    }
  }

  lemma {:induction false} PolicyKeeps(ms: seq<Move>)
    ensures PolicyInv(Run(NEW, ms))
  {
    hide Step;
    if ms != [] {
      hide PolicyInv;
      PolicyKeeps(ms[..|ms| - 1]);
      PolicyStep(Run(NEW, ms[..|ms| - 1]), ms[|ms| - 1]);
    }
  }

  /** Whatever authority is in force, fresh or resumed, its restrictions alone decide for every profile. */
  lemma HeldRestrictionsDecide(ms: seq<Move>, p: Profile)
    ensures var a := Run(NEW, ms).memory.authority;
            a.Some? ==> UniqueIds(a.value.restrictions) && ProfileRestriction(a.value, p) == FirstConcerning(a.value.restrictions, p)
  {
    hide Run, ProfileRestriction, FirstConcerning;
    PolicyKeeps(ms);
    if Run(NEW, ms).memory.authority.Some? {
      FallbackNeverDecides(Run(NEW, ms).memory.authority.value, p);
    }
  }

  // ----- over the life of an installation

  /** What the disk holds once the write in flight has ended. */
  function Durable(w: World): Option<Authority> { WriteDisk(w.disk, w.writing) }

  /** No write is lost, and a bind does not name its session like an earlier one: the clock has moved. */
  ghost predicate Sound(w: World, m: Move) {
    && ((m.WriteEnds? || m.Restart?) ==> m.written)
    && (m.TurnRuns? && w.turns != [] && w.turns[0].BindTurn? ==>
          var name := w.turns[0].now + ":" + w.turns[0].userId;
          forall x | x in w.log :: x.before.session != name)
  }

  predicate OrderedBySession(log: seq<Accepted>) {
    forall i, j | 0 <= i < j < |log| && log[i].before.session == log[j].before.session ::
      log[i].after.sequence <= log[j].before.sequence
  }

  ghost predicate LifeInv(w: World) {
    && (w.memory.authority.Some? ==> w.memory.ready && Durable(w) == w.memory.authority)
    && OrderedBySession(w.log)
    && (forall x | x in w.log && Durable(w).Some? && x.before.session == Durable(w).value.session ::
          x.after.sequence <= Durable(w).value.sequence)
  }

  /** The write of a turn that answered stores the authority that it published. */
  predicate Writes(before: Memory, after: Memory, op: Option<DiskOp>) {
    if op.None? then after == before else after.authority.Some? && after.ready && op == Some(Store(after.authority.value))
  }

  lemma ResponsesWrite(m: Memory, stamp: Stamp, s: Snapshot, i: Issue, ps: seq<Profile>)
    ensures Writes(m, ApplySnapshot(m, stamp, s, ps).0, ApplySnapshot(m, stamp, s, ps).1)
    ensures Writes(m, ApplyIssue(m, stamp, i, ps).0, ApplyIssue(m, stamp, i, ps).1)
  {
    hide ReduceSnapshot, ReduceIssue;
  }

  lemma ResponseLives(w: World, ticket: Ticket, m: Memory, op: Option<DiskOp>)
    requires LifeInv(w) && w.writing.None? && Moves(w.memory, m, ticket.stamp) && Writes(w.memory, m, op)
    ensures LifeInv(w.(memory := m, writing := op, log := Logged(w, ticket, m)))
  {
    forall i | 0 <= i < |w.log|
      ensures w.log[i] in w.log
    {
    }
  }

  lemma LifeStep(w: World, m: Move)
    requires LifeInv(w) && Sound(w, m)
    ensures LifeInv(Step(w, m))
  {
    hide ApplySnapshot, ApplyIssue, Moves, Writes;
    if m.TurnRuns? && w.writing.None? && w.turns != [] {
      var rest := w.(turns := w.turns[1..]);
      match w.turns[0]
      case SnapshotTurn(ticket, s, ps) =>
        var (next, op) := ApplySnapshot(w.memory, ticket.stamp, s, ps);
        ResponsesMove(w.memory, ticket.stamp, s, SessionIssue, ps);
        ResponsesWrite(w.memory, ticket.stamp, s, SessionIssue, ps);
        ResponseLives(rest, ticket, next, op);
      case IssueTurn(ticket, i, ps) =>
        var (next, op) := ApplyIssue(w.memory, ticket.stamp, i, ps);
        IssueMoves(w.memory, ticket.stamp, i, ps);
        ResponsesWrite(w.memory, ticket.stamp, Snapshot("", Device("", DeviceActive, false), []), i, ps);
        ResponseLives(rest, ticket, next, op);
      case _ =>
    }
  }

  lemma {:induction false} LifeKeeps(ms: seq<Move>)
    requires forall k | 0 <= k < |ms| :: Sound(Run(NEW, ms[..k]), ms[k])
    ensures LifeInv(Run(NEW, ms))
  {
    hide Step, Sound, LifeInv;
    if ms == [] {
      NewLives();
    } else {
      var n := |ms| - 1;
      forall k | 0 <= k < n
        ensures ms[..n][..k] == ms[..k] && ms[..n][k] == ms[k]
      {
      }
      LifeKeeps(ms[..n]);
      LifeStep(Run(NEW, ms[..n]), ms[n]);
    }
  }

  lemma NewLives()
    ensures LifeInv(NEW)
  {
  }

  // ----- resuming behind what was already accepted

  /** The next turn is a bind that changes the authority. */
  predicate BindsNext(w: World) {
    && w.writing.None? && w.turns != [] && w.turns[0].BindTurn?
    && !BoundTo(w.memory, w.turns[0].userId, w.turns[0].deviceId)
  }

  function RestoredNext(w: World): Authority
    requires BindsNext(w)
  {
    Restored(w.disk, w.turns[0].userId, w.turns[0].deviceId, w.turns[0].now)
  }

  /** A response has already taken this session beyond this sequence. */
  predicate LiesBehind(log: seq<Accepted>, a: Authority) {
    exists i :: 0 <= i < |log| && log[i].before.session == a.session && a.sequence < log[i].after.sequence
  }

  ghost predicate NeverResumesBehind(ms: seq<Move>) {
    forall k | 0 <= k < |ms| && ms[k].TurnRuns? && BindsNext(Run(NEW, ms[..k])) ::
      !LiesBehind(Run(NEW, ms[..k]).log, RestoredNext(Run(NEW, ms[..k])))
  }

  ghost predicate SessionInv(w: World) {
    && OrderedBySession(w.log)
    && (forall x | x in w.log && w.memory.authority.Some? && x.before.session == w.memory.authority.value.session ::
          x.after.sequence <= w.memory.authority.value.sequence)
  }

  lemma ResponseKeepsSession(w: World, ticket: Ticket, m: Memory, op: Option<DiskOp>)
    requires SessionInv(w) && Moves(w.memory, m, ticket.stamp)
    ensures SessionInv(w.(memory := m, writing := op, log := Logged(w, ticket, m)))
  {
    forall i | 0 <= i < |w.log|
      ensures w.log[i] in w.log
    {
    }
  }

  lemma SessionStep(w: World, m: Move)
    requires SessionInv(w)
    requires m.TurnRuns? && BindsNext(w) ==> !LiesBehind(w.log, RestoredNext(w))
    ensures SessionInv(Step(w, m))
  {
    hide ApplySnapshot, ApplyIssue, Moves, Restored, OrderedBySession;
    if m.TurnRuns? && w.writing.None? && w.turns != [] {
      var rest := w.(turns := w.turns[1..]);
      match w.turns[0]
      case SnapshotTurn(ticket, s, ps) =>
        ResponsesMove(w.memory, ticket.stamp, s, SessionIssue, ps);
        ResponseKeepsSession(rest, ticket, ApplySnapshot(w.memory, ticket.stamp, s, ps).0, ApplySnapshot(w.memory, ticket.stamp, s, ps).1);
      case IssueTurn(ticket, i, ps) =>
        IssueMoves(w.memory, ticket.stamp, i, ps);
        ResponseKeepsSession(rest, ticket, ApplyIssue(w.memory, ticket.stamp, i, ps).0, ApplyIssue(w.memory, ticket.stamp, i, ps).1);
      case _ =>
    }
  }

  lemma {:induction false} SessionKeeps(ms: seq<Move>)
    requires NeverResumesBehind(ms)
    ensures SessionInv(Run(NEW, ms))
  {
    hide Step, SessionInv, LiesBehind, BindsNext;
    if ms == [] {
      NewSession();
    } else {
      var n := |ms| - 1;
      forall k | 0 <= k < n
        ensures ms[..n][..k] == ms[..k] && ms[..n][k] == ms[k]
      {
      }
      SessionKeeps(ms[..n]);
      SessionStep(Run(NEW, ms[..n]), ms[n]);
    }
  }

  lemma NewSession()
    ensures SessionInv(NEW)
  {
  }

  /**
   As long as no bind resumes a session behind a response already accepted, a stamp admits one response
   over the whole life of the installation, restarts and sign-outs included.
   */
  lemma StampsAreSpentOnce(ms: seq<Move>)
    requires NeverResumesBehind(ms)
    ensures var log := Run(NEW, ms).log; forall i, j | 0 <= i < j < |log| :: log[i].ticket.stamp != log[j].ticket.stamp
  {
    hide Run, Step, NeverResumesBehind;
    SessionKeeps(ms);
    RunKeeps(ms);
    var log := Run(NEW, ms).log;
    forall i, j | 0 <= i < j < |log|
      ensures log[i].ticket.stamp != log[j].ticket.stamp
    {
      assert log[i] in log && log[j] in log;
      assert AcceptedOk(Run(NEW, ms), log[i]) && AcceptedOk(Run(NEW, ms), log[j]);
    }
  }

  /** A bind resumes nothing behind when no write is lost and new sessions have names of their own. */
  lemma SoundRunsNeverResumeBehind(ms: seq<Move>)
    requires forall k | 0 <= k < |ms| :: Sound(Run(NEW, ms[..k]), ms[k])
    ensures NeverResumesBehind(ms)
  {
    hide Run, Step, Sound;
    forall k | 0 <= k < |ms| && ms[k].TurnRuns? && BindsNext(Run(NEW, ms[..k]))
      ensures !LiesBehind(Run(NEW, ms[..k]).log, RestoredNext(Run(NEW, ms[..k])))
    {
      forall j | 0 <= j < k
        ensures ms[..k][..j] == ms[..j] && ms[..k][j] == ms[j]
      {
      }
      LifeKeeps(ms[..k]);
      SoundBind(Run(NEW, ms[..k]), ms[k]);
    }
  }

  lemma SoundBind(w: World, m: Move)
    requires LifeInv(w) && Sound(w, m) && m.TurnRuns? && BindsNext(w)
    ensures !LiesBehind(w.log, RestoredNext(w))
  {
    forall i | 0 <= i < |w.log|
      ensures !(w.log[i].before.session == RestoredNext(w).session && RestoredNext(w).sequence < w.log[i].after.sequence)
    {
      assert w.log[i] in w.log;
    }
  }

  /** The world after some more moves. */
  function Then(w: World, ms: seq<Move>): World
    decreases |ms|
  {
    if ms == [] then w else Then(Step(w, ms[0]), ms[1..])
  }

  lemma {:induction false} RunThen(ms: seq<Move>, more: seq<Move>)
    ensures Run(NEW, ms + more) == Then(Run(NEW, ms), more)
    decreases |more|
  {
    if more == [] {
      assert ms + more == ms;
    } else {
      assert (ms + [more[0]])[..|ms|] == ms;
      assert ms + more == (ms + [more[0]]) + more[1..];
      RunThen(ms + [more[0]], more[1..]);
    }
  }

  const REFUSAL := DeviceIssue(DeviceSuspended)
  const SIGN_IN := Authority("u", "d", "1:u", 0, None, None, [])
  const REFUSED := SIGN_IN.(sequence := 1, deviceIssue := Some(DeviceSuspended))

  /** A sign-in on top of what the disk holds, then one refusal. */
  function SignInAndRefuse(ticket: nat, now: string): seq<Move> {
    [BindAsked("u", "d", now), TurnRuns, WriteEnds(true), Capture, IssueArrives(ticket, REFUSAL, []), TurnRuns]
  }

  lemma SignInRefused(w: World, now: string)
    requires w.turns == [] && w.writing.None? && w.clearing == 0 && w.memory.authority.None? && Restored(w.disk, "u", "d", now) == SIGN_IN
    ensures var next := Then(w, SignInAndRefuse(|w.tickets|, now)); var t := Ticket(Stamp("1:u", 0), w.tenure + 1, SIGN_IN);
            && next.turns == [] && next.clearing == 0 && next.memory.authority == Some(REFUSED)
            && next.writing == Some(Store(REFUSED)) && next.disk == Some(SIGN_IN)
            && next.tenure == w.tenure + 1 && next.tickets == w.tickets + [t]
            && next.log == w.log + [Accepted(t, w.tenure + 1, SIGN_IN, REFUSED)]
  {
    hide Then, ReduceSnapshot, RunTurn;
    var t := Ticket(Stamp("1:u", 0), w.tenure + 1, SIGN_IN);
    var bound := Step(w, BindAsked("u", "d", now));
    var running := Step(bound, TurnRuns);
    SignInBound(w, now);
    var held := Step(Step(running, WriteEnds(true)), Capture);
    assert held == running.(writing := None, disk := Some(SIGN_IN), tickets := w.tickets + [t]);
    var refused := Step(held, IssueArrives(|w.tickets|, REFUSAL, []));
    assert refused == held.(turns := [IssueTurn(t, REFUSAL, [])]);
    SignInTurned(held, t);
    SixSteps(w, BindAsked("u", "d", now), TurnRuns, WriteEnds(true), Capture, IssueArrives(|w.tickets|, REFUSAL, []), TurnRuns);
  }

  lemma SignInBound(w: World, now: string)
    requires w.turns == [] && w.writing.None? && w.memory.authority.None? && Restored(w.disk, "u", "d", now) == SIGN_IN
    ensures Step(Step(w, BindAsked("u", "d", now)), TurnRuns)
            == w.(memory := AdvanceSession(w.memory).(ready := true, authority := Some(SIGN_IN)),
                  writing := Some(Store(SIGN_IN)), tenure := w.tenure + 1)
  {
    hide Restored, ApplySnapshot, ApplyIssue;
    assert [BindTurn("u", "d", now)][1..] == w.turns;
  }

  lemma SignInTurned(w: World, t: Ticket)
    requires w.writing.None? && w.turns == [] && w.memory.authority == Some(SIGN_IN) && t.stamp == Stamp("1:u", 0)
    ensures Step(w.(turns := [IssueTurn(t, REFUSAL, [])]), TurnRuns)
            == w.(memory := w.memory.(ready := true, authority := Some(REFUSED), revision := w.memory.revision + 1),
                  writing := Some(Store(REFUSED)), log := w.log + [Accepted(t, w.tenure, SIGN_IN, REFUSED)])
  {
    hide ApplySnapshot, Bind;
    assert [IssueTurn(t, REFUSAL, [])][1..] == w.turns;
  }

  lemma SixSteps(w: World, a: Move, b: Move, c: Move, d: Move, e: Move, f: Move)
    ensures Then(w, [a, b, c, d, e, f]) == Step(Step(Step(Step(Step(Step(w, a), b), c), d), e), f)
  {
    hide Step, Then;
    assert [a, b, c, d, e, f] == [a] + [b, c, d, e, f] && [b, c, d, e, f] == [b] + [c, d, e, f];
    assert [c, d, e, f] == [c] + [d, e, f] && [d, e, f] == [d] + [e, f] && [e, f] == [e] + [f] && [f] == [f] + [];
    OneStep(w, a, [b, c, d, e, f]);
    OneStep(Step(w, a), b, [c, d, e, f]);
    OneStep(Step(Step(w, a), b), c, [d, e, f]);
    var v := Step(Step(Step(w, a), b), c);
    OneStep(v, d, [e, f]);
    OneStep(Step(v, d), e, [f]);
    OneStep(Step(Step(v, d), e), f, []);
    NoStep(Step(Step(Step(v, d), e), f));
  }

  lemma OneStep(w: World, m: Move, rest: seq<Move>)
    ensures Then(w, [m] + rest) == Then(Step(w, m), rest)
  {
    assert ([m] + rest)[1..] == rest;
  }

  lemma NoStep(w: World)
    ensures Then(w, []) == w
  {
  }

  const LOST_WRITE := SignInAndRefuse(0, "1") + [Restart(false)] + SignInAndRefuse(0, "2")

  /** One lost write is enough: a crash after the publication resumes the session behind itself and spends a stamp again. */
  lemma OneLostWriteSpendsAStampTwice()
    ensures var log := Run(NEW, LOST_WRITE).log;
            |log| == 2 && log[0].ticket.stamp == log[1].ticket.stamp && log[0].tenure != log[1].tenure
  {
    hide Then, Run, Step, SignInAndRefuse;
    var first, again := SignInAndRefuse(0, "1"), SignInAndRefuse(0, "2");
    RunNone();
    RunThen([], first);
    assert [] + first == first;
    SignInRefused(NEW, "1");
    CrashLoses(Run(NEW, first));
    RunThen(first, [Restart(false)]);
    SignInRefused(Run(NEW, first + [Restart(false)]), "2");
    RunThen(first + [Restart(false)], again);
  }

  lemma CrashLoses(w: World)
    ensures var next := Then(w, [Restart(false)]);
            && next.turns == [] && next.writing.None? && next.clearing == 0 && next.memory.authority.None?
            && next.disk == w.disk && next.tenure == w.tenure + 1 && next.tickets == [] && next.log == w.log
  {
    OneStep(w, Restart(false), []);
    assert [Restart(false)] + [] == [Restart(false)];
    NoStep(Step(w, Restart(false)));
  }

  // ----- exactly when a bind lets a stamp be spent again

  /** In the tenure that begins here, some response is admitted with a stamp that a response before it bore. */
  ghost predicate Repeats(bound: World, more: seq<Move>) {
    var later := Then(bound, more);
    && later.tenure == bound.tenure && |bound.log| <= |later.log|
    && exists i, j :: 0 <= i < |bound.log| <= j < |later.log| && later.log[i].ticket.stamp == later.log[j].ticket.stamp
  }

  /** Since the bind: the old log is kept, and what the tenure has accepted starts from the restored authority. */
  ghost predicate SinceBind(w: World, tenure: nat, before: seq<Accepted>, a: Authority) {
    && tenure <= w.tenure
    && (w.tenure == tenure ==>
          && before <= w.log
          && (forall j | |before| <= j < |w.log| :: w.log[j].before.session == a.session && a.sequence <= w.log[j].before.sequence)
          && (w.memory.authority.Some? ==>
                w.memory.authority.value.session == a.session && a.sequence <= w.memory.authority.value.sequence))
  }

  lemma SinceBindStep(w: World, m: Move, tenure: nat, before: seq<Accepted>, a: Authority)
    requires SinceBind(w, tenure, before, a)
    ensures SinceBind(Step(w, m), tenure, before, a)
  {
    hide ApplySnapshot, ApplyIssue, Restored;
    TenureStep(w, m);
  }

  lemma {:induction false} SinceBindKeeps(w: World, more: seq<Move>, tenure: nat, before: seq<Accepted>, a: Authority)
    requires SinceBind(w, tenure, before, a)
    ensures SinceBind(Then(w, more), tenure, before, a)
    decreases |more|
  {
    hide Step, SinceBind;
    if more != [] {
      SinceBindStep(w, more[0], tenure, before, a);
      SinceBindKeeps(Step(w, more[0]), more[1..], tenure, before, a);
    }
  }

  /** Since the bind every sequence from the restored one up to the one in force has been spent by a response. */
  ghost predicate Covers(w: World, tenure: nat, before: seq<Accepted>, a: Authority) {
    && w.tenure == tenure && before <= w.log && w.memory.authority.Some?
    && w.memory.authority.value.session == a.session && a.sequence <= w.memory.authority.value.sequence
    && (forall n | a.sequence <= n < w.memory.authority.value.sequence :: Spends(w.log, |before|, Stamp(a.session, n)))
  }

  predicate Spends(log: seq<Accepted>, from: nat, stamp: Stamp) {
    exists j :: from <= j < |log| && Stamp(log[j].before.session, log[j].before.sequence) == stamp
  }

  predicate Responses(turns: seq<Turn>) { forall k | 0 <= k < |turns| :: turns[k].SnapshotTurn? || turns[k].IssueTurn? }

  lemma SpendsMore(log: seq<Accepted>, x: Accepted, from: nat, stamp: Stamp)
    ensures Spends(log, from, stamp) ==> Spends(log + [x], from, stamp)
    ensures from <= |log| && Stamp(x.before.session, x.before.sequence) == stamp ==> Spends(log + [x], from, stamp)
  {
    if Spends(log, from, stamp) {
      var j :| from <= j < |log| && Stamp(log[j].before.session, log[j].before.sequence) == stamp;
      assert (log + [x])[j] == log[j];
    }
    assert (log + [x])[|log|] == x;
  }

  lemma ResponseCovers(w: World, ticket: Ticket, m: Memory, op: Option<DiskOp>, tenure: nat, before: seq<Accepted>, a: Authority)
    requires Covers(w, tenure, before, a) && Moves(w.memory, m, ticket.stamp)
    ensures Covers(w.(memory := m, writing := op, log := Logged(w, ticket, m)), tenure, before, a)
  {
    hide Spends;
    if m.authority != w.memory.authority {
      var x := Accepted(ticket, w.tenure, w.memory.authority.value, m.authority.value);
      forall n | a.sequence <= n < m.authority.value.sequence
        ensures Spends(w.log + [x], |before|, Stamp(a.session, n))
      {
        SpendsMore(w.log, x, |before|, Stamp(a.session, n));
      }
    }
  }

  lemma TurnCovers(w: World, tenure: nat, before: seq<Accepted>, a: Authority)
    requires Covers(w, tenure, before, a) && w.writing.None? && w.turns != [] && Responses(w.turns)
    ensures var next := Step(w, TurnRuns); Covers(next, tenure, before, a) && next.turns == w.turns[1..]
  {
    hide ApplySnapshot, ApplyIssue, Moves, Covers;
    var t, rest := w.turns[0], w.(turns := w.turns[1..]);
    CoversRest(w, rest, tenure, before, a);
    match t
    case SnapshotTurn(ticket, s, ps) =>
      ResponsesMove(w.memory, ticket.stamp, s, SessionIssue, ps);
      ResponseCovers(rest, ticket, ApplySnapshot(w.memory, ticket.stamp, s, ps).0, ApplySnapshot(w.memory, ticket.stamp, s, ps).1, tenure, before, a);
    case IssueTurn(ticket, i, ps) =>
      IssueMoves(w.memory, ticket.stamp, i, ps);
      ResponseCovers(rest, ticket, ApplyIssue(w.memory, ticket.stamp, i, ps).0, ApplyIssue(w.memory, ticket.stamp, i, ps).1, tenure, before, a);
  }

  lemma CoversRest(w: World, rest: World, tenure: nat, before: seq<Accepted>, a: Authority)
    requires Covers(w, tenure, before, a) && rest.memory == w.memory && rest.log == w.log && rest.tenure == w.tenure
    ensures Covers(rest, tenure, before, a)
  {
  }

  lemma {:induction false} ThenMore(w: World, ms: seq<Move>, more: seq<Move>)
    ensures Then(w, ms + more) == Then(Then(w, ms), more)
    decreases |ms|
  {
    if ms == [] {
      assert ms + more == more;
    } else {
      assert (ms + more)[1..] == ms[1..] + more;
      ThenMore(Step(w, ms[0]), ms[1..], more);
    }
  }

  lemma ThenTwo(w: World, m: Move, n: Move)
    ensures Then(w, [m, n]) == Step(Step(w, m), n)
  {
    hide Step, Then;
    assert [m, n] == [m] + [n] && [n] == [n] + [];
    OneStep(w, m, [n]);
    OneStep(Step(w, m), n, []);
    NoStep(Step(Step(w, m), n));
  }

  /** The waiting responses are worked off, each write ending before the next turn. */
  lemma {:induction false} WorksOff(w: World, tenure: nat, before: seq<Accepted>, a: Authority) returns (more: seq<Move>)
    requires Covers(w, tenure, before, a) && Responses(w.turns)
    ensures var v := Then(w, more); Covers(v, tenure, before, a) && v.turns == [] && v.writing.None?
    decreases |w.turns|
  {
    hide Covers, Then;
    var ended := Step(w, WriteEnds(true));
    CoversRest(w, ended, tenure, before, a);
    if w.turns == [] {
      more := [WriteEnds(true)];
      OneStep(w, WriteEnds(true), []);
      NoStep(ended);
      assert [WriteEnds(true)] + [] == more;
    } else {
      TurnCovers(ended, tenure, before, a);
      var rest := WorksOff(Step(ended, TurnRuns), tenure, before, a);
      ThenTwo(w, WriteEnds(true), TurnRuns);
      ThenMore(w, [WriteEnds(true), TurnRuns], rest);
      more := [WriteEnds(true), TurnRuns] + rest;
    }
  }

  /** A refusal of the device, captured, queued and run, takes the sequence one further. */
  lemma OneRefusal(w: World, tenure: nat, before: seq<Accepted>, a: Authority) returns (more: seq<Move>)
    requires Covers(w, tenure, before, a) && w.turns == [] && w.writing.None?
    ensures var v := Then(w, more);
            && Covers(v, tenure, before, a) && v.turns == [] && v.writing.None?
            && v.memory.authority.value.sequence == w.memory.authority.value.sequence + 1
  {
    hide Then, ReduceSnapshot, Spends;
    var held := w.memory.authority.value;
    var t := Ticket(Stamp(held.session, held.sequence), w.tenure, held);
    var captured := Step(w, Capture);
    var queued := Step(captured, IssueArrives(|w.tickets|, REFUSAL, []));
    assert queued == w.(tickets := w.tickets + [t], turns := [IssueTurn(t, REFUSAL, [])]);
    CoversRest(w, queued, tenure, before, a);
    TurnCovers(queued, tenure, before, a);
    var done := Step(queued, TurnRuns);
    RefusalMoves(queued, t);
    CoversRest(done, Step(done, WriteEnds(true)), tenure, before, a);
    ThenTwo(w, Capture, IssueArrives(|w.tickets|, REFUSAL, []));
    ThenTwo(queued, TurnRuns, WriteEnds(true));
    ThenMore(w, [Capture, IssueArrives(|w.tickets|, REFUSAL, [])], [TurnRuns, WriteEnds(true)]);
    more := [Capture, IssueArrives(|w.tickets|, REFUSAL, [])] + [TurnRuns, WriteEnds(true)];
  }

  lemma RefusalMoves(w: World, t: Ticket)
    requires w.turns == [IssueTurn(t, REFUSAL, [])] && w.writing.None?
    requires w.memory.authority.Some? && t.stamp == Stamp(w.memory.authority.value.session, w.memory.authority.value.sequence)
    ensures var next := Step(w, TurnRuns).memory.authority;
            next.Some? && next.value.sequence == w.memory.authority.value.sequence + 1
  {
    hide ApplySnapshot, Bind;
  }

  /** So the sequence can be taken beyond any target. */
  lemma {:induction false} RefusalsReach(w: World, target: nat, tenure: nat, before: seq<Accepted>, a: Authority) returns (more: seq<Move>)
    requires Covers(w, tenure, before, a) && w.turns == [] && w.writing.None?
    ensures var v := Then(w, more); Covers(v, tenure, before, a) && target < v.memory.authority.value.sequence
    decreases target + 1 - w.memory.authority.value.sequence
  {
    hide Then;
    if target < w.memory.authority.value.sequence {
      more := [];
      NoStep(w);
    } else {
      var first := OneRefusal(w, tenure, before, a);
      var rest := RefusalsReach(Then(w, first), target, tenure, before, a);
      ThenMore(w, first, rest);
      more := first + rest;
    }
  }

  lemma BindStarts(w: World)
    requires BindsNext(w)
    ensures var bound := Step(w, TurnRuns);
            && bound.memory.authority == Some(RestoredNext(w)) && bound.log == w.log && bound.turns == w.turns[1..]
            && bound.tenure == w.tenure + 1
            && Covers(bound, bound.tenure, w.log, RestoredNext(w)) && SinceBind(bound, bound.tenure, w.log, RestoredNext(w))
  {
    hide Restored;
  }

  /**
   A bind is about to run with nothing but responses waiting behind it. In its tenure a response can be
   admitted with a stamp already spent if and only if the bind resumes a session behind a logged response.
   */
  lemma StampsRepeatExactly(ms: seq<Move>)
    requires BindsNext(Run(NEW, ms)) && Responses(Run(NEW, ms).turns[1..])
    ensures var w := Run(NEW, ms);
            (exists more :: Repeats(Step(w, TurnRuns), more)) <==> LiesBehind(w.log, RestoredNext(w))
  {
    hide Run, Step, Then, BindsNext, Repeats, LiesBehind;
    var w := Run(NEW, ms);
    if LiesBehind(w.log, RestoredNext(w)) {
      var more := RepeatReached(ms);
      assert Repeats(Step(w, TurnRuns), more);
    }
    if exists more :: Repeats(Step(w, TurnRuns), more) {
      var more :| Repeats(Step(w, TurnRuns), more);
      RepeatIsBehind(ms, more);
    }
  }

  lemma LogIsOk(ms: seq<Move>, more: seq<Move>)
    ensures forall x | x in Then(Step(Run(NEW, ms), TurnRuns), more).log ::
              x.ticket.stamp == Stamp(x.before.session, x.before.sequence) && x.before.sequence + 1 == x.after.sequence
  {
    hide Run, Step, Then;
    RunThen(ms, [TurnRuns] + more);
    OneStep(Run(NEW, ms), TurnRuns, more);
    RunKeeps(ms + ([TurnRuns] + more));
  }

  lemma RepeatReached(ms: seq<Move>) returns (more: seq<Move>)
    requires var w := Run(NEW, ms); BindsNext(w) && Responses(w.turns[1..]) && LiesBehind(w.log, RestoredNext(w))
    ensures Repeats(Step(Run(NEW, ms), TurnRuns), more)
  {
    hide Run, Step, Then, BindsNext, Responses;
    var w := Run(NEW, ms);
    var a, bound := RestoredNext(w), Step(w, TurnRuns);
    var i :| 0 <= i < |w.log| && w.log[i].before.session == a.session && a.sequence < w.log[i].after.sequence;
    var target := w.log[i].before.sequence;
    BindStarts(w);
    var first := WorksOff(bound, bound.tenure, w.log, a);
    var rest := RefusalsReach(Then(bound, first), target, bound.tenure, w.log, a);
    more := first + rest;
    ThenMore(bound, first, rest);
    LogIsOk(ms, more);
    LogIsOk(ms, []);
    NoStep(bound);
    assert w.log[i] in bound.log;
    var later := Then(bound, more);
    assert Spends(later.log, |w.log|, Stamp(a.session, target));
    var j :| |w.log| <= j < |later.log| && Stamp(later.log[j].before.session, later.log[j].before.sequence) == Stamp(a.session, target);
    assert later.log[j] in later.log && later.log[i] == w.log[i];
    assert later.log[i].ticket.stamp == later.log[j].ticket.stamp;
  }

  lemma RepeatIsBehind(ms: seq<Move>, more: seq<Move>)
    requires BindsNext(Run(NEW, ms)) && Repeats(Step(Run(NEW, ms), TurnRuns), more)
    ensures LiesBehind(Run(NEW, ms).log, RestoredNext(Run(NEW, ms)))
  {
    hide Run, Step, Then, BindsNext;
    var w := Run(NEW, ms);
    var a, bound := RestoredNext(w), Step(w, TurnRuns);
    BindStarts(w);
    SinceBindKeeps(bound, more, bound.tenure, w.log, a);
    LogIsOk(ms, more);
    var later := Then(bound, more);
    var i, j :| 0 <= i < |bound.log| <= j < |later.log| && later.log[i].ticket.stamp == later.log[j].ticket.stamp;
    assert later.log[i] in later.log && later.log[j] in later.log && later.log[i] == w.log[i];
  }

  lemma RunNone()
    ensures Run(NEW, []) == NEW
  {
  }

  // ----- whose authority is in force, and what a turn decides

  predicate IsOf(a: Option<Authority>, userId: string, deviceId: string) {
    a.Some? && a.value.userId == userId && a.value.deviceId == deviceId
  }

  predicate RunsNow(w: World, t: Turn) { w.writing.None? && w.turns != [] && w.turns[0] == t }

  /**
   In every run the turn of a bind leaves an authority of that user and device in force. One already in force
   stays as it is; else it is the one on disk exactly if that one is theirs, and otherwise a new one at sequence 0
   that restricts nothing, written to disk. Then no request sent before is current any more.
   */
  lemma BindDecides(ms: seq<Move>, userId: string, deviceId: string, now: string)
    requires RunsNow(Run(NEW, ms), BindTurn(userId, deviceId, now))
    ensures var w := Run(NEW, ms); var next := Step(w, TurnRuns); var a := next.memory.authority;
            && IsOf(a, userId, deviceId) && next.memory.ready
            && (if w.memory.ready && IsOf(w.memory.authority, userId, deviceId) then next.memory == w.memory && next.writing == None
                else
                  && (a == w.disk <==> IsOf(w.disk, userId, deviceId))
                  && (a != w.disk ==> a.value.sequence == 0 && a.value.snapshot == None && a.value.deviceIssue == None
                                      && a.value.restrictions == [] && a.value.session == now + ":" + userId)
                  && next.writing == Some(Store(a.value)) && next.memory.epoch == w.memory.epoch + 1
                  && forall r | r in next.requests :: !CurrentRequest(next.memory, r.epoch, r.revision))
  {
    hide Run;
    RunKeeps(ms);
  }

  /** Within a tenure, from one bind to the next, the authority stays that of the same user and device. */
  lemma {:induction false} TheirsUntilTheNextBind(ms: seq<Move>, more: seq<Move>)
    ensures var w, later := Run(NEW, ms), Run(NEW, ms + more);
            w.tenure == later.tenure && later.memory.authority.Some? ==>
              IsOf(w.memory.authority, later.memory.authority.value.userId, later.memory.authority.value.deviceId)
    decreases |more|
  {
    hide Step;
    if more == [] {
      assert ms + more == ms;
    } else {
      var n := |more| - 1;
      TheirsUntilTheNextBind(ms, more[..n]);
      SequenceNeverDecreases(ms, more[..n]);
      assert (ms + more)[..|ms + more| - 1] == ms + more[..n];
      TenureStep(Run(NEW, ms + more[..n]), more[n]);
      OwnersStep(Run(NEW, ms + more[..n]), more[n]);
    }
  }

  lemma OwnersStep(w: World, m: Move)
    ensures var next := Step(w, m);
            w.tenure == next.tenure && next.memory.authority.Some? ==>
              IsOf(w.memory.authority, next.memory.authority.value.userId, next.memory.authority.value.deviceId)
  {
    hide ReduceSnapshot, ReduceIssue;
    if m.TurnRuns? && w.turns != [] && w.memory.authority.Some? {
      match w.turns[0]
      case SnapshotTurn(t, s, ps) => ReducersMoveOn(w.memory.authority.value, s, SessionIssue, ps);
      case IssueTurn(t, i, ps) => ReducersMoveOn(w.memory.authority.value, Snapshot("", Device("", DeviceActive, false), []), i, ps);
      case _ =>
    }
  }

  /** A step of a tenure changes it only at a bind that does not find its authority in force, or a restart. */
  lemma TenureEndsExactly(w: World, m: Move)
    ensures Step(w, m).tenure == w.tenure + 1 || Step(w, m).tenure == w.tenure
    ensures Step(w, m).tenure != w.tenure <==>
              m.Restart? || (m.TurnRuns? && w.writing.None? && w.turns != [] && w.turns[0].BindTurn?
                             && !(w.memory.ready && IsOf(w.memory.authority, w.turns[0].userId, w.turns[0].deviceId)))
  {
    hide ApplySnapshot, ApplyIssue, Restored;
  }

  /** The stamp names the authority in force. */
  predicate Names(stamp: Stamp, a: Option<Authority>) { a.Some? && a.value.session == stamp.session && a.value.sequence == stamp.sequence }

  /**
   In every run the turn of a snapshot takes it in exactly if its stamp names the authority in force and it is
   of the same device as the snapshot before it, if any; the new authority is written. Else nothing changes.
   */
  lemma SnapshotTurnDecides(ms: seq<Move>, ticket: Ticket, s: Snapshot, ps: seq<Profile>)
    requires RunsNow(Run(NEW, ms), SnapshotTurn(ticket, s, ps))
    ensures var w := Run(NEW, ms); var next := Step(w, TurnRuns); var a := w.memory.authority;
            if Names(ticket.stamp, a) && (a.value.snapshot.None? || a.value.snapshot.value.device.id == s.device.id) then
              && next.memory.authority == ReduceSnapshot(a.value, s, ps) && next.memory.authority.Some?
              && next.writing == Some(Store(next.memory.authority.value))
              && next.memory.epoch == w.memory.epoch && next.memory.revision == w.memory.revision + 1
            else next.memory == w.memory && next.writing == None
  {
    hide Run;
    var a := Run(NEW, ms).memory.authority;
    if a.Some? {
      MismatchIs(a.value, s, ps);
      hide ReduceSnapshot;
      ReducersMoveOn(a.value, s, SessionIssue, ps);
    }
  }

  lemma MismatchIs(a: Authority, s: Snapshot, ps: seq<Profile>)
    ensures ReduceSnapshot(a, s, ps).None? <==> a.snapshot.Some? && a.snapshot.value.device.id != s.device.id
  {
  }

  /** The turn of a refusal takes it in exactly if its stamp names the authority in force and it is not about the session. */
  lemma IssueTurnDecides(ms: seq<Move>, ticket: Ticket, i: Issue, ps: seq<Profile>)
    requires RunsNow(Run(NEW, ms), IssueTurn(ticket, i, ps))
    ensures var w := Run(NEW, ms); var next := Step(w, TurnRuns); var a := w.memory.authority;
            if Names(ticket.stamp, a) && !i.SessionIssue? then
              && next.memory.authority == Some(ReduceIssue(a.value, i, ps))
              && next.writing == Some(Store(ReduceIssue(a.value, i, ps))) && next.memory.epoch == w.memory.epoch
            else next.memory == w.memory && next.writing == None
  {
    hide Run, ReduceIssue;
    var a := Run(NEW, ms).memory.authority;
    if a.Some? {
      ReducersMoveOn(a.value, Snapshot("", Device("", DeviceActive, false), []), i, ps);
    }
  }

  /** An authority is adopted exactly if none is in force or it is of the same user, device and session and not older. */
  lemma AdoptsExactly(m: Memory, a: Authority)
    ensures var (next, write) := Adopt(m, a);
            if m.authority == None
               || (IsOf(m.authority, a.userId, a.deviceId) && m.authority.value.session == a.session && m.authority.value.sequence <= a.sequence)
            then
              && write == Some(Store(a)) && next.authority == Some(a) && next.ready && next.epoch == m.epoch
              && next.revision == (if m.authority == None || m.authority.value.sequence != a.sequence then m.revision + 1 else m.revision)
            else next == m && write == None
  {
  }

  /** A sign-out makes every request sent before stale at once; its turn leaves no authority, in memory or on disk. */
  lemma SignOutDecides(ms: seq<Move>)
    ensures var next := Step(Run(NEW, ms), ClearAsked);
            next.memory.epoch == Run(NEW, ms).memory.epoch + 1 &&
            forall r | r in next.requests :: !CurrentRequest(next.memory, r.epoch, r.revision)
    ensures var w := Run(NEW, ms); RunsNow(w, ClearTurn) ==>
              var next := Step(w, TurnRuns);
              next.memory.authority == None && !next.memory.ready && Step(next, WriteEnds(true)).disk == None
  {
    hide Run;
    RunKeeps(ms);
  }
}
