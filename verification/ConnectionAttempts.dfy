/**
 The connection attempts of app-mobile/contexts/VpnContext.tsx on Android: a generation counter that
 every attempt takes a number from and every stop advances, the timers, and the sequence numbers of the
 engine. What the attempts wait for may end in any order.
 */
module ConnectionAttempts {
  import opened Wrappers

  datatype Stage =
    | Prelude             // before the attempt has a number
    | ReadingMemory
    | AskingPermission
    | Loading
    | Measuring
    | Starting
    | Over

  datatype Attempt = Attempt(identity: nat, id: Option<nat>, stage: Stage)

  /** Calls of the engine: a stop carries the generation that it was issued under. */
  datatype Call = StartVpn(id: nat) | StopVpn(generation: nat) | StrayStop

  datatype Stop = Stop(id: nat, ended: bool)

  datatype World = World(
    generation: nat, epoch: nat, attempts: seq<Attempt>, calls: seq<Call>,
    watchdog: Option<nat>, echelon: Option<nat>,
    lastStop: nat, stopping: bool, stops: seq<Stop>,
    revoked: bool, relaunching: bool, nativeSequence: nat)

  const START := World(0, 0, [], [], None, None, 0, false, [], false, false, 0)

  datatype Move =
    | Tap
    | PreludeEnds(a: nat, passes: bool, connecting: bool)
    | MemoryRead(a: nat, passes: bool)
    | PermissionAnswered(a: nat, granted: bool)
    | ConfigLoaded(a: nat, passes: bool)
    | Measured(a: nat, passes: bool, echelon: bool)
    | StartReturned(a: nat)
    | WatchdogFires
    | WatchdogRearmed
    | TimersCleared
    | EchelonFires(advances: bool)
    | EngineFails(advances: bool)
    | LateConnected
    | StopAsked                                   // disconnect, stopForAccess
    | StopEnds(k: nat)
    | IdentityChanges
    | StateEvent(sequence: Option<int>, permissionLost: bool)
    | PollReply(sequence: Option<int>, permissionLost: bool)
    | RuntimeReply(sequence: Option<int>, permissionLost: bool, recorded: bool)

  // ----- pieces

  function SetStage(w: World, a: nat, stage: Stage): World
    requires a < |w.attempts|
  {
    w.(attempts := w.attempts[a := w.attempts[a].(stage := stage)])
  }

  predicate In(w: World, a: nat, stage: Stage) {
    a < |w.attempts| && w.attempts[a].stage == stage && (stage.Prelude? || w.attempts[a].id.Some?)
  }

  /** The attempt is the newest and belongs to the identity in force. */
  predicate Newest(w: World, a: nat)
    requires a < |w.attempts|
  {
    w.attempts[a].id == Some(w.generation) && w.attempts[a].identity == w.epoch
  }

  /** A bump followed at once by a stop of the engine. */
  function StopEngine(w: World): World {
    w.(generation := w.generation + 1, calls := w.calls + [StopVpn(w.generation + 1)])
  }

  function AddTap(w: World): World { w.(attempts := w.attempts + [Attempt(w.epoch, None, Prelude)]) }

  /** A relaunch keeps the presentation just chosen; any other attempt reads the one remembered first. */
  function TakeNumber(w: World, a: nat, connecting: bool): World
    requires a < |w.attempts|
  {
    var cancelled := if connecting then StopEngine(w).(watchdog := None) else w;
    var id := cancelled.generation + 1;
    var at := cancelled.attempts[a];
    var stage := if !w.relaunching then ReadingMemory else if at.identity == w.epoch then AskingPermission else Over;
    cancelled.(generation := id, echelon := None, relaunching := false, attempts := cancelled.attempts[a := at.(id := Some(id), stage := stage)])
  }

  function StartTunnel(w: World, a: nat, echelon: bool): World
    requires a < |w.attempts| && w.attempts[a].id.Some?
  {
    var id := w.attempts[a].id.value;
    SetStage(w, a, Starting).(calls := w.calls + [StartVpn(id)], watchdog := Some(id), echelon := if echelon then Some(id) else None)
  }

  /** avancerEchelon, when it relaunches: the engine is stopped and connect is called again. */
  function Relaunch(w: World): World { AddTap(StopEngine(w).(watchdog := None, echelon := None, relaunching := true)) }

  function LosePermission(w: World): World {
    w.(generation := if w.revoked then w.generation else w.generation + 1, revoked := true, relaunching := false, watchdog := None, echelon := None)
  }

  function AskStop(w: World): World {
    var s := StopEngine(w);
    s.(lastStop := s.generation, stopping := true, stops := w.stops + [Stop(s.generation, false)], watchdog := None, echelon := None)
  }

  function EndStop(w: World, k: nat): World
    requires k < |w.stops|
  {
    w.(stops := w.stops[k := w.stops[k].(ended := true)], stopping := w.stopping && w.lastStop != w.stops[k].id)
  }

  /** A state event is taken only if its number is new. */
  predicate Stale(w: World, sequence: Option<int>) { sequence.Some? && sequence.value > 0 && sequence.value <= w.nativeSequence }

  function Record(w: World, sequence: Option<int>): World {
    if sequence.Some? && sequence.value >= 0 then w.(nativeSequence := sequence.value) else w
  }

  predicate Behind(w: World, sequence: Option<int>) { sequence.Some? && sequence.value < w.nativeSequence }

  // ----- the steps

  function StepAttempt(w: World, m: Move): World {
    match m
    case Tap => AddTap(w)
    case PreludeEnds(a, passes, connecting) =>
      if !In(w, a, Prelude) then w
      else if !passes then SetStage(w, a, Over)
      else TakeNumber(w, a, connecting)
    case MemoryRead(a, passes) =>
      if !In(w, a, ReadingMemory) then w
      else SetStage(w, a, if Newest(w, a) && passes then AskingPermission else Over)
    case PermissionAnswered(a, granted) =>
      if !In(w, a, AskingPermission) then w
      else if !granted || w.attempts[a].id != Some(w.generation) then SetStage(w, a, Over)
      else SetStage(w, a, Loading).(revoked := false)
    case ConfigLoaded(a, passes) =>
      if !In(w, a, Loading) then w else SetStage(w, a, if passes && Newest(w, a) then Measuring else Over)
    case Measured(a, passes, echelon) =>
      if !In(w, a, Measuring) then w
      else if passes && Newest(w, a) then StartTunnel(w, a, echelon)
      else SetStage(w, a, Over)
    case StartReturned(a) => if In(w, a, Starting) then SetStage(w, a, Over) else w
    case _ => w
  }

  function StepStop(w: World, m: Move): World {
    match m
    case WatchdogFires => if w.watchdog == Some(w.generation) then StopEngine(w).(watchdog := None) else w
    case WatchdogRearmed => if w.watchdog.Some? then w.(watchdog := Some(w.generation)) else w
    case TimersCleared => w.(watchdog := None, echelon := None)
    case EchelonFires(advances) =>
      if w.echelon == Some(w.generation) && advances then Relaunch(w) else w.(echelon := None)
    case EngineFails(advances) =>
      var cleared := w.(watchdog := None);
      if advances then Relaunch(cleared) else cleared.(echelon := None)
    case LateConnected => w.(calls := w.calls + [StrayStop])
    case StopAsked => AskStop(w)
    case StopEnds(k) => if k < |w.stops| then EndStop(w, k) else w
    case IdentityChanges => w.(epoch := w.epoch + 1)
    case _ => w
  }

  function StepReport(w: World, m: Move): World {
    match m
    case StateEvent(s, lost) =>
      if Stale(w, s) then w
      else
        var noted := if s.Some? && s.value > 0 then Record(w, s) else w;
        if lost then LosePermission(noted) else noted
    case PollReply(s, lost) => if lost && !Behind(w, s) then LosePermission(Record(w, s)) else w
    case RuntimeReply(s, lost, recorded) =>
      if Behind(w, s) || !recorded then w else if lost then LosePermission(Record(w, s)) else Record(w, s)
    case _ => w
  }

  function Step(w: World, m: Move): World {
    if m.StateEvent? || m.PollReply? || m.RuntimeReply? then StepReport(w, m)
    else if m.Tap? || m.PreludeEnds? || m.MemoryRead? || m.PermissionAnswered? || m.ConfigLoaded? || m.Measured? || m.StartReturned?
    then StepAttempt(w, m)
    else StepStop(w, m)
  }

  function Run(w: World, ms: seq<Move>): World {
    if ms == [] then w else Step(Run(w, ms[..|ms| - 1]), ms[|ms| - 1])
  }

  lemma StopIsAsked(w: World)
    ensures Step(w, StopAsked) == AskStop(w)
  {
  }

  // ----- the refs of the context

  class Refs {
    var connectionAttempt: nat
    var epoch: nat
    var attempts: seq<Attempt>
    ghost var calls: seq<Call>
    var watchdog: Option<nat>
    var echelon: Option<nat>
    var lastStopAttempt: nat
    var disconnectInFlight: bool
    ghost var stops: seq<Stop>
    var vpnPermissionRevoked: bool
    var echelonRelance: bool
    var nativeStateSequence: nat

    ghost function Contents(): World
      reads this
    {
      World(connectionAttempt, epoch, attempts, calls, watchdog, echelon, lastStopAttempt, disconnectInFlight, stops,
            vpnPermissionRevoked, echelonRelance, nativeStateSequence)
    }

    constructor ()
      ensures Contents() == START
    {
      connectionAttempt, epoch, attempts, calls, watchdog, echelon := 0, 0, [], [], None, None;
      lastStopAttempt, disconnectInFlight, stops, vpnPermissionRevoked := 0, false, [], false;
      echelonRelance, nativeStateSequence := false, 0;
    }

    /** connect, from the end of its prelude to its first pause. */
    method BeginAttempt(a: nat, connecting: bool)
      requires In(Contents(), a, Prelude)
      modifies this
      ensures Contents() == Step(old(Contents()), PreludeEnds(a, true, connecting))
    {
      if connecting {
        connectionAttempt := connectionAttempt + 1;
        watchdog := None;
        calls := calls + [StopVpn(connectionAttempt)];
      }
      connectionAttempt := connectionAttempt + 1;
      echelon := None;
      var stage := ReadingMemory;
      if echelonRelance {
        echelonRelance := false;
        stage := if attempts[a].identity == epoch then AskingPermission else Over;
      }
      attempts := attempts[a := attempts[a].(id := Some(connectionAttempt), stage := stage)];
    }

    /** The last pause is over: the engine is started if the attempt is still the newest. */
    method FinishAttempt(a: nat, passes: bool, armed: bool)
      requires In(Contents(), a, Measuring)
      modifies this
      ensures Contents() == Step(old(Contents()), Measured(a, passes, armed))
    {
      var at := attempts[a];
      if !passes || at.id != Some(connectionAttempt) || at.identity != epoch {
        attempts := attempts[a := at.(stage := Over)];
        return;
      }
      attempts := attempts[a := at.(stage := Starting)];
      watchdog := at.id;
      echelon := if armed then at.id else None;
      calls := calls + [StartVpn(at.id.value)];
    }

    method FireWatchdog()
      modifies this
      ensures Contents() == Step(old(Contents()), WatchdogFires)
    {
      hide StepAttempt, StepReport;
      if watchdog != Some(connectionAttempt) {
        return;
      }
      connectionAttempt := connectionAttempt + 1;
      calls := calls + [StopVpn(connectionAttempt)];
      watchdog := None;
    }

    /** disconnect and stopForAccess, up to their first pause. */
    method BeginStop()
      modifies this
      ensures Contents() == Step(old(Contents()), StopAsked)
    {
      hide Step;
      StopIsAsked(Contents());
      connectionAttempt := connectionAttempt + 1;
      lastStopAttempt, disconnectInFlight, watchdog, echelon := connectionAttempt, true, None, None;
      stops, calls := stops + [Stop(connectionAttempt, false)], calls + [StopVpn(connectionAttempt)];
    }

    /** Their finally block; `stopAttempt` is the number that the stop took. */
    method FinishStop(stopAttempt: nat, ghost k: nat)
      requires k < |stops| && stops[k].id == stopAttempt
      modifies this
      ensures Contents() == Step(old(Contents()), StopEnds(k))
    {
      if lastStopAttempt == stopAttempt {
        disconnectInFlight := false;
      }
      stops := stops[k := stops[k].(ended := true)];
    }

    method OnPermissionLost()
      modifies this
      ensures Contents() == LosePermission(old(Contents()))
    {
      if !vpnPermissionRevoked {
        connectionAttempt := connectionAttempt + 1;
      }
      vpnPermissionRevoked, echelonRelance := true, false;
      watchdog, echelon := None, None;
    }

    method OnStateChange(sequence: Option<int>, permissionLost: bool)
      modifies this
      ensures Contents() == Step(old(Contents()), StateEvent(sequence, permissionLost))
    {
      if sequence.Some? && sequence.value > 0 {
        if sequence.value <= nativeStateSequence {
          return;
        }
        nativeStateSequence := sequence.value;
      }
      if permissionLost {
        OnPermissionLost();
      }
    }

    /** avancerEchelon from the timer: a refused presentation is given up and connect is called again. */
    method FireEchelon(advances: bool)
      modifies this
      ensures Contents() == Step(old(Contents()), EchelonFires(advances))
    {
      hide StepAttempt, StepReport;
      var armed := echelon;
      echelon := None;
      if armed != Some(connectionAttempt) || !advances {
        return;
      }
      echelonRelance := true;
      connectionAttempt := connectionAttempt + 1;
      watchdog := None;
      calls := calls + [StopVpn(connectionAttempt)];
      attempts := attempts + [Attempt(epoch, None, Prelude)];
    }

    /** The polling of the counters, when it reports that the permission is gone. */
    method OnPollReply(sequence: Option<int>, permissionLost: bool)
      modifies this
      ensures Contents() == Step(old(Contents()), PollReply(sequence, permissionLost))
    {
      if permissionLost && (sequence.None? || sequence.value >= nativeStateSequence) {
        if sequence.Some? {
          nativeStateSequence := sequence.value;
        }
        OnPermissionLost();
      }
    }

    /** syncNativeRuntime: a reply behind the last number is dropped. */
    method OnRuntimeReply(sequence: Option<int>, permissionLost: bool, recorded: bool)
      modifies this
      ensures Contents() == Step(old(Contents()), RuntimeReply(sequence, permissionLost, recorded))
    {
      if (sequence.Some? && sequence.value < nativeStateSequence) || !recorded {
        return;
      }
      if sequence.Some? {
        nativeStateSequence := sequence.value;
      }
      if permissionLost {
        OnPermissionLost();
      }
    }
  }
}
