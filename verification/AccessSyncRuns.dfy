/**
 reconcileAccess with everything that can happen while it waits: a new authority, the end of the
 session, another tunnel, other writers of the store. Authorities are compared as objects: `version`
 counts the objects published.
 */
module AccessSyncRuns {
  import opened Wrappers
  import opened AccessPolicy
  import opened AccessPolicyRuns
  import opened ConfigStore
  import opened AccessSync

  /** What a reconciliation took at its start, and the stop it owes. */
  datatype Held = Held(lifecycle: nat, version: nat, authority: Authority, owesStop: bool, stopped: bool)

  datatype Phase =
    | Idle
    | Stopping(held: Held)
    | Listing(held: Held)
    | Scanning(held: Held, entries: seq<Meta>, next: nat)
    | Removing(held: Held, entries: seq<Meta>, next: nat)
    | Rewriting(held: Held, entries: seq<Meta>, next: nat)

  /** A removal asked of the store. */
  datatype Removal = Removal(entry: Meta, held: Held)

  /** `asked` lists the removals asked for, `removed` the indices of those that the store has performed. */
  datatype World = World(
    authority: Option<Authority>, version: nat, lifecycle: nat, running: Option<Profile>, registry: seq<Meta>,
    phase: Phase, asked: seq<Removal>, removed: seq<nat>)

  datatype Move =
    | Begin
    | StopEnds(stopped: bool)
    | ListEnds(listed: bool)
    | NextEntry
    | RemoveEnds(done: bool)
    | RewriteEnds(done: bool)
    | AuthorityPublished(authority: Option<Authority>)
    | LifecycleAdvances
    | TunnelChanges(running: Option<Profile>)
    | StoreSaves(entry: Meta, choice: Choice)
    | StoreRemoves(id: string)

  function Start(registry: seq<Meta>): World { World(None, 0, 0, None, registry, Idle, [], []) }

  predicate StillCurrent(w: World, h: Held) { w.lifecycle == h.lifecycle && w.version == h.version }

  function ScanEntry(w: World, h: Held, entries: seq<Meta>, i: nat): World
    requires i < |entries|
  {
    var m := entries[i];
    if Condemned(h.authority, m.profile) then
      w.(phase := Removing(h, entries, i), asked := w.asked + [Removal(m, h)])
    else w.(phase := Rewriting(h, entries, i))
  }

  function Step(w: World, m: Move): World {
    match m
    case Begin =>
      if !w.phase.Idle? || w.authority.None? then w
      else
        var owes := StopsTunnel(w.authority.value, w.running);
        var h := Held(w.lifecycle, w.version, w.authority.value, owes, false);
        w.(phase := if owes then Stopping(h) else Listing(h))
    case StopEnds(stopped) =>
      if !w.phase.Stopping? then w
      else if !stopped then w.(phase := Idle)
      else w.(running := None, phase := if StillCurrent(w, w.phase.held) then Listing(w.phase.held.(stopped := true)) else Idle)
    case ListEnds(listed) =>
      if !w.phase.Listing? then w
      else if listed && StillCurrent(w, w.phase.held) then w.(phase := Scanning(w.phase.held, w.registry, 0))
      else w.(phase := Idle)
    case NextEntry =>
      if !w.phase.Scanning? then w
      else if w.phase.next >= |w.phase.entries| || !StillCurrent(w, w.phase.held) then w.(phase := Idle)
      else ScanEntry(w, w.phase.held, w.phase.entries, w.phase.next)
    case RemoveEnds(done) =>
      if !w.phase.Removing? || w.phase.next >= |w.phase.entries| then w
      else if !done then w.(phase := Idle)
      else
        var m := w.phase.entries[w.phase.next];
        w.(registry := RemoveMeta(w.registry, Id(m)), removed := w.removed + (if w.asked == [] then [] else [|w.asked| - 1]),
           phase := Scanning(w.phase.held, w.phase.entries, w.phase.next + 1))
    case RewriteEnds(done) =>
      if !w.phase.Rewriting? || w.phase.next >= |w.phase.entries| then w
      else if !done then w.(phase := Idle)
      else
        var m := w.phase.entries[w.phase.next];
        w.(registry := ReconcileEntry(w.phase.held.authority, w.registry, m),
           phase := Scanning(w.phase.held, w.phase.entries, w.phase.next + 1))
    case AuthorityPublished(a) => w.(authority := a, version := w.version + 1)
    case LifecycleAdvances => w.(lifecycle := w.lifecycle + 1)
    case TunnelChanges(p) => w.(running := p)
    case StoreSaves(entry, choice) => w.(registry := SaveMeta(w.registry, entry, choice))
    case StoreRemoves(id) => w.(registry := RemoveMeta(w.registry, id))
  }

  function Run(w: World, ms: seq<Move>): World {
    if ms == [] then w else Step(Run(w, ms[..|ms| - 1]), ms[|ms| - 1])
  }

  // ----- the invariant

  predicate HeldOk(w: World, h: Held) {
    h.version <= w.version && (h.version == w.version ==> w.authority == Some(h.authority))
  }

  /** Past the stop, a tunnel that had to be stopped has been. */
  predicate PhaseOk(w: World) {
    match w.phase
    case Idle => true
    case Stopping(h) => HeldOk(w, h) && !h.stopped && h.owesStop
    case Listing(h) => HeldOk(w, h) && (h.owesStop ==> h.stopped)
    case Scanning(h, _, _) => HeldOk(w, h) && (h.owesStop ==> h.stopped)
    case Removing(h, entries, i) =>
      && HeldOk(w, h) && (h.owesStop ==> h.stopped) && i < |entries| && Condemned(h.authority, entries[i].profile)
      && w.asked != [] && w.asked[|w.asked| - 1] == Removal(entries[i], h)
      && (w.removed == [] || w.removed[|w.removed| - 1] < |w.asked| - 1)
    case Rewriting(h, entries, i) =>
      HeldOk(w, h) && (h.owesStop ==> h.stopped) && i < |entries| && !Condemned(h.authority, entries[i].profile)
  }

  /** Each removal performed is one that was asked for, once and in the order of asking. */
  predicate InOrder(w: World) {
    && (forall k | 0 <= k < |w.removed| :: w.removed[k] < |w.asked|)
    && (forall j, k | 0 <= j < k < |w.removed| :: w.removed[j] < w.removed[k])
  }

  predicate WInv(w: World) { PhaseOk(w) && InOrder(w) }

  lemma StepKeeps(w: World, m: Move)
    requires WInv(w)
    ensures WInv(Step(w, m))
  {
    hide Condemned, StopsTunnel, RemoveMeta, ReconcileEntry, SaveMeta;
  }

  lemma {:induction false} RunKeeps(reg: seq<Meta>, ms: seq<Move>)
    ensures WInv(Run(Start(reg), ms))
  {
    hide Step;
    if ms != [] {
      RunKeeps(reg, ms[..|ms| - 1]);
      StepKeeps(Run(Start(reg), ms[..|ms| - 1]), ms[|ms| - 1]);
    }
  }

  // ----- where in the run a removal was asked for, and where it ended

  /** The world before move p. */
  function At(reg: seq<Meta>, ms: seq<Move>, p: nat): World
    requires p <= |ms|
  {
    Run(Start(reg), ms[..p])
  }

  /** Move p asks for the i-th removal, under the authority that condemns its entry. */
  predicate AsksAt(reg: seq<Meta>, ms: seq<Move>, p: nat, i: nat, r: Removal) {
    && p < |ms| && ms[p].NextEntry?
    && var w := At(reg, ms, p);
    && w.phase.Scanning? && w.phase.held == r.held && w.phase.next < |w.phase.entries| && w.phase.entries[w.phase.next] == r.entry
    && StillCurrent(w, r.held) && w.authority == Some(r.held.authority) && Condemned(r.held.authority, r.entry.profile)
    && |w.asked| == i
  }

  /** Move q ends the stop that this reconciliation owed. */
  predicate StopEndsAt(reg: seq<Meta>, ms: seq<Move>, q: nat, h: Held) {
    && q < |ms| && ms[q] == StopEnds(true)
    && At(reg, ms, q).phase == Stopping(h.(stopped := false)) && StillCurrent(At(reg, ms, q), h)
  }

  /** Move e performs the i-th removal, the k-th to be performed. */
  predicate EndsAt(reg: seq<Meta>, ms: seq<Move>, e: nat, k: nat, i: nat, r: Removal) {
    && e < |ms| && ms[e] == RemoveEnds(true)
    && var w := At(reg, ms, e);
    && w.phase.Removing? && w.phase.held == r.held && w.phase.next < |w.phase.entries| && w.phase.entries[w.phase.next] == r.entry
    && |w.asked| == i + 1 && |w.removed| == k
  }

  ghost predicate StopDone(reg: seq<Meta>, ms: seq<Move>, before: nat, h: Held) {
    h.owesStop ==> exists q :: 0 <= q < before && StopEndsAt(reg, ms, q, h)
  }

  lemma AtPrefix(reg: seq<Meta>, ms: seq<Move>, n: nat, p: nat)
    requires p <= n <= |ms|
    ensures At(reg, ms[..n], p) == At(reg, ms, p)
    ensures p < n ==> ms[..n][p] == ms[p]
  {
    assert ms[..n][..p] == ms[..p];
  }

  lemma StopDonePrefix(reg: seq<Meta>, ms: seq<Move>, n: nat, before: nat, h: Held)
    requires before <= n <= |ms| && StopDone(reg, ms[..n], before, h)
    ensures StopDone(reg, ms, before, h)
  {
    hide At;
    if h.owesStop {
      var q :| 0 <= q < before && StopEndsAt(reg, ms[..n], q, h);
      AtPrefix(reg, ms, n, q);
      assert StopEndsAt(reg, ms, q, h);
    }
  }

  predicate PastStop(phase: Phase) { phase.Listing? || phase.Scanning? || phase.Removing? || phase.Rewriting? }

  /** A reconciliation past its stop has seen the stop end. */
  lemma {:induction false} OwedStopEnded(reg: seq<Meta>, ms: seq<Move>)
    ensures var w := Run(Start(reg), ms); PastStop(w.phase) ==> StopDone(reg, ms, |ms|, w.phase.held)
    decreases |ms|
  {
    hide Condemned, StopsTunnel, RemoveMeta, ReconcileEntry, SaveMeta, StopDone;
    if ms != [] {
      var n := |ms| - 1;
      var before, w := Run(Start(reg), ms[..n]), Run(Start(reg), ms);
      OwedStopEnded(reg, ms[..n]);
      RunKeeps(reg, ms[..n]);
      if PastStop(w.phase) {
        if PastStop(before.phase) {
          StopDoneLonger(reg, ms, n, before.phase.held);
        } else {
          assert before.phase.Stopping? ==> StopEndsAt(reg, ms, n, w.phase.held);
          StopDoneNow(reg, ms, n, w.phase.held);
        }
      }
    }
  }

  lemma StopDoneLonger(reg: seq<Meta>, ms: seq<Move>, n: nat, h: Held)
    requires n < |ms| && StopDone(reg, ms[..n], n, h)
    ensures StopDone(reg, ms, |ms|, h)
  {
    hide At, StopEndsAt;
    StopDonePrefix(reg, ms, n, n, h);
  }

  lemma StopDoneNow(reg: seq<Meta>, ms: seq<Move>, n: nat, h: Held)
    requires n < |ms| && (StopEndsAt(reg, ms, n, h) || !h.owesStop)
    ensures StopDone(reg, ms, |ms|, h)
  {
    hide At, StopEndsAt;
  }

  ghost predicate AskedOk(reg: seq<Meta>, ms: seq<Move>, i: nat, r: Removal) {
    exists p :: AsksAt(reg, ms, p, i, r) && StopDone(reg, ms, p, r.held)
  }

  lemma AskedOkLonger(reg: seq<Meta>, ms: seq<Move>, n: nat, i: nat, r: Removal)
    requires n <= |ms| && AskedOk(reg, ms[..n], i, r)
    ensures AskedOk(reg, ms, i, r)
  {
    hide At, StopDone, Condemned;
    var p :| AsksAt(reg, ms[..n], p, i, r) && StopDone(reg, ms[..n], p, r.held);
    AtPrefix(reg, ms, n, p);
    StopDonePrefix(reg, ms, n, p, r.held);
    assert AsksAt(reg, ms, p, i, r);
  }

  /**
   In every interleaving each removal was asked for by one move of the run, while the authority that
   condemns the entry was in force, and after the move that ended the stop it calls for.
   */
  lemma {:induction false} AskedWhileCondemned(reg: seq<Meta>, ms: seq<Move>, i: nat)
    ensures var w := Run(Start(reg), ms); i < |w.asked| ==> AskedOk(reg, ms, i, w.asked[i])
    decreases |ms|
  {
    hide Condemned, StopsTunnel, RemoveMeta, ReconcileEntry, SaveMeta, AskedOk;
    if ms != [] {
      var n := |ms| - 1;
      var before, w := Run(Start(reg), ms[..n]), Run(Start(reg), ms);
      AskedWhileCondemned(reg, ms[..n], i);
      AskedGrow(before, ms[n]);
      if i < |before.asked| {
        AskedOkLonger(reg, ms, n, i, before.asked[i]);
      } else if i < |w.asked| {
        RunKeeps(reg, ms[..n]);
        OwedStopEnded(reg, ms[..n]);
        StopDonePrefix(reg, ms, n, n, before.phase.held);
        assert AsksAt(reg, ms, n, i, w.asked[i]);
        AskedNow(reg, ms, n, i, w.asked[i]);
      }
    }
  }

  lemma AskedNow(reg: seq<Meta>, ms: seq<Move>, p: nat, i: nat, r: Removal)
    requires AsksAt(reg, ms, p, i, r) && StopDone(reg, ms, p, r.held)
    ensures AskedOk(reg, ms, i, r)
  {
    hide AsksAt, StopDone;
  }

  lemma AskedGrow(w: World, m: Move)
    ensures w.asked <= Step(w, m).asked && |Step(w, m).asked| <= |w.asked| + 1
    ensures w.removed <= Step(w, m).removed && |Step(w, m).removed| <= |w.removed| + 1
  {
    hide Condemned, StopsTunnel, RemoveMeta, ReconcileEntry, SaveMeta;
  }

  ghost predicate RemovedOk(reg: seq<Meta>, ms: seq<Move>, k: nat, i: nat, r: Removal) {
    exists p, e :: AsksAt(reg, ms, p, i, r) && StopDone(reg, ms, p, r.held) && EndsAt(reg, ms, e, k, i, r) && p < e
  }

  lemma RemovedOkLonger(reg: seq<Meta>, ms: seq<Move>, n: nat, k: nat, i: nat, r: Removal)
    requires n <= |ms| && RemovedOk(reg, ms[..n], k, i, r)
    ensures RemovedOk(reg, ms, k, i, r)
  {
    hide At, StopDone, Condemned;
    var p, e :| AsksAt(reg, ms[..n], p, i, r) && StopDone(reg, ms[..n], p, r.held) && EndsAt(reg, ms[..n], e, k, i, r) && p < e;
    AtPrefix(reg, ms, n, p);
    AtPrefix(reg, ms, n, e);
    StopDonePrefix(reg, ms, n, p, r.held);
    assert AsksAt(reg, ms, p, i, r) && EndsAt(reg, ms, e, k, i, r);
  }

  /**
   In every interleaving each removal performed is one of those asked for, once and in their order: a move
   asked for it while the authority that condemns the entry was in force and after the stop that it calls
   for, and a later move ended it.
   */
  lemma {:induction false} RemovedWhileCondemned(reg: seq<Meta>, ms: seq<Move>)
    ensures var w := Run(Start(reg), ms);
            InOrder(w) && forall k | 0 <= k < |w.removed| :: RemovedOk(reg, ms, k, w.removed[k], w.asked[w.removed[k]])
    decreases |ms|
  {
    hide Step, RemovedOk, PhaseOk;
    RunKeeps(reg, ms);
    if ms != [] {
      var n := |ms| - 1;
      var before, w := Run(Start(reg), ms[..n]), Run(Start(reg), ms);
      RemovedWhileCondemned(reg, ms[..n]);
      AskedGrow(before, ms[n]);
      forall k | 0 <= k < |w.removed|
        ensures RemovedOk(reg, ms, k, w.removed[k], w.asked[w.removed[k]])
      {
        if k < |before.removed| {
          RemovedOkLonger(reg, ms, n, k, before.removed[k], before.asked[before.removed[k]]);
        } else {
          LastRemoved(reg, ms);
        }
      }
    }
  }

  /** A move that removes ends the removal last asked for. */
  lemma RemovesTheLastAsked(w: World, m: Move)
    requires PhaseOk(w) && |w.removed| < |Step(w, m).removed|
    ensures m == RemoveEnds(true) && w.phase.Removing? && w.phase.next < |w.phase.entries| && w.asked != []
    ensures w.asked[|w.asked| - 1] == Removal(w.phase.entries[w.phase.next], w.phase.held)
    ensures Step(w, m).removed == w.removed + [|w.asked| - 1] && Step(w, m).asked == w.asked
  {
    hide Condemned, StopsTunnel, RemoveMeta, ReconcileEntry, SaveMeta, HeldOk, StillCurrent;
  }

  /** What the last move removes is what was last asked for. */
  lemma LastRemoved(reg: seq<Meta>, ms: seq<Move>)
    requires ms != []
    requires var before, w := Run(Start(reg), ms[..|ms| - 1]), Run(Start(reg), ms); |before.removed| < |w.removed|
    ensures var before, w := Run(Start(reg), ms[..|ms| - 1]), Run(Start(reg), ms); var k := |before.removed|;
            k < |w.removed| && w.removed[k] < |w.asked| && RemovedOk(reg, ms, k, w.removed[k], w.asked[w.removed[k]])
  {
    hide Step, PhaseOk, InOrder, RemovedOk, AskedOk;
    var n := |ms| - 1;
    var before := Run(Start(reg), ms[..n]);
    RunKeeps(reg, ms[..n]);
    RemovesTheLastAsked(before, ms[n]);
    var k, i := |before.removed|, |before.asked| - 1;
    AskedWhileCondemned(reg, ms[..n], i);
    assert EndsAt(reg, ms, n, k, i, before.asked[i]);
    RemovedNow(reg, ms, n, k, i, before.asked[i]);
  }

  lemma RemovedNow(reg: seq<Meta>, ms: seq<Move>, e: nat, k: nat, i: nat, r: Removal)
    requires EndsAt(reg, ms, e, k, i, r) && AskedOk(reg, ms[..e], i, r)
    ensures RemovedOk(reg, ms, k, i, r)
  {
    hide At, StopDone, Condemned, EndsAt;
    assert e < |ms| by { EndsWithin(reg, ms, e, k, i, r); }
    var p :| AsksAt(reg, ms[..e], p, i, r) && StopDone(reg, ms[..e], p, r.held);
    AtPrefix(reg, ms, e, p);
    StopDonePrefix(reg, ms, e, p, r.held);
    assert AsksAt(reg, ms, p, i, r);
  }

  lemma EndsWithin(reg: seq<Meta>, ms: seq<Move>, e: nat, k: nat, i: nat, r: Removal)
    requires EndsAt(reg, ms, e, k, i, r)
    ensures e < |ms|
  {
  }

  // ----- exactly when a removal ends under the authority that it was asked under

  predicate Disturbs(m: Move) { m.AuthorityPublished? || m.LifecycleAdvances? }

  /** Versions and lifecycles only advance, and exactly with the moves that disturb. */
  lemma {:induction false} CurrentUntilDisturbed(reg: seq<Meta>, ms: seq<Move>, p: nat, e: nat)
    requires p <= e <= |ms|
    ensures var w, later := At(reg, ms, p), At(reg, ms, e);
            && w.version <= later.version && w.lifecycle <= later.lifecycle
            && ((w.version == later.version && w.lifecycle == later.lifecycle) <==> forall q | p <= q < e :: !Disturbs(ms[q]))
    decreases e
  {
    hide Condemned, StopsTunnel, RemoveMeta, ReconcileEntry, SaveMeta;
    if p < e {
      CurrentUntilDisturbed(reg, ms, p, e - 1);
      assert ms[..e][..e - 1] == ms[..e - 1];
    }
  }

  /**
   A removal ends under the authority and in the lifecycle that it was asked under if and only if no
   authority is published and the lifecycle does not advance between the two moves.
   */
  lemma EndsUnderItsAuthorityExactly(reg: seq<Meta>, ms: seq<Move>, p: nat, e: nat, k: nat, i: nat, r: Removal)
    requires AsksAt(reg, ms, p, i, r) && EndsAt(reg, ms, e, k, i, r) && p < e
    ensures StillCurrent(At(reg, ms, e), r.held) <==> forall q | p < q < e :: !Disturbs(ms[q])
    ensures StillCurrent(At(reg, ms, e), r.held) ==> At(reg, ms, e).authority == Some(r.held.authority)
  {
    hide Run, Condemned;
    CurrentUntilDisturbed(reg, ms, p, e);
    RunKeeps(reg, ms[..e]);
  }

  const PROFILE := Profile("p", None, None, Some(Backend), "")
  const DELETES := ReduceIssue(Fresh("u", "d", "s"), SubscriptionIssue(Deleted, "p"), [PROFILE])
  const RESTORES := Snapshot("r", Device("d", DeviceActive, false), [Subscription("p", "", Active, None)])
  const FREES := Authority("u", "d", "s", 2, Some(RESTORES), None, [])
  const LATE_RELEASE := [
    AuthorityPublished(Some(DELETES)), Begin, ListEnds(true), NextEntry, AuthorityPublished(Some(FREES)), RemoveEnds(true)]

  const DELETED := Restriction("p", Deleted, {}, "")

  lemma DeletesIs()
    ensures DELETES == Authority("u", "d", "s", 1, None, None, [DELETED])
  {
    var start := AccessPolicyRuns.Fresh("u", "d", "s");
    assert [PROFILE][1..] == [];
    assert LocalHashes([PROFILE], "p") == {} by { assert LocalHashes([PROFILE][1..], "p") == {}; }
    assert Remote(start, "p") == None && HashesOf(start.restrictions, "p") == {};
    assert WithoutId(start.restrictions, "p") == [];
    assert FirstLocalName([PROFILE], "p") == "";
  }

  lemma OneCandidate(a: Authority)
    requires a.snapshot.None?
    ensures Candidates(a, [PROFILE]) == [Candidate("p", "", None)]
  {
    assert [PROFILE][..0] == [] && AddProfiles([], []) == [];
  }

  lemma NothingMarked()
    ensures MarkOmitted([DELETED], [Candidate("p", "", None)], RESTORES) == [DELETED]
  {
    var cs := [Candidate("p", "", None)];
    assert Lists(RESTORES, "p") by { assert RESTORES.subscriptions[0].id == "p"; }
    assert cs[..0] == [] && MarkOmitted([DELETED], cs[..0], RESTORES) == [DELETED];
  }

  lemma ActiveEntryFrees(cs: seq<Candidate>)
    ensures ApplyEntries([DELETED], RESTORES.subscriptions, cs) == []
  {
    hide CandidateHash;
    var subs := RESTORES.subscriptions;
    assert subs[..0] == [] && ApplyEntries([DELETED], subs[..0], cs) == [DELETED];
    assert Delete([DELETED], "p") == [];
  }

  /** The authority that frees the profile is what a snapshot listing it as active makes of the other. */
  lemma DeletesThenFrees()
    ensures ReduceSnapshot(DELETES, RESTORES, [PROFILE]) == Some(FREES)
  {
    hide Candidates, MarkOmitted, ApplyEntries, FromList;
    DeletesIs();
    OneCandidate(DELETES);
    FromUniqueList([DELETED]);
    NothingMarked();
    ActiveEntryFrees([Candidate("p", "", None)]);
  }

  lemma Standings()
    ensures Condemned(DELETES, PROFILE) && ProfileRestriction(FREES, PROFILE) == None
  {
    DeletesIs();
    assert FirstConcerning([DELETED], PROFILE) == Some(DELETED);
    assert FirstListed(RESTORES.subscriptions, PROFILE) == Some(RESTORES.subscriptions[0]);
  }

  lemma Extended(w: World, ms: seq<Move>, m: Move)
    ensures Run(w, ms + [m]) == Step(Run(w, ms), m)
  {
    assert (ms + [m])[..|ms|] == ms;
  }

  lemma RunNone(w: World)
    ensures Run(w, []) == w
  {
  }

  /** A run in which the profile is free again before the store has performed the removal: it is removed all the same. */
  lemma ALateReleaseSavesNothing()
    ensures var w := Run(Start([Meta(PROFILE, true, 0, None)]), LATE_RELEASE);
            w.registry == [] && w.removed == [0] && w.authority == Some(FREES) && ProfileRestriction(FREES, PROFILE) == None
    ensures ReduceSnapshot(DELETES, RESTORES, [PROFILE]) == Some(FREES)
  {
    hide Run, Condemned, ProfileRestriction, ReduceIssue, ReduceSnapshot, RemoveMeta;
    var m := Meta(PROFILE, true, 0, None);
    var start := Start([m]);
    LateReleaseParts();
    DeletesThenFrees();
    RunNone(start);
    Extended(start, [], LATE_RELEASE[0]);
    var published := start.(authority := Some(DELETES), version := 1);
    var h := Held(0, 1, DELETES, false, false);
    Extended(start, LATE_RELEASE[..1], LATE_RELEASE[1]);
    Extended(start, LATE_RELEASE[..2], LATE_RELEASE[2]);
    assert [] + [LATE_RELEASE[0]] == LATE_RELEASE[..1] && LATE_RELEASE[..1] + [LATE_RELEASE[1]] == LATE_RELEASE[..2];
    assert LATE_RELEASE[..2] + [LATE_RELEASE[2]] == LATE_RELEASE[..3] && LATE_RELEASE[..3] + [LATE_RELEASE[3]] == LATE_RELEASE[..4];
    assert LATE_RELEASE[..4] + [LATE_RELEASE[4]] == LATE_RELEASE[..5] && LATE_RELEASE[..5] + [LATE_RELEASE[5]] == LATE_RELEASE;
    assert Run(start, LATE_RELEASE[..3]) == published.(phase := Scanning(h, [m], 0));
    Extended(start, LATE_RELEASE[..3], LATE_RELEASE[3]);
    Extended(start, LATE_RELEASE[..4], LATE_RELEASE[4]);
    Extended(start, LATE_RELEASE[..5], LATE_RELEASE[5]);
    RemovesAll(m);
  }

  lemma LateReleaseParts()
    ensures Condemned(DELETES, PROFILE) && ProfileRestriction(FREES, PROFILE) == None
  {
    Standings();
  }

  lemma RemovesAll(m: Meta)
    ensures RemoveMeta([m], Id(m)) == []
  {
    assert [m][1..] == [] && Without([m][1..], Id(m)) == [];
  }

  // ----- the registry

  lemma UpdateKeeps(reg: seq<Meta>, id: string, name: Option<string>, status: ProfileStatus)
    requires UniqueMeta(reg) && AtMostOneActive(reg)
    ensures UniqueMeta(UpdateMeta(reg, id, name, status)) && AtMostOneActive(UpdateMeta(reg, id, name, status))
  {
    UpdateIs(reg, id, name, status);
  }

  lemma RewriteKeeps(a: Authority, reg: seq<Meta>, m: Meta)
    requires UniqueMeta(reg) && AtMostOneActive(reg)
    ensures UniqueMeta(ReconcileEntry(a, reg, m)) && AtMostOneActive(ReconcileEntry(a, reg, m))
  {
    hide Condemned, ProfileRestriction, Remote, UniqueMeta, AtMostOneActive, RemoveMeta;
    var remote, r := Remote(a, OwnerId(m.profile)), ProfileRestriction(a, m.profile);
    RemoveKeeps(reg, Id(m));
    if remote.Some? {
      UpdateKeeps(reg, Id(m), Some(remote.value.name), remote.value.status);
    }
    if r.Some? {
      UpdateKeeps(reg, Id(m), None, r.value.status);
    }
  }

  lemma RegistryStep(w: World, m: Move)
    requires UniqueMeta(w.registry) && AtMostOneActive(w.registry)
    ensures UniqueMeta(Step(w, m).registry) && AtMostOneActive(Step(w, m).registry)
  {
    hide Condemned, StopsTunnel, RemoveMeta, SaveMeta, ReconcileEntry, UniqueMeta, AtMostOneActive;
    match m
    case RemoveEnds(_) =>
      if w.phase.Removing? && w.phase.next < |w.phase.entries| {
        RemoveKeeps(w.registry, Id(w.phase.entries[w.phase.next]));
      }
    case RewriteEnds(_) =>
      if w.phase.Rewriting? && w.phase.next < |w.phase.entries| {
        RewriteKeeps(w.phase.held.authority, w.registry, w.phase.entries[w.phase.next]);
      }
    case StoreSaves(entry, choice) => SaveBounds(w.registry, entry, choice);
    case StoreRemoves(id) => RemoveKeeps(w.registry, id);
    case _ =>
  }

  lemma {:induction false} RegistryKeeps(reg: seq<Meta>, ms: seq<Move>)
    requires UniqueMeta(reg) && AtMostOneActive(reg)
    ensures var w := Run(Start(reg), ms); UniqueMeta(w.registry) && AtMostOneActive(w.registry)
  {
    hide Step, UniqueMeta, AtMostOneActive;
    if ms != [] {
      RegistryKeeps(reg, ms[..|ms| - 1]);
      RegistryStep(Run(Start(reg), ms[..|ms| - 1]), ms[|ms| - 1]);
    }
  }

  /** A step of the reconciliation takes nothing from the store but the entry that it asked for. */
  lemma OnlyTheAskedEntryGoes(reg: seq<Meta>, ms: seq<Move>, m: Move, e: Meta)
    requires UniqueMeta(reg) && AtMostOneActive(reg) && !m.StoreSaves? && !m.StoreRemoves?
    ensures var w := Run(Start(reg), ms);
            e in w.registry && Id(e) !in Ids(Step(w, m).registry) ==>
              && m == RemoveEnds(true) && w.asked != [] && Step(w, m).removed == w.removed + [|w.asked| - 1]
              && Id(e) == Id(w.asked[|w.asked| - 1].entry)
  {
    hide Condemned, StopsTunnel, RemoveMeta, SaveMeta, ReconcileEntry, UniqueMeta, AtMostOneActive, Run;
    var w := Run(Start(reg), ms);
    RunKeeps(reg, ms);
    RegistryKeeps(reg, ms);
    if w.phase.Removing? && w.phase.next < |w.phase.entries| {
      RemoveKeeps(w.registry, Id(w.phase.entries[w.phase.next]));
    }
    if w.phase.Rewriting? && w.phase.next < |w.phase.entries| {
      RewriteKeepsIds(w.phase.held.authority, w.registry, w.phase.entries[w.phase.next]);
    }
  }

  lemma RewriteKeepsIds(a: Authority, reg: seq<Meta>, m: Meta)
    requires !Condemned(a, m.profile)
    ensures Ids(ReconcileEntry(a, reg, m)) == Ids(reg)
  {
    hide Condemned, ProfileRestriction, Remote;
    var remote, r := Remote(a, OwnerId(m.profile)), ProfileRestriction(a, m.profile);
    if remote.Some? {
      UpdateKeepsIds(reg, Id(m), Some(remote.value.name), remote.value.status);
    }
    if r.Some? {
      UpdateKeepsIds(reg, Id(m), None, r.value.status);
    }
  }

  lemma UpdateKeepsIds(reg: seq<Meta>, id: string, name: Option<string>, status: ProfileStatus)
    ensures Ids(UpdateMeta(reg, id, name, status)) == Ids(reg)
  {
    UpdateIs(reg, id, name, status);
    SameIds(UpdateMeta(reg, id, name, status), reg);
  }

  /**
   The store answers later: in every run an authority published between the request and its end does not
   call the removal back, whatever it says of the profile; it stops the reconciliation after it.
   */
  lemma RemovalIsNotCalledBack(reg: seq<Meta>, ms: seq<Move>, b: Authority)
    requires UniqueMeta(reg) && AtMostOneActive(reg)
    ensures var w := Run(Start(reg), ms);
            w.phase.Removing? ==>
              var late := Step(Step(w, AuthorityPublished(Some(b))), RemoveEnds(true));
              && w.phase.next < |w.phase.entries| && late.authority == Some(b)
              && Ids(late.registry) == Ids(w.registry) - {Id(w.phase.entries[w.phase.next])}
              && Step(late, NextEntry).phase.Idle?
  {
    hide Run, Condemned, RemoveMeta, UniqueMeta, AtMostOneActive;
    RunKeeps(reg, ms);
    RegistryKeeps(reg, ms);
    var w := Run(Start(reg), ms);
    if w.phase.Removing? {
      RemoveKeeps(w.registry, Id(w.phase.entries[w.phase.next]));
    }
  }

  // ----- what each move of a reconciliation decides

  /** A reconciliation begins exactly under an authority, which it holds, and stops the tunnel first exactly if it must. */
  lemma BeginsExactly(w: World)
    requires w.phase.Idle?
    ensures var next := Step(w, Begin);
            match w.authority
            case None => next == w
            case Some(a) =>
              var stops := w.running.Some? && (BlocksDevice(DeviceAccess(a)) || ProfileRestriction(a, w.running.value).Some?);
              var h := Held(w.lifecycle, w.version, a, stops, false);
              next == w.(phase := if stops then Stopping(h) else Listing(h))
  {
    hide ProfileRestriction, BlocksDevice, DeviceAccess;
  }

  /**
   It goes on past each pause exactly if what it waited for succeeded and its authority and session are still in
   force; then it takes the registry as it is, and each entry in turn, to be removed or rewritten.
   */
  lemma GoesOnExactly(w: World)
    ensures w.phase.Stopping? ==>
              var h := w.phase.held; var current := w.lifecycle == h.lifecycle && w.version == h.version;
              && Step(w, StopEnds(true)) == w.(running := None, phase := if current then Listing(h.(stopped := true)) else Idle)
              && Step(w, StopEnds(false)) == w.(phase := Idle)
    ensures w.phase.Listing? ==>
              var h := w.phase.held; var current := w.lifecycle == h.lifecycle && w.version == h.version;
              && Step(w, ListEnds(true)) == w.(phase := if current then Scanning(h, w.registry, 0) else Idle)
              && Step(w, ListEnds(false)) == w.(phase := Idle)
    ensures w.phase.Scanning? ==>
              var h, entries, i := w.phase.held, w.phase.entries, w.phase.next;
              var next := Step(w, NextEntry);
              if i < |entries| && w.lifecycle == h.lifecycle && w.version == h.version then
                var r := ProfileRestriction(h.authority, entries[i].profile);
                if r.Some? && (r.value.status == Revoked || r.value.status == Deleted)
                then next == w.(phase := Removing(h, entries, i), asked := w.asked + [Removal(entries[i], h)])
                else next == w.(phase := Rewriting(h, entries, i))
              else next == w.(phase := Idle)
  {
    hide ProfileRestriction;
  }

  /** A rewrite gives the entry the state and name that the authority held says, and changes no other. */
  lemma RewriteDecides(w: World, k: nat)
    requires w.phase.Rewriting? && w.phase.next < |w.phase.entries| && k < |w.registry|
    requires !Condemned(w.phase.held.authority, w.phase.entries[w.phase.next].profile)
    ensures var next := Step(w, RewriteEnds(true)); var m := w.phase.entries[w.phase.next]; var a := w.phase.held.authority;
            && |next.registry| == |w.registry|
            && next.phase == Scanning(w.phase.held, w.phase.entries, w.phase.next + 1)
            && (if Id(w.registry[k]) != Id(m) then next.registry[k] == w.registry[k]
                else
                  var remote := Remote(a, if m.profile.subscriptionId.Some? then m.profile.subscriptionId.value else m.profile.configId);
                  var managed := m.profile.source == Some(Backend) || (m.profile.source == None && m.profile.subscriptionId.Some?);
                  var r := ProfileRestriction(a, m.profile);
                  next.registry[k] == w.registry[k].(
                    profile := if remote.Some? && managed then w.registry[k].profile.(name := remote.value.name) else w.registry[k].profile,
                    status := if remote.Some? && managed then Some(remote.value.status)
                              else if r.Some? then Some(r.value.status) else w.registry[k].status))
  {
    hide ProfileRestriction, Remote, Condemned;
    var m, a := w.phase.entries[w.phase.next], w.phase.held.authority;
    OwnedIs(m.profile, OwnerId(m.profile));
    var remote, r := Remote(a, OwnerId(m.profile)), ProfileRestriction(a, m.profile);
    if remote.Some? {
      UpdateIs(w.registry, Id(m), Some(remote.value.name), remote.value.status);
    }
    if r.Some? {
      UpdateIs(w.registry, Id(m), None, r.value.status);
    }
  }
}
