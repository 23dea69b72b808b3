/** What the reducers of AccessPolicy do to each identifier, and what every run of them keeps. */
module AccessPolicyRuns {
  import opened Wrappers
  import opened AccessPolicy

  // ----- ordered lists as maps

  predicate UniqueIds(rs: seq<Restriction>) {
    forall i, j | 0 <= i < j < |rs| :: rs[i].id != rs[j].id
  }

  predicate UniqueEntries(subs: seq<Subscription>) {
    forall i, j | 0 <= i < j < |subs| :: subs[i].id != subs[j].id
  }

  /** What a lookup finds is a member; when it finds nothing there is none. */
  lemma LookupIs(rs: seq<Restriction>, id: string)
    ensures match Lookup(rs, id) case Some(r) => r in rs && r.id == id case None => forall r | r in rs :: r.id != id
  {
  }

  /** Taking the members of one identifier away leaves every other lookup as it was. */
  lemma TakenAway(before: seq<Restriction>, after: seq<Restriction>, x: string, id: string)
    requires UniqueIds(before) && forall r :: r in after <==> r in before && r.id != x
    ensures Lookup(after, id) == if id == x then None else Lookup(before, id)
  {
    hide Lookup;
    LookupIs(before, id);
    LookupIs(after, id);
  }

  lemma IndexIs(rs: seq<Restriction>, id: string, i: nat)
    requires i <= |rs| && (i < |rs| ==> rs[i].id == id) && forall k | 0 <= k < i :: rs[k].id != id
    ensures IndexOf(rs, id) == i
  {
  }

  lemma PutEffect(rs: seq<Restriction>, r: Restriction, id: string)
    ensures Lookup(Put(rs, r), id) == if id == r.id then Some(r) else Lookup(rs, id)
  {
    var i, out := IndexOf(rs, r.id), Put(rs, r);
    if id == r.id {
      IndexIs(out, id, i);
    } else {
      var k := IndexOf(rs, id);
      if k == |rs| {
        IndexIs(out, id, |out|);
      } else {
        IndexIs(out, id, k);
      }
    }
  }

  lemma PutUnique(rs: seq<Restriction>, r: Restriction)
    requires UniqueIds(rs)
    ensures UniqueIds(Put(rs, r))
  {
  }

  lemma DeleteEffect(rs: seq<Restriction>, x: string, id: string)
    requires UniqueIds(rs)
    ensures Lookup(Delete(rs, x), id) == if id == x then None else Lookup(rs, id)
    ensures UniqueIds(Delete(rs, x))
  {
    hide Lookup;
    var i, out := IndexOf(rs, x), Delete(rs, x);
    assert |out| == if i < |rs| then |rs| - 1 else |rs|;
    assert forall k | 0 <= k < |out| :: out[k] == rs[if k < i then k else k + 1];
    if i < |rs| {
      assert rs == rs[..i] + [rs[i]] + rs[i + 1..];
    }
    TakenAway(rs, out, x, id);
  }

  lemma {:induction false} WithoutIdHas(rs: seq<Restriction>, x: string)
    requires UniqueIds(rs)
    ensures UniqueIds(WithoutId(rs, x))
    ensures forall r :: r in WithoutId(rs, x) <==> r in rs && r.id != x
  {
    if rs != [] {
      WithoutIdHas(rs[1..], x);
      assert rs == [rs[0]] + rs[1..];
    }
  }

  lemma WithoutEffect(rs: seq<Restriction>, x: string, id: string)
    requires UniqueIds(rs)
    ensures UniqueIds(WithoutId(rs, x))
    ensures forall r | r in WithoutId(rs, x) :: r in rs && r.id != x
    ensures Lookup(WithoutId(rs, x), id) == if id == x then None else Lookup(rs, id)
  {
    hide Lookup, UniqueIds;
    WithoutIdHas(rs, x);
    TakenAway(rs, WithoutId(rs, x), x, id);
  }

  lemma AppendEffect(rs: seq<Restriction>, r: Restriction, id: string)
    requires UniqueIds(rs) && forall x | x in rs :: x.id != r.id
    ensures UniqueIds(rs + [r])
    ensures Lookup(rs + [r], id) == if id == r.id then Some(r) else Lookup(rs, id)
  {
    assert rs + [r] == Put(rs, r);
    PutEffect(rs, r, id);
  }

  lemma {:induction false} FromUniqueList(rs: seq<Restriction>)
    requires UniqueIds(rs)
    ensures FromList(rs) == rs
  {
    if rs != [] {
      var n := |rs| - 1;
      FromUniqueList(rs[..n]);
      IndexIs(rs[..n], rs[n].id, n);
    }
  }

  // ----- the candidates of a snapshot

  predicate UniqueCandidates(cs: seq<Candidate>) {
    forall i, j | 0 <= i < j < |cs| :: cs[i].id != cs[j].id
  }

  function FindCandidate(cs: seq<Candidate>, id: string): Option<Candidate> {
    var i := CandidateAt(cs, id);
    if i < |cs| then Some(cs[i]) else None
  }

  lemma CandidateIs(cs: seq<Candidate>, id: string, i: nat)
    requires i <= |cs| && (i < |cs| ==> cs[i].id == id) && forall k | 0 <= k < i :: cs[k].id != id
    ensures CandidateAt(cs, id) == i
  {
  }

  lemma PutCandidateEffect(cs: seq<Candidate>, c: Candidate, id: string)
    requires UniqueCandidates(cs)
    ensures UniqueCandidates(PutCandidate(cs, c))
    ensures FindCandidate(PutCandidate(cs, c), id) == if id == c.id then Some(c) else FindCandidate(cs, id)
  {
    var i, out := CandidateAt(cs, c.id), PutCandidate(cs, c);
    if id == c.id {
      CandidateIs(out, id, i);
    } else {
      var k := CandidateAt(cs, id);
      if k == |cs| {
        CandidateIs(out, id, |out|);
      } else {
        CandidateIs(out, id, k);
      }
    }
  }

  /** A local profile that the server manages under `id`: it came from there, or names a subscription and was not added by hand. */
  predicate OwnedBy(p: Profile, id: string) {
    && (p.source == Some(Backend) || (p.source == None && p.subscriptionId.Some?))
    && (p.subscriptionId == Some(id) || (p.subscriptionId == None && p.configId == id))
  }

  lemma OwnedIs(p: Profile, id: string)
    ensures OwnedBy(p, id) <==> Managed(p) && OwnerId(p) == id
    ensures Managed(p) <==> p.source == Some(Backend) || (p.source == None && p.subscriptionId.Some?)
  {
    match p.source
    case None =>
    case Some(Backend) =>
    case Some(Manual) =>
  }

  /** The last such profile. */
  function LastOwned(ps: seq<Profile>, id: string): Option<Profile> {
    if ps == [] then None
    else
      var p := ps[|ps| - 1];
      if OwnedBy(p, id) then Some(p) else LastOwned(ps[..|ps| - 1], id)
  }

  /** What is known here under `id`: a managed local profile, or else the entry of the previous inventory. */
  function Known(a: Authority, ps: seq<Profile>, id: string): Option<Candidate> {
    match LastOwned(ps, id)
    case Some(p) => Some(Candidate(id, p.name, p.configHash))
    case None =>
      match Remote(a, id)
      case Some(e) => Some(Candidate(id, e.name, e.configHash))
      case None => None
  }

  lemma {:induction false} FindLast(subs: seq<Subscription>, id: string)
    requires UniqueEntries(subs) && subs != []
    ensures var n := |subs| - 1;
            FindSubscription(subs, id)
            == if subs[n].id == id then Some(subs[n]) else FindSubscription(subs[..n], id)
    ensures var n := |subs| - 1; subs[n].id == id ==> FindSubscription(subs[..n], id).None?
  {
    if |subs| > 1 {
      var n := |subs| - 1;
      FindLast(subs[1..], id);
      assert subs[1..][..n - 1] == subs[..n][1..];
    }
  }

  lemma {:induction false} FindInList(subs: seq<Subscription>, id: string)
    ensures var f := FindSubscription(subs, id);
            if f.Some? then f.value in subs && f.value.id == id else forall e | e in subs :: e.id != id
  {
    if subs != [] {
      FindInList(subs[1..], id);
    }
  }

  lemma {:induction false} KnownCandidatesAre(subs: seq<Subscription>, id: string)
    requires UniqueEntries(subs)
    ensures UniqueCandidates(KnownCandidates(subs))
    ensures FindCandidate(KnownCandidates(subs), id)
            == match FindSubscription(subs, id) case Some(e) => Some(Candidate(id, e.name, e.configHash)) case None => None
  {
    hide PutCandidate, FindCandidate;
    if subs == [] {
      CandidateFindsNothing(id);
    } else {
      var n := |subs| - 1;
      KnownCandidatesAre(subs[..n], id);
      PutCandidateEffect(KnownCandidates(subs[..n]), Candidate(subs[n].id, subs[n].name, subs[n].configHash), id);
      FindLast(subs, id);
    }
  }

  lemma CandidateFindsNothing(id: string)
    ensures FindCandidate([], id) == None
  {
  }

  lemma {:induction false} CandidatesAreKnown(cs: seq<Candidate>, ps: seq<Profile>, id: string)
    requires UniqueCandidates(cs)
    ensures UniqueCandidates(AddProfiles(cs, ps))
    ensures FindCandidate(AddProfiles(cs, ps), id)
            == match LastOwned(ps, id) case Some(p) => Some(Candidate(id, p.name, p.configHash)) case None => FindCandidate(cs, id)
  {
    hide PutCandidate, FindCandidate;
    if ps != [] {
      var n := |ps| - 1;
      var p := ps[n];
      CandidatesAreKnown(cs, ps[..n], id);
      OwnedIs(p, id);
      if Managed(p) {
        PutCandidateEffect(AddProfiles(cs, ps[..n]), Candidate(OwnerId(p), p.name, p.configHash), id);
      }
    }
  }

  lemma CandidatesFound(a: Authority, ps: seq<Profile>, id: string)
    requires a.snapshot.Some? ==> UniqueEntries(a.snapshot.value.subscriptions)
    ensures UniqueCandidates(Candidates(a, ps))
    ensures FindCandidate(Candidates(a, ps), id) == Known(a, ps, id)
  {
    hide PutCandidate, FindCandidate;
    var subs := match a.snapshot case Some(s) => s.subscriptions case None => [];
    KnownCandidatesAre(subs, id);
    CandidatesAreKnown(KnownCandidates(subs), ps, id);
  }

  // ----- the effect of a snapshot, identifier by identifier

  lemma {:induction false} MarkOmittedEffect(rs: seq<Restriction>, cs: seq<Candidate>, s: Snapshot, id: string)
    requires UniqueIds(rs) && UniqueCandidates(cs)
    ensures UniqueIds(MarkOmitted(rs, cs, s))
    ensures Lookup(MarkOmitted(rs, cs, s), id)
            == var c := FindCandidate(cs, id);
               if c.Some? && !MinimalDeviceSnapshot(s) && !Lists(s, id)
               then Some(Restriction(id, Deleted, HashesOf(rs, id) + HashSet(c.value.hash), c.value.name))
               else Lookup(rs, id)
  {
    hide Put, Lookup, Lists, MinimalDeviceSnapshot, UniqueIds;
    if cs == [] {
    } else {
      var n := |cs| - 1;
      var before, c := MarkOmitted(rs, cs[..n], s), cs[n];
      MarkOmittedEffect(rs, cs[..n], s, id);
      CandidateOfPrefix(cs, id);
      if !MinimalDeviceSnapshot(s) && !Lists(s, c.id) {
        var r := Restriction(c.id, Deleted, HashesOf(before, c.id) + HashSet(c.hash), c.name);
        PutUnique(before, r);
        PutEffect(before, r, id);
      }
    }
  }

  lemma CandidateOfPrefix(cs: seq<Candidate>, id: string)
    requires UniqueCandidates(cs) && cs != []
    ensures var n := |cs| - 1;
            && FindCandidate(cs, id) == (if cs[n].id == id then Some(cs[n]) else FindCandidate(cs[..n], id))
            && (cs[n].id == id ==> FindCandidate(cs[..n], id) == None)
  {
    var n := |cs| - 1;
    var k := CandidateAt(cs[..n], id);
    if cs[n].id == id {
      CandidateIs(cs, id, n);
      CandidateIs(cs[..n], id, n);
    } else if k < n {
      CandidateIs(cs, id, k);
    } else {
      CandidateIs(cs, id, |cs|);
    }
  }

  lemma {:induction false} ApplyEntriesEffect(rs: seq<Restriction>, subs: seq<Subscription>, cs: seq<Candidate>, id: string)
    requires UniqueIds(rs) && UniqueEntries(subs)
    ensures UniqueIds(ApplyEntries(rs, subs, cs))
    ensures Lookup(ApplyEntries(rs, subs, cs), id)
            == match FindSubscription(subs, id)
               case None => Lookup(rs, id)
               case Some(e) =>
                 if e.status == Active then None
                 else Some(Restriction(id, e.status, HashesOf(rs, id) + CandidateHash(cs, id) + HashSet(e.configHash), e.name))
  {
    hide Put, Delete, Lookup, UniqueIds, CandidateHash;
    if subs != [] {
      var n := |subs| - 1;
      var before, e := ApplyEntries(rs, subs[..n], cs), subs[n];
      ApplyEntriesEffect(rs, subs[..n], cs, id);
      FindLast(subs, id);
      if !Blocks(e.status) {
        DeleteEffect(before, e.id, id);
      } else {
        var r := Restriction(e.id, e.status, HashesOf(before, e.id) + CandidateHash(cs, e.id) + HashSet(e.configHash), e.name);
        PutUnique(before, r);
        PutEffect(before, r, id);
      }
    }
  }

  function KnownHash(a: Authority, ps: seq<Profile>, id: string): set<string> {
    match Known(a, ps, id) case Some(c) => HashSet(c.hash) case None => {}
  }

  /** A snapshot of a deleted or lost binding, which lists nothing. */
  predicate WithoutInventory(s: Snapshot) {
    && s.subscriptions == []
    && (s.device.status == DeviceDeleted || (s.device.status == DeviceRevoked && s.device.activationRequired))
  }

  predicate OtherDevice(a: Authority, s: Snapshot) { a.snapshot.Some? && a.snapshot.value.device.id != s.device.id }

  /** The restriction of `id` after a snapshot: the entry decides, then the omission, then the past. */
  function AfterSnapshot(a: Authority, s: Snapshot, ps: seq<Profile>, id: string): Option<Restriction> {
    match FindSubscription(s.subscriptions, id)
    case Some(e) =>
      if e.status == Active then None
      else Some(Restriction(id, e.status, HashesOf(a.restrictions, id) + KnownHash(a, ps, id) + HashSet(e.configHash), e.name))
    case None =>
      if Known(a, ps, id).Some? && !WithoutInventory(s)
      then Some(Restriction(id, Deleted, HashesOf(a.restrictions, id) + KnownHash(a, ps, id), Known(a, ps, id).value.name))
      else Lookup(a.restrictions, id)
  }

  lemma SnapshotDecides(a: Authority, s: Snapshot, ps: seq<Profile>, id: string)
    requires UniqueIds(a.restrictions) && UniqueEntries(s.subscriptions) && !OtherDevice(a, s)
    requires a.snapshot.Some? ==> UniqueEntries(a.snapshot.value.subscriptions)
    ensures var next := ReduceSnapshot(a, s, ps).value;
            UniqueIds(next.restrictions) && Lookup(next.restrictions, id) == AfterSnapshot(a, s, ps, id)
  {
    hide UniqueIds, UniqueEntries, UniqueCandidates, MarkOmitted, ApplyEntries, FromList, Candidates, Known, Lookup, FindSubscription;
    var cs := Candidates(a, ps);
    FromUniqueList(a.restrictions);
    CandidatesFound(a, ps, id);
    MarkOmittedEffect(a.restrictions, cs, s, id);
    ApplyEntriesEffect(MarkOmitted(a.restrictions, cs, s), s.subscriptions, cs, id);
    ListsIsFind(s, id);
  }

  lemma ListsIsFind(s: Snapshot, id: string)
    ensures Lists(s, id) <==> FindSubscription(s.subscriptions, id).Some?
  {
    FindInList(s.subscriptions, id);
  }

  // ----- runs

  datatype Event = SnapshotEvent(s: Snapshot, profiles: seq<Profile>) | IssueEvent(issue: Issue, profiles: seq<Profile>)

  /** The parser refuses a snapshot with a repeated identifier. */
  predicate Parsed(e: Event) { e.SnapshotEvent? ==> UniqueEntries(e.s.subscriptions) }

  /** A snapshot of another device changes nothing. */
  function Step(a: Authority, e: Event): Authority {
    match e
    case SnapshotEvent(s, ps) => (match ReduceSnapshot(a, s, ps) case Some(next) => next case None => a)
    case IssueEvent(i, ps) => ReduceIssue(a, i, ps)
  }

  function Run(a: Authority, es: seq<Event>): Authority {
    if es == [] then a else Step(Run(a, es[..|es| - 1]), es[|es| - 1])
  }

  function Fresh(userId: string, deviceId: string, session: string): Authority {
    Authority(userId, deviceId, session, 0, None, None, [])
  }

  ghost predicate Inv(a: Authority) {
    && UniqueIds(a.restrictions)
    && (forall id :: Lookup(a.restrictions, id).Some? ==> Blocks(Lookup(a.restrictions, id).value.status))
    && (a.snapshot.Some? ==>
          && UniqueEntries(a.snapshot.value.subscriptions)
          && forall id :: Remote(a, id).Some? && Blocks(Remote(a, id).value.status) ==> Lookup(a.restrictions, id).Some?)
  }

  lemma IssueDecides(a: Authority, i: Issue, ps: seq<Profile>, id: string)
    requires UniqueIds(a.restrictions)
    ensures var next := ReduceIssue(a, i, ps);
            && UniqueIds(next.restrictions) && next.snapshot == a.snapshot
            && if i.SubscriptionIssue? && Blocks(i.blocked) && i.subscriptionId == id
               then
                 && Lookup(next.restrictions, id).Some?
                 && Lookup(next.restrictions, id).value.status == i.blocked
                 && Lookup(next.restrictions, id).value.name
                    == (if Remote(a, id).Some? && Remote(a, id).value.name != "" then Remote(a, id).value.name else FirstLocalName(ps, id))
                 && Lookup(next.restrictions, id).value.hashes
                    == HashesOf(a.restrictions, id) + LocalHashes(ps, id)
                       + (match Remote(a, id) case Some(r) => HashSet(r.configHash) case None => {})
               else Lookup(next.restrictions, id) == Lookup(a.restrictions, id)
  {
    hide UniqueIds, Lookup, LocalHashes, FirstLocalName, Remote;
    if i.SubscriptionIssue? && Blocks(i.blocked) {
      var next := ReduceIssue(a, i, ps);
      WithoutEffect(a.restrictions, i.subscriptionId, id);
      AppendEffect(WithoutId(a.restrictions, i.subscriptionId), next.restrictions[|next.restrictions| - 1], id);
    }
  }

  lemma StepKeeps(a: Authority, e: Event)
    requires Inv(a) && Parsed(e)
    ensures Inv(Step(a, e))
  {
    hide ReduceSnapshot, ReduceIssue, UniqueIds, UniqueEntries, FindSubscription, Lookup, Known;
    var next := Step(a, e);
    match e
    case IssueEvent(i, ps) =>
      IssueDecides(a, i, ps, "");
      forall id
        ensures UniqueIds(next.restrictions) && next.snapshot == a.snapshot
        ensures Lookup(a.restrictions, id).Some? ==> Lookup(next.restrictions, id).Some?
        ensures Lookup(next.restrictions, id).Some? ==> Blocks(Lookup(next.restrictions, id).value.status)
        ensures Remote(next, id) == Remote(a, id)
      {
        IssueDecides(a, i, ps, id);
      }
    case SnapshotEvent(s, ps) =>
      if !Mismatch(a, s) {
        SnapshotHeld(a, s, ps);
        SnapshotDecides(a, s, ps, "");
        forall id
          ensures UniqueIds(next.restrictions) && Lookup(next.restrictions, id) == AfterSnapshot(a, s, ps, id)
        {
          SnapshotDecides(a, s, ps, id);
        }
      } else {
        SnapshotRefused(a, s, ps);
      }
  }

  lemma SnapshotHeld(a: Authority, s: Snapshot, ps: seq<Profile>)
    requires !Mismatch(a, s)
    ensures ReduceSnapshot(a, s, ps).Some? && ReduceSnapshot(a, s, ps).value.snapshot == Some(s)
  {
  }

  lemma SnapshotRefused(a: Authority, s: Snapshot, ps: seq<Profile>)
    requires Mismatch(a, s)
    ensures ReduceSnapshot(a, s, ps) == None
  {
  }

  lemma {:induction false} RunKeeps(a: Authority, es: seq<Event>)
    requires Inv(a) && forall e | e in es :: Parsed(e)
    ensures Inv(Run(a, es))
  {
    hide Inv, Step;
    if es != [] {
      RunKeeps(a, es[..|es| - 1]);
      StepKeeps(Run(a, es[..|es| - 1]), es[|es| - 1]);
    }
  }

  lemma FreshInv(userId: string, deviceId: string, session: string)
    ensures Inv(Fresh(userId, deviceId, session))
  {
  }

  // ----- what holds of every reachable authority

  lemma {:induction false} FirstConcerningFinds(rs: seq<Restriction>, p: Profile, i: nat)
    requires i < |rs| && Concerns(rs[i], p)
    ensures FirstConcerning(rs, p).Some?
  {
    if i > 0 {
      FirstConcerningFinds(rs[1..], p, i - 1);
    }
  }

  lemma {:induction false} FirstListedIsListed(subs: seq<Subscription>, p: Profile)
    ensures var f := FirstListed(subs, p); f.Some? ==> f.value in subs && NamesProfile(p, f.value.id)
  {
    if subs != [] {
      FirstListedIsListed(subs[1..], p);
    }
  }

  /** The restrictions alone decide: the search in the snapshot never adds an answer. */
  lemma FallbackNeverDecides(a: Authority, p: Profile)
    requires Inv(a)
    ensures ProfileRestriction(a, p) == FirstConcerning(a.restrictions, p)
  {
    if FirstConcerning(a.restrictions, p).None? && a.snapshot.Some? {
      var subs := a.snapshot.value.subscriptions;
      FirstListedIsListed(subs, p);
      var f := FirstListed(subs, p);
      if f.Some? && Blocks(f.value.status) {
        FindInList(subs, f.value.id);
        assert Remote(a, f.value.id) == f;
        var i := IndexOf(a.restrictions, f.value.id);
        FirstConcerningFinds(a.restrictions, p, i);
      }
    }
  }

  lemma {:induction false} ReachableFallback(userId: string, deviceId: string, session: string, es: seq<Event>, p: Profile)
    requires forall e | e in es :: Parsed(e)
    ensures var a := Run(Fresh(userId, deviceId, session), es);
            UniqueIds(a.restrictions) && ProfileRestriction(a, p) == FirstConcerning(a.restrictions, p)
  {
    FreshInv(userId, deviceId, session);
    RunKeeps(Fresh(userId, deviceId, session), es);
    FallbackNeverDecides(Run(Fresh(userId, deviceId, session), es), p);
  }

  predicate FreesId(a: Authority, e: Event, id: string) {
    && e.SnapshotEvent? && !OtherDevice(a, e.s)
    && FindSubscription(e.s.subscriptions, id).Some?
    && FindSubscription(e.s.subscriptions, id).value.status == Active
  }

  /** A restricted identifier is freed exactly by an accepted snapshot that lists it as active. */
  lemma FreedExactly(a: Authority, e: Event, id: string)
    requires Inv(a) && Parsed(e) && Lookup(a.restrictions, id).Some?
    ensures Lookup(Step(a, e).restrictions, id).None? <==> FreesId(a, e, id)
    ensures !FreesId(a, e, id) ==>
              Lookup(a.restrictions, id).value.hashes <= Lookup(Step(a, e).restrictions, id).value.hashes
  {
    hide ReduceSnapshot, ReduceIssue, UniqueIds, UniqueEntries, FindSubscription, Lookup, Known, LocalHashes;
    match e
    case IssueEvent(i, ps) => IssueDecides(a, i, ps, id);
    case SnapshotEvent(s, ps) =>
      if Mismatch(a, s) {
        SnapshotRefused(a, s, ps);
      } else {
        SnapshotHeld(a, s, ps);
        SnapshotDecides(a, s, ps, id);
      }
  }

  lemma {:induction false} RestrictedUntilFreed(a: Authority, es: seq<Event>, id: string)
    requires Inv(a) && Lookup(a.restrictions, id).Some?
    requires forall e | e in es :: Parsed(e)
    requires forall k | 0 <= k < |es| :: !FreesId(Run(a, es[..k]), es[k], id)
    ensures var r := Lookup(Run(a, es).restrictions, id);
            r.Some? && Lookup(a.restrictions, id).value.hashes <= r.value.hashes
  {
    hide Inv, Step, Lookup, FreesId;
    if es != [] {
      var n := |es| - 1;
      forall k | 0 <= k < n
        ensures es[..n][..k] == es[..k] && es[..n][k] == es[k]
      {
      }
      RestrictedUntilFreed(a, es[..n], id);
      RunKeeps(a, es[..n]);
      FreedExactly(Run(a, es[..n]), es[n], id);
    }
  }

  // ----- minimal snapshots and omissions

  /** A minimal device snapshot leaves the standing of every profile as it was. */
  lemma MinimalSnapshotCondemnsNothing(a: Authority, s: Snapshot, ps: seq<Profile>, p: Profile)
    requires Inv(a) && !OtherDevice(a, s) && WithoutInventory(s)
    ensures ProfileRestriction(ReduceSnapshot(a, s, ps).value, p) == ProfileRestriction(a, p)
  {
    var next := ReduceSnapshot(a, s, ps).value;
    FromUniqueList(a.restrictions);
    MarkNothing(a.restrictions, Candidates(a, ps), s);
    assert next.restrictions == a.restrictions;
    FallbackNeverDecides(a, p);
  }

  lemma {:induction false} MarkNothing(rs: seq<Restriction>, cs: seq<Candidate>, s: Snapshot)
    requires MinimalDeviceSnapshot(s)
    ensures MarkOmitted(rs, cs, s) == rs
  {
    if cs != [] {
      MarkNothing(rs, cs[..|cs| - 1], s);
    }
  }

  /** Every other snapshot condemns what was listed or managed here and that it omits. */
  lemma OmittedIsDeleted(a: Authority, s: Snapshot, ps: seq<Profile>, id: string)
    requires Inv(a) && UniqueEntries(s.subscriptions) && !OtherDevice(a, s) && !WithoutInventory(s)
    requires !Lists(s, id)
    requires Remote(a, id).Some? || exists p :: p in ps && OwnedBy(p, id)
    ensures var r := Lookup(ReduceSnapshot(a, s, ps).value.restrictions, id); r.Some? && r.value.status == Deleted
  {
    hide ReduceSnapshot, UniqueIds, UniqueEntries, FindSubscription, Lookup, Lists;
    SnapshotDecides(a, s, ps, id);
    ListsIsFind(s, id);
    if p :| p in ps && OwnedBy(p, id) {
      var i :| 0 <= i < |ps| && ps[i] == p;
      OwnedIsFound(ps, id, i);
    }
  }

  lemma {:induction false} OwnedIsFound(ps: seq<Profile>, id: string, i: nat)
    requires i < |ps| && OwnedBy(ps[i], id)
    ensures LastOwned(ps, id).Some?
  {
    if i < |ps| - 1 {
      OwnedIsFound(ps[..|ps| - 1], id, i);
    }
  }

  /**
   What a snapshot omits: it becomes deleted exactly if it was listed before or is managed here and the snapshot
   has an inventory; else its standing is unchanged.
   */
  lemma OmittedExactly(a: Authority, s: Snapshot, ps: seq<Profile>, id: string)
    requires Inv(a) && UniqueEntries(s.subscriptions) && !OtherDevice(a, s) && forall e | e in s.subscriptions :: e.id != id
    ensures var next := Lookup(Step(a, SnapshotEvent(s, ps)).restrictions, id);
            if !WithoutInventory(s) && (Remote(a, id).Some? || exists p :: p in ps && OwnedBy(p, id)) then
              && next.Some? && next.value.status == Deleted
              && (Lookup(a.restrictions, id).Some? ==> Lookup(a.restrictions, id).value.hashes <= next.value.hashes)
            else next == Lookup(a.restrictions, id)
  {
    hide ReduceSnapshot, UniqueIds, UniqueEntries, FindSubscription, Lookup, WithoutInventory;
    SnapshotHeld(a, s, ps);
    SnapshotDecides(a, s, ps, id);
    FindInList(s.subscriptions, id);
    if p :| p in ps && OwnedBy(p, id) {
      var i :| 0 <= i < |ps| && ps[i] == p;
      OwnedIsFound(ps, id, i);
    } else {
      NothingOwned(ps, id);
    }
  }

  lemma {:induction false} NothingOwned(ps: seq<Profile>, id: string)
    requires forall p | p in ps :: !OwnedBy(p, id)
    ensures LastOwned(ps, id) == None
  {
    if ps != [] {
      NothingOwned(ps[..|ps| - 1], id);
    }
  }
}
