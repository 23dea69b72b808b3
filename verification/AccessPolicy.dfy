/**
 The access authority of app-mobile/services/accessPolicy.ts: snapshots and refusals from the server
 fold into a list of restrictions. Absent and empty strings are both `None`, as the program tests
 them; hash lists are sets.
 */
module AccessPolicy {
  import opened Wrappers

  datatype DeviceStatus = DeviceActive | DeviceSuspended | DeviceDisabled | DeviceExpired | DeviceRevoked | DeviceDeleted
  datatype ProfileStatus = Active | Suspended | Revoked | Deleted | Expired | Exhausted
  datatype Source = Backend | Manual

  datatype Device = Device(id: string, status: DeviceStatus, activationRequired: bool)

  datatype Subscription = Subscription(id: string, name: string, status: ProfileStatus, configHash: Option<string>)

  datatype Snapshot = Snapshot(revision: string, device: Device, subscriptions: seq<Subscription>)

  datatype Profile = Profile(
    configId: string, subscriptionId: Option<string>, configHash: Option<string>, source: Option<Source>, name: string)

  datatype Restriction = Restriction(id: string, status: ProfileStatus, hashes: set<string>, name: string)

  /** A refusal; a subscription is refused with one of the five blocking states. */
  datatype Issue =
    | DeviceIssue(status: DeviceStatus)
    | SubscriptionIssue(blocked: ProfileStatus, subscriptionId: string)
    | SessionIssue

  datatype Authority = Authority(
    userId: string, deviceId: string, session: string, sequence: nat,
    snapshot: Option<Snapshot>, deviceIssue: Option<DeviceStatus>, restrictions: seq<Restriction>)

  datatype Candidate = Candidate(id: string, name: string, hash: Option<string>)

  // ----- maps of the program: ordered by first insertion, one entry for each key

  function IndexOf(rs: seq<Restriction>, id: string): (i: nat)
    ensures i <= |rs|
    ensures i < |rs| ==> rs[i].id == id
    ensures forall k | 0 <= k < i :: rs[k].id != id
  {
    if rs == [] || rs[0].id == id then 0 else 1 + IndexOf(rs[1..], id)
  }

  function Lookup(rs: seq<Restriction>, id: string): Option<Restriction> {
    var i := IndexOf(rs, id);
    if i < |rs| then Some(rs[i]) else None
  }

  function Put(rs: seq<Restriction>, r: Restriction): seq<Restriction> {
    var i := IndexOf(rs, r.id);
    if i < |rs| then rs[i := r] else rs + [r]
  }

  function Delete(rs: seq<Restriction>, id: string): seq<Restriction> {
    var i := IndexOf(rs, id);
    if i < |rs| then rs[..i] + rs[i + 1..] else rs
  }

  function CandidateAt(cs: seq<Candidate>, id: string): (i: nat)
    ensures i <= |cs|
    ensures i < |cs| ==> cs[i].id == id
    ensures forall k | 0 <= k < i :: cs[k].id != id
  {
    if cs == [] || cs[0].id == id then 0 else 1 + CandidateAt(cs[1..], id)
  }

  function PutCandidate(cs: seq<Candidate>, c: Candidate): seq<Candidate> {
    var i := CandidateAt(cs, c.id);
    if i < |cs| then cs[i := c] else cs + [c]
  }

  // ----- reading the authority

  predicate Blocks(status: ProfileStatus) { status != Active }

  predicate Managed(p: Profile) { p.source == Some(Backend) || (p.source != Some(Manual) && p.subscriptionId.Some?) }

  /** subscriptionId || configId */
  function OwnerId(p: Profile): string {
    match p.subscriptionId case Some(id) => id case None => p.configId
  }

  predicate NamesProfile(p: Profile, id: string) { (p.configId == id && id != "") || p.subscriptionId == Some(id) }

  /** A restriction concerns a profile by its identifiers, or by the payload hash of an unmanaged copy. */
  predicate Concerns(r: Restriction, p: Profile) {
    || NamesProfile(p, r.id)
    || (r.status != Expired && r.status != Exhausted && !Managed(p) && p.subscriptionId.None?
        && p.configHash.Some? && p.configHash.value in r.hashes)
  }

  function FirstConcerning(rs: seq<Restriction>, p: Profile): Option<Restriction> {
    if rs == [] then None else if Concerns(rs[0], p) then Some(rs[0]) else FirstConcerning(rs[1..], p)
  }

  function FirstListed(subs: seq<Subscription>, p: Profile): Option<Subscription> {
    if subs == [] then None else if NamesProfile(p, subs[0].id) then Some(subs[0]) else FirstListed(subs[1..], p)
  }

  function HashSet(h: Option<string>): set<string> { match h case Some(v) => {v} case None => {} }

  function ProfileRestriction(a: Authority, p: Profile): Option<Restriction> {
    match FirstConcerning(a.restrictions, p)
    case Some(r) => Some(r)
    case None =>
      if a.snapshot.None? then None
      else
        match FirstListed(a.snapshot.value.subscriptions, p)
        case Some(remote) =>
          if Blocks(remote.status) then Some(Restriction(remote.id, remote.status, HashSet(remote.configHash), remote.name))
          else None
        case None => None
  }

  /** The device as the authority sees it: a refusal overrides the snapshot. */
  function DeviceAccess(a: Authority): Option<Device> {
    match a.deviceIssue
    case None => (match a.snapshot case Some(s) => Some(s.device) case None => None)
    case Some(status) =>
      Some(Device(match a.snapshot case Some(s) => s.device.id case None => "", status,
                  status == DeviceDeleted || status == DeviceRevoked))
  }

  predicate BlocksDevice(d: Option<Device>) { d.Some? && (d.value.status != DeviceActive || d.value.activationRequired) }

  // ----- the reducers

  predicate Lists(s: Snapshot, id: string) { exists i | 0 <= i < |s.subscriptions| :: s.subscriptions[i].id == id }

  /** A deleted or lost binding comes with no inventory: it says nothing about the profiles. */
  predicate MinimalDeviceSnapshot(s: Snapshot) {
    s.subscriptions == []
    && (s.device.status == DeviceDeleted || (s.device.status == DeviceRevoked && s.device.activationRequired))
  }

  function KnownCandidates(subs: seq<Subscription>): seq<Candidate> {
    if subs == [] then []
    else
      var last := subs[|subs| - 1];
      PutCandidate(KnownCandidates(subs[..|subs| - 1]), Candidate(last.id, last.name, last.configHash))
  }

  function AddProfiles(cs: seq<Candidate>, ps: seq<Profile>): seq<Candidate> {
    if ps == [] then cs
    else
      var before, p := AddProfiles(cs, ps[..|ps| - 1]), ps[|ps| - 1];
      if Managed(p) then PutCandidate(before, Candidate(OwnerId(p), p.name, p.configHash)) else before
  }

  /** What is known here: the previous inventory and the managed local profiles. */
  function Candidates(a: Authority, ps: seq<Profile>): seq<Candidate> {
    AddProfiles(KnownCandidates(match a.snapshot case Some(s) => s.subscriptions case None => []), ps)
  }

  function HashesOf(rs: seq<Restriction>, id: string): set<string> {
    match Lookup(rs, id) case Some(r) => r.hashes case None => {}
  }

  function CandidateHash(cs: seq<Candidate>, id: string): set<string> {
    var i := CandidateAt(cs, id);
    if i < |cs| then HashSet(cs[i].hash) else {}
  }

  /** The candidates that the snapshot omits are restricted as deleted. */
  function MarkOmitted(rs: seq<Restriction>, cs: seq<Candidate>, s: Snapshot): seq<Restriction> {
    if cs == [] then rs
    else
      var before, c := MarkOmitted(rs, cs[..|cs| - 1], s), cs[|cs| - 1];
      if !MinimalDeviceSnapshot(s) && !Lists(s, c.id) then
        Put(before, Restriction(c.id, Deleted, HashesOf(before, c.id) + HashSet(c.hash), c.name))
      else before
  }

  function ApplyEntry(rs: seq<Restriction>, e: Subscription, cs: seq<Candidate>): seq<Restriction> {
    if !Blocks(e.status) then Delete(rs, e.id)
    else Put(rs, Restriction(e.id, e.status, HashesOf(rs, e.id) + CandidateHash(cs, e.id) + HashSet(e.configHash), e.name))
  }

  function ApplyEntries(rs: seq<Restriction>, subs: seq<Subscription>, cs: seq<Candidate>): seq<Restriction> {
    if subs == [] then rs
    else ApplyEntry(ApplyEntries(rs, subs[..|subs| - 1], cs), subs[|subs| - 1], cs)
  }

  /** new Map(list): the last entry of a key wins, in the place of the first. */
  function FromList(rs: seq<Restriction>): seq<Restriction> {
    if rs == [] then [] else Put(FromList(rs[..|rs| - 1]), rs[|rs| - 1])
  }

  predicate Mismatch(a: Authority, s: Snapshot) { a.snapshot.Some? && a.snapshot.value.device.id != s.device.id }

  function ReduceSnapshot(a: Authority, s: Snapshot, ps: seq<Profile>): Option<Authority> {
    if Mismatch(a, s) then None
    else
      var cs := Candidates(a, ps);
      Some(a.(sequence := a.sequence + 1, snapshot := Some(s), deviceIssue := None,
              restrictions := ApplyEntries(MarkOmitted(FromList(a.restrictions), cs, s), s.subscriptions, cs)))
  }

  function LocalHashes(ps: seq<Profile>, id: string): set<string> {
    if ps == [] then {}
    else (if ps[0].configId == id || ps[0].subscriptionId == Some(id) then HashSet(ps[0].configHash) else {})
         + LocalHashes(ps[1..], id)
  }

  function FirstLocalName(ps: seq<Profile>, id: string): string {
    if ps == [] then ""
    else if ps[0].configId == id || ps[0].subscriptionId == Some(id) then ps[0].name
    else FirstLocalName(ps[1..], id)
  }

  function FindSubscription(subs: seq<Subscription>, id: string): Option<Subscription> {
    if subs == [] then None else if subs[0].id == id then Some(subs[0]) else FindSubscription(subs[1..], id)
  }

  function Remote(a: Authority, id: string): Option<Subscription> {
    match a.snapshot case Some(s) => FindSubscription(s.subscriptions, id) case None => None
  }

  function WithoutId(rs: seq<Restriction>, id: string): seq<Restriction> {
    if rs == [] then [] else (if rs[0].id == id then [] else [rs[0]]) + WithoutId(rs[1..], id)
  }

  function ReduceIssue(a: Authority, issue: Issue, ps: seq<Profile>): Authority {
    match issue
    case SessionIssue => a
    case DeviceIssue(status) => a.(sequence := a.sequence + 1, deviceIssue := Some(status))
    case SubscriptionIssue(status, id) =>
      if !Blocks(status) then a
      else
        var remote := Remote(a, id);
        var hashes := HashesOf(a.restrictions, id) + LocalHashes(ps, id)
                      + (match remote case Some(r) => HashSet(r.configHash) case None => {});
        var name := if remote.Some? && remote.value.name != "" then remote.value.name else FirstLocalName(ps, id);
        a.(sequence := a.sequence + 1,
           restrictions := WithoutId(a.restrictions, id) + [Restriction(id, status, hashes, name)])
  }

  // ----- the loops of reduceSnapshot

  method ReduceSnapshotLoops(a: Authority, s: Snapshot, ps: seq<Profile>) returns (r: Option<Authority>)
    ensures r == ReduceSnapshot(a, s, ps)
  {
    hide Put, Delete, PutCandidate, HashesOf, CandidateHash;
    if a.snapshot.Some? && a.snapshot.value.device.id != s.device.id {
      return None;
    }
    var restrictions: seq<Restriction> := [];
    for i := 0 to |a.restrictions|
      invariant restrictions == FromList(a.restrictions[..i])
    {
      assert a.restrictions[..i + 1][..i] == a.restrictions[..i];
      restrictions := Put(restrictions, a.restrictions[i]);
    }
    assert a.restrictions[..|a.restrictions|] == a.restrictions;
    var candidates := CollectCandidates(a, ps);
    ghost var start := restrictions;
    for i := 0 to |candidates|
      invariant restrictions == MarkOmitted(start, candidates[..i], s)
    {
      var c := candidates[i];
      assert candidates[..i + 1][..i] == candidates[..i];
      if !MinimalDeviceSnapshot(s) && !Lists(s, c.id) {
        restrictions := Put(restrictions, Restriction(c.id, Deleted, HashesOf(restrictions, c.id) + HashSet(c.hash), c.name));
      }
    }
    assert candidates[..|candidates|] == candidates;
    ghost var marked := restrictions;
    var subs := s.subscriptions;
    for i := 0 to |subs|
      invariant restrictions == ApplyEntries(marked, subs[..i], candidates)
    {
      var e := subs[i];
      assert subs[..i + 1][..i] == subs[..i];
      if !Blocks(e.status) {
        restrictions := Delete(restrictions, e.id);
      } else {
        var hashes := HashesOf(restrictions, e.id) + CandidateHash(candidates, e.id) + HashSet(e.configHash);
        restrictions := Put(restrictions, Restriction(e.id, e.status, hashes, e.name));
      }
    }
    assert subs[..|subs|] == subs;
    return Some(a.(sequence := a.sequence + 1, snapshot := Some(s), deviceIssue := None, restrictions := restrictions));
  }

  method CollectCandidates(a: Authority, ps: seq<Profile>) returns (candidates: seq<Candidate>)
    ensures candidates == Candidates(a, ps)
  {
    hide PutCandidate;
    candidates := [];
    if a.snapshot.Some? {
      var subs := a.snapshot.value.subscriptions;
      for i := 0 to |subs|
        invariant candidates == KnownCandidates(subs[..i])
      {
        assert subs[..i + 1][..i] == subs[..i];
        candidates := PutCandidate(candidates, Candidate(subs[i].id, subs[i].name, subs[i].configHash));
      }
      assert subs[..|subs|] == subs;
    }
    ghost var known := candidates;
    for i := 0 to |ps|
      invariant candidates == AddProfiles(known, ps[..i])
    {
      assert ps[..i + 1][..i] == ps[..i];
      if Managed(ps[i]) {
        candidates := PutCandidate(candidates, Candidate(OwnerId(ps[i]), ps[i].name, ps[i].configHash));
      }
    }
    assert ps[..|ps|] == ps;
  }
}
