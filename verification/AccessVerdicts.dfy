/**
 What the authority says of a profile and of the device, stated on its fields: when a profile is restricted,
 when the device is blocked, what a stored profile must be to stay, and what the tunnel is stopped for.
 */
module AccessVerdicts {
  import opened Wrappers
  import opened AccessPolicy
  import opened AccessPolicyRuns
  import opened ConfigStore
  import opened AccessSync

  // ----- profiles

  /** The restriction names the profile, or has the hash of this copy that belongs to no subscription. */
  predicate Strikes(r: Restriction, p: Profile) {
    || (p.configId != "" && r.id == p.configId)
    || p.subscriptionId == Some(r.id)
    || (&& p.subscriptionId == None && p.source != Some(Backend) && r.status != Expired && r.status != Exhausted
        && p.configHash.Some? && p.configHash.value in r.hashes)
  }

  lemma {:induction false} FirstThatStrikes(rs: seq<Restriction>, p: Profile)
    ensures FirstConcerning(rs, p) == None <==> forall r | r in rs :: !Strikes(r, p)
    ensures FirstConcerning(rs, p).Some? ==>
              exists i :: 0 <= i < |rs| && rs[i] == FirstConcerning(rs, p).value && Strikes(rs[i], p)
                          && forall j | 0 <= j < i :: !Strikes(rs[j], p)
  {
    if rs != [] {
      FirstThatStrikes(rs[1..], p);
      assert rs == [rs[0]] + rs[1..];
      assert Concerns(rs[0], p) == Strikes(rs[0], p);
      if !Strikes(rs[0], p) && FirstConcerning(rs[1..], p).Some? {
        var i :| 0 <= i < |rs[1..]| && rs[1..][i] == FirstConcerning(rs[1..], p).value && Strikes(rs[1..][i], p)
                 && forall j | 0 <= j < i :: !Strikes(rs[1..][j], p);
        assert rs[i + 1] == rs[1..][i];
        assert forall j | 0 < j < i + 1 :: rs[j] == rs[1..][j - 1];
      }
    }
  }

  /** A profile, managed or not, is restricted exactly if some restriction strikes it, and by the first that does. */
  lemma RestrictedExactly(a: Authority, p: Profile)
    requires Inv(a)
    ensures ProfileRestriction(a, p) == None <==> forall r | r in a.restrictions :: !Strikes(r, p)
    ensures ProfileRestriction(a, p).Some? ==>
              exists i :: 0 <= i < |a.restrictions| && a.restrictions[i] == ProfileRestriction(a, p).value && Strikes(a.restrictions[i], p)
                          && forall j | 0 <= j < i :: !Strikes(a.restrictions[j], p)
  {
    hide Strikes, Inv, FirstConcerning, ProfileRestriction;
    FallbackNeverDecides(a, p);
    FirstThatStrikes(a.restrictions, p);
  }

  /**
   A copy of a restricted payload that belongs to no subscription stays restricted, whatever happens, until a
   snapshot lists the subscription as active or its state becomes expired or exhausted.
   */
  lemma CopiesStayRestricted(a: Authority, es: seq<Event>, id: string, p: Profile)
    requires Inv(a) && Lookup(a.restrictions, id).Some? && (forall e | e in es :: Parsed(e))
    requires forall k | 0 <= k < |es| :: !FreesId(Run(a, es[..k]), es[k], id)
    requires p.subscriptionId == None && p.source != Some(Backend)
    requires p.configHash.Some? && p.configHash.value in Lookup(a.restrictions, id).value.hashes
    ensures var r := Lookup(Run(a, es).restrictions, id);
            r.Some? && (r.value.status != Expired && r.value.status != Exhausted ==> ProfileRestriction(Run(a, es), p).Some?)
  {
    hide Inv, Run, FreesId, ProfileRestriction, Lookup;
    RestrictedUntilFreed(a, es, id);
    RunKeeps(a, es);
    RestrictedExactly(Run(a, es), p);
    LookupIs(Run(a, es).restrictions, id);
  }

  lemma {:induction false} LocalHashesAre(ps: seq<Profile>, id: string, h: string)
    ensures h in LocalHashes(ps, id) <==>
              exists p :: p in ps && (p.configId == id || p.subscriptionId == Some(id)) && p.configHash == Some(h)
  {
    if ps != [] {
      LocalHashesAre(ps[1..], id, h);
      assert ps == [ps[0]] + ps[1..];
    }
  }

  /** A refusal of a subscription restricts it with its past hashes, those of the local profiles it names and that of the inventory. */
  lemma RefusalHashes(a: Authority, status: ProfileStatus, id: string, ps: seq<Profile>, h: string)
    requires UniqueIds(a.restrictions) && status != Active
    ensures var next := ReduceIssue(a, SubscriptionIssue(status, id), ps); var r := Lookup(next.restrictions, id);
            && r.Some? && r.value.id == id && r.value.status == status
            && (h in r.value.hashes <==>
                  || (Lookup(a.restrictions, id).Some? && h in Lookup(a.restrictions, id).value.hashes)
                  || (exists p :: p in ps && (p.configId == id || p.subscriptionId == Some(id)) && p.configHash == Some(h))
                  || (Remote(a, id).Some? && Remote(a, id).value.configHash == Some(h)))
  {
    hide LocalHashes, Lookup, Remote;
    IssueDecides(a, SubscriptionIssue(status, id), ps, id);
    LocalHashesAre(ps, id, h);
    var next := ReduceIssue(a, SubscriptionIssue(status, id), ps);
    LookupIs(next.restrictions, id);
  }

  /** The name that a refusal finds: that of the first local profile it names. */
  lemma {:induction false} FirstLocalNameIs(ps: seq<Profile>, id: string, i: nat)
    requires i <= |ps| && forall k | 0 <= k < i :: ps[k].configId != id && ps[k].subscriptionId != Some(id)
    requires i < |ps| ==> ps[i].configId == id || ps[i].subscriptionId == Some(id)
    ensures FirstLocalName(ps, id) == if i < |ps| then ps[i].name else ""
  {
    if i > 0 {
      FirstLocalNameIs(ps[1..], id, i - 1);
    }
  }

  // ----- the device

  /** The device is blocked exactly if the last refusal about it blocks it, or without one, the snapshot does. */
  predicate DeviceBlocked(a: Authority) {
    match a.deviceIssue
    case Some(status) => status != DeviceActive
    case None => a.snapshot.Some? && (a.snapshot.value.device.status != DeviceActive || a.snapshot.value.device.activationRequired)
  }

  lemma BlockedExactly(a: Authority)
    ensures BlocksDevice(DeviceAccess(a)) <==> DeviceBlocked(a)
  {
  }

  /** An accepted snapshot decides by its own device, a refusal about the device by its state, and nothing else touches it. */
  lemma DeviceDecides(a: Authority, e: Event)
    ensures BlocksDevice(DeviceAccess(Step(a, e))) <==>
              if e.SnapshotEvent? && (a.snapshot.None? || a.snapshot.value.device.id == e.s.device.id) then
                e.s.device.status != DeviceActive || e.s.device.activationRequired
              else if e.IssueEvent? && e.issue.DeviceIssue? then e.issue.status != DeviceActive
              else BlocksDevice(DeviceAccess(a))
  {
    hide MarkOmitted, ApplyEntries, Candidates, FromList, HashesOf, LocalHashes, Remote, WithoutId, FirstLocalName;
  }

  /** The device as it is shown: after a refusal about it, in that state, and to be activated again if it was deleted or revoked. */
  lemma DeviceShown(a: Authority)
    ensures var d := DeviceAccess(a);
            && (a.deviceIssue == None ==> d == if a.snapshot.Some? then Some(a.snapshot.value.device) else None)
            && (a.deviceIssue.Some? ==>
                  && d.Some? && d.value.status == a.deviceIssue.value
                  && d.value.id == (if a.snapshot.Some? then a.snapshot.value.device.id else "")
                  && (d.value.activationRequired <==> a.deviceIssue.value in {DeviceDeleted, DeviceRevoked}))
  {
  }

  // ----- the stored profiles and the tunnel

  /** A stored profile stays exactly if the first restriction that strikes it, if any, is neither revoked nor deleted. */
  lemma StaysExactly(a: Authority, reg: seq<Meta>, k: nat)
    requires Inv(a) && UniqueMeta(reg) && k < |reg|
    ensures Id(reg[k]) !in Ids(Reconciled(a, reg)) <==>
              exists i :: 0 <= i < |a.restrictions| && Strikes(a.restrictions[i], reg[k].profile)
                          && (a.restrictions[i].status == Revoked || a.restrictions[i].status == Deleted)
                          && forall j | 0 <= j < i :: !Strikes(a.restrictions[j], reg[k].profile)
  {
    hide Strikes, Inv, Reconciled, ProfileRestriction, UniqueMeta;
    KeptExactly(a, reg, k);
    RestrictedExactly(a, reg[k].profile);
    var p := reg[k].profile;
    var r := ProfileRestriction(a, p);
    if r.Some? {
      var i :| 0 <= i < |a.restrictions| && a.restrictions[i] == r.value && Strikes(a.restrictions[i], p)
               && forall j | 0 <= j < i :: !Strikes(a.restrictions[j], p);
      forall k | 0 <= k < |a.restrictions| && Strikes(a.restrictions[k], p) && forall j | 0 <= j < k :: !Strikes(a.restrictions[j], p)
        ensures k == i
      {
        if k < i {
          assert false;
        } else if i < k {
          assert false;
        }
      }
    }
  }

  /** The running tunnel is stopped exactly if the device is blocked or a restriction strikes its profile. */
  lemma StopsExactly(a: Authority, running: Option<Profile>)
    requires Inv(a)
    ensures StopsTunnel(a, running) <==>
              running.Some? && (DeviceBlocked(a) || exists r :: r in a.restrictions && Strikes(r, running.value))
  {
    hide Strikes, Inv, ProfileRestriction, BlocksDevice, DeviceBlocked;
    BlockedExactly(a);
    if running.Some? {
      RestrictedExactly(a, running.value);
    }
  }
}
