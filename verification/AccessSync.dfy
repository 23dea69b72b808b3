/** reconcileAccess of app-mobile/services/accessSync.ts, when nothing interrupts it. */
module AccessSync {
  import opened Wrappers
  import opened AccessPolicy
  import opened AccessPolicyRuns
  import opened ConfigStore

  /** Revoked and deleted profiles lose their payload; the other restrictions keep it. */
  predicate Condemned(a: Authority, p: Profile) {
    var r := ProfileRestriction(a, p);
    r.Some? && (r.value.status == Revoked || r.value.status == Deleted)
  }

  /** What the running profile is stopped for. */
  predicate StopsTunnel(a: Authority, active: Option<Profile>) {
    active.Some? && (BlocksDevice(DeviceAccess(a)) || ProfileRestriction(a, active.value).Some?)
  }

  /** The entry as the authority describes it, when it stays. */
  function Settled(a: Authority, m: Meta): Meta {
    var remote := Remote(a, OwnerId(m.profile));
    if remote.Some? && Managed(m.profile) then Renamed(m, Some(remote.value.name), remote.value.status)
    else
      match ProfileRestriction(a, m.profile)
      case Some(r) => Renamed(m, None, r.status)
      case None => m
  }

  function ReconcileEntry(a: Authority, reg: seq<Meta>, m: Meta): seq<Meta> {
    var remote := Remote(a, OwnerId(m.profile));
    if Condemned(a, m.profile) then RemoveMeta(reg, Id(m))
    else if remote.Some? && Managed(m.profile) then UpdateMeta(reg, Id(m), Some(remote.value.name), remote.value.status)
    else
      match ProfileRestriction(a, m.profile)
      case Some(r) => UpdateMeta(reg, Id(m), None, r.status)
      case None => reg
  }

  function ReconcileEntries(a: Authority, reg: seq<Meta>, entries: seq<Meta>): seq<Meta> {
    if entries == [] then reg
    else ReconcileEntry(a, ReconcileEntries(a, reg, entries[..|entries| - 1]), entries[|entries| - 1])
  }

  class Tunnel {
    var activeProfile: Option<Profile>

    constructor ()
      ensures activeProfile == None
    {
      activeProfile := None;
    }

    method Stop()
      modifies this
      ensures activeProfile == None
    {
      activeProfile := None;
    }
  }

  method ReconcileAccess(a: Authority, tunnel: Tunnel, store: Store)
    requires UniqueMeta(store.registry)
    modifies tunnel, store
    ensures tunnel.activeProfile == if StopsTunnel(a, old(tunnel.activeProfile)) then None else old(tunnel.activeProfile)
    ensures store.registry == Reconciled(a, old(store.registry))
  {
    hide Condemned, ProfileRestriction, Remote, BlocksDevice, RemoveMeta, UpdateMeta, Reconciled;
    ghost var before := store.registry;
    if StopsTunnel(a, tunnel.activeProfile) {
      tunnel.Stop();
    }
    ghost var left := tunnel.activeProfile;
    var entries := store.registry;
    for i := 0 to |entries|
      invariant tunnel.activeProfile == left
      invariant store.registry == ReconcileEntries(a, before, entries[..i])
    {
      var entry := entries[i];
      assert entries[..i + 1][..i] == entries[..i];
      var restriction := ProfileRestriction(a, entry.profile);
      var remote := Remote(a, OwnerId(entry.profile));
      if Condemned(a, entry.profile) {
        store.Remove(Id(entry));
      } else if remote.Some? && Managed(entry.profile) {
        store.UpdateMetadata(Id(entry), Some(remote.value.name), remote.value.status);
      } else if restriction.Some? {
        store.UpdateMetadata(Id(entry), None, restriction.value.status);
      }
    }
    assert entries[..|entries|] == entries;
    EntriesReconcile(a, before);
  }

  // ----- what it comes to

  /** The entries that stay, each as the authority describes it. */
  function Survivors(a: Authority, reg: seq<Meta>): seq<Meta> {
    if reg == [] then []
    else
      Survivors(a, reg[..|reg| - 1])
      + (if Condemned(a, reg[|reg| - 1].profile) then [] else [Settled(a, reg[|reg| - 1])])
  }

  predicate AnyCondemned(a: Authority, reg: seq<Meta>) { exists i | 0 <= i < |reg| :: Condemned(a, reg[i].profile) }

  /** The survivors in their order; when something was removed, one of them is active. */
  function Reconciled(a: Authority, reg: seq<Meta>): seq<Meta> {
    if AnyCondemned(a, reg) then WakeFirst(Survivors(a, reg)) else Survivors(a, reg)
  }

  function Halfway(a: Authority, reg: seq<Meta>, i: nat): seq<Meta>
    requires i <= |reg|
  {
    var all := Survivors(a, reg[..i]) + reg[i..];
    if AnyCondemned(a, reg[..i]) then WakeFirst(all) else all
  }

  lemma {:induction false} WithoutMiddle(left: seq<Meta>, m: Meta, right: seq<Meta>)
    requires UniqueMeta(left + [m] + right)
    ensures Without(left + [m] + right, Id(m)) == left + right
  {
    var all := left + [m] + right;
    if left == [] {
      assert all == [m] + right;
      WithoutAbsent(right, Id(m));
    } else {
      assert all[1..] == left[1..] + [m] + right;
      assert all[|left|] == m;
      WithoutMiddle(left[1..], m, right);
    }
  }

  lemma {:induction false} UpdateMiddle(left: seq<Meta>, m: Meta, right: seq<Meta>, name: Option<string>, status: ProfileStatus)
    requires UniqueMeta(left + [m] + right)
    ensures UpdateMeta(left + [m] + right, Id(m), name, status) == left + [Renamed(m, name, status)] + right
  {
    var all := left + [m] + right;
    if left == [] {
      assert all == [m] + right;
      UpdateNothing(right, Id(m), name, status);
    } else {
      assert all[1..] == left[1..] + [m] + right;
      assert all[|left|] == m;
      UpdateMiddle(left[1..], m, right, name, status);
    }
  }

  lemma {:induction false} UpdateNothing(reg: seq<Meta>, id: string, name: Option<string>, status: ProfileStatus)
    requires forall k | 0 <= k < |reg| :: Id(reg[k]) != id
    ensures UpdateMeta(reg, id, name, status) == reg
  {
    if reg != [] {
      UpdateNothing(reg[1..], id, name, status);
    }
  }

  lemma {:induction false} UpdateIs(reg: seq<Meta>, id: string, name: Option<string>, status: ProfileStatus)
    ensures var u := UpdateMeta(reg, id, name, status);
            |u| == |reg| && forall k | 0 <= k < |reg| :: u[k] == if Id(reg[k]) == id then Renamed(reg[k], name, status) else reg[k]
  {
    if reg != [] {
      UpdateIs(reg[1..], id, name, status);
    }
  }

  /** Waking the first profile commutes with renaming, and is not needed before a removal. */
  lemma WakeCommutes(reg: seq<Meta>, id: string, name: Option<string>, status: ProfileStatus)
    ensures UpdateMeta(WakeFirst(reg), id, name, status) == WakeFirst(UpdateMeta(reg, id, name, status))
  {
    UpdateIs(reg, id, name, status);
    UpdateIs(WakeFirst(reg), id, name, status);
    assert forall k | 0 <= k < |reg| :: UpdateMeta(reg, id, name, status)[k].active == reg[k].active;
  }

  lemma WakeThenRemove(reg: seq<Meta>, id: string)
    ensures RemoveMeta(WakeFirst(reg), id) == RemoveMeta(reg, id)
  {
    if reg != [] && !SomeActive(reg) {
      var woken := [reg[0].(active := true)] + reg[1..];
      assert woken[1..] == reg[1..];
      var rest := Without(reg[1..], id);
      NoneActiveWithout(reg, id);
      if Id(reg[0]) == id {
        assert Without(woken, id) == rest && Without(reg, id) == rest;
      } else {
        assert Without(woken, id) == [woken[0]] + rest && Without(reg, id) == [reg[0]] + rest;
        assert WakeFirst([reg[0]] + rest) == [woken[0]] + rest;
      }
    }
  }

  lemma NoneActiveWithout(reg: seq<Meta>, id: string)
    requires !SomeActive(reg)
    ensures !SomeActive(Without(reg, id))
  {
    hide Without;
    WithoutHas(reg, id);
    var rest := Without(reg, id);
    forall k | 0 <= k < |rest|
      ensures !rest[k].active
    {
      assert rest[k] in rest;
    }
  }

  lemma {:induction false} SurvivorIds(a: Authority, reg: seq<Meta>, m: Meta)
    requires m in Survivors(a, reg)
    ensures exists k :: 0 <= k < |reg| && m == Settled(a, reg[k]) && !Condemned(a, reg[k].profile)
  {
    var n := |reg| - 1;
    if m in Survivors(a, reg[..n]) {
      SurvivorIds(a, reg[..n], m);
      var k :| 0 <= k < n && m == Settled(a, reg[..n][k]) && !Condemned(a, reg[..n][k].profile);
      assert reg[..n][k] == reg[k];
    }
  }

  lemma {:induction false} HalfwayUnique(a: Authority, reg: seq<Meta>, i: nat)
    requires UniqueMeta(reg) && i <= |reg|
    ensures UniqueMeta(Survivors(a, reg[..i]) + reg[i..])
  {
    hide Condemned, Settled, UniqueMeta;
    if i == 0 {
      assert reg[..0] == [] && [] + reg[0..] == reg;
    } else {
      HalfwayUnique(a, reg, i - 1);
      var left, m, right := Survivors(a, reg[..i - 1]), reg[i - 1], reg[i..];
      assert reg[..i][..i - 1] == reg[..i - 1] && reg[i - 1..] == [m] + right;
      assert left + reg[i - 1..] == left + [m] + right;
      SettledId(a, m);
      OneLessUnique(left, m, right, Settled(a, m));
      assert Survivors(a, reg[..i]) == left + (if Condemned(a, m.profile) then [] else [Settled(a, m)]);
      assert left + [] == left;
    }
  }

  lemma OneLessUnique(left: seq<Meta>, m: Meta, right: seq<Meta>, m': Meta)
    requires UniqueMeta(left + [m] + right) && Id(m') == Id(m)
    ensures UniqueMeta(left + right) && UniqueMeta(left + [m'] + right)
  {
    var all, less, other := left + [m] + right, left + right, left + [m'] + right;
    assert forall k | 0 <= k < |less| :: less[k] == all[if k < |left| then k else k + 1];
    assert forall k | 0 <= k < |other| :: Id(other[k]) == Id(all[k]);
  }

  lemma SettledId(a: Authority, m: Meta)
    ensures Id(Settled(a, m)) == Id(m) && Settled(a, m).active == m.active && Settled(a, m).savedAt == m.savedAt
  {
    hide Remote, ProfileRestriction;
  }

  lemma OneEntry(a: Authority, reg: seq<Meta>, i: nat)
    requires UniqueMeta(reg) && i < |reg|
    ensures ReconcileEntry(a, Halfway(a, reg, i), reg[i]) == Halfway(a, reg, i + 1)
  {
    hide Condemned, Remote, ProfileRestriction, UpdateMeta, Without, WakeFirst, UniqueMeta;
    var left, m, right := Survivors(a, reg[..i]), reg[i], reg[i + 1..];
    HalfwayUnique(a, reg, i);
    assert reg[i..] == [m] + right;
    assert left + reg[i..] == left + [m] + right;
    assert reg[..i + 1][..i] == reg[..i];
    var was, will := AnyCondemned(a, reg[..i]), AnyCondemned(a, reg[..i + 1]);
    assert will == (was || Condemned(a, m.profile)) by { AnyCondemnedNext(a, reg, i); }
    if Condemned(a, m.profile) {
      WakeThenRemove(left + [m] + right, Id(m));
      WithoutMiddle(left, m, right);
      assert Survivors(a, reg[..i + 1]) + right == left + right;
    } else {
      var remote, r := Remote(a, OwnerId(m.profile)), ProfileRestriction(a, m.profile);
      assert Survivors(a, reg[..i + 1]) + right == left + [Settled(a, m)] + right;
      if remote.Some? && Managed(m.profile) {
        UpdateMiddle(left, m, right, Some(remote.value.name), remote.value.status);
        WakeCommutes(left + [m] + right, Id(m), Some(remote.value.name), remote.value.status);
      } else if r.Some? {
        UpdateMiddle(left, m, right, None, r.value.status);
        WakeCommutes(left + [m] + right, Id(m), None, r.value.status);
      }
    }
  }

  lemma AnyCondemnedNext(a: Authority, reg: seq<Meta>, i: nat)
    requires i < |reg|
    ensures AnyCondemned(a, reg[..i + 1]) == (AnyCondemned(a, reg[..i]) || Condemned(a, reg[i].profile))
  {
    hide Condemned;
    assert forall k | 0 <= k < i :: reg[..i + 1][k] == reg[..i][k];
    assert reg[..i + 1][i] == reg[i];
  }

  lemma {:induction false} EntriesReconcileTo(a: Authority, reg: seq<Meta>, i: nat)
    requires UniqueMeta(reg) && i <= |reg|
    ensures ReconcileEntries(a, reg, reg[..i]) == Halfway(a, reg, i)
  {
    hide Condemned, ReconcileEntry, UniqueMeta;
    if i == 0 {
      assert reg[..0] == [];
      assert Halfway(a, reg, 0) == reg;
    } else {
      EntriesReconcileTo(a, reg, i - 1);
      OneEntry(a, reg, i - 1);
      assert reg[..i][..i - 1] == reg[..i - 1];
    }
  }

  lemma EntriesReconcile(a: Authority, reg: seq<Meta>)
    requires UniqueMeta(reg)
    ensures ReconcileEntries(a, reg, reg) == Reconciled(a, reg)
  {
    hide Condemned;
    EntriesReconcileTo(a, reg, |reg|);
    assert reg[..|reg|] == reg;
    assert Survivors(a, reg) + reg[|reg|..] == Survivors(a, reg);
  }

  // ----- properties

  /** What a profile is restricted by does not depend on its name. */
  lemma NameIsIrrelevant(a: Authority, p: Profile, name: string)
    ensures ProfileRestriction(a, p.(name := name)) == ProfileRestriction(a, p)
  {
    SameConcern(a.restrictions, p, name);
    if a.snapshot.Some? {
      SameListing(a.snapshot.value.subscriptions, p, name);
    }
  }

  lemma {:induction false} SameConcern(rs: seq<Restriction>, p: Profile, name: string)
    ensures FirstConcerning(rs, p.(name := name)) == FirstConcerning(rs, p)
  {
    if rs != [] {
      SameConcern(rs[1..], p, name);
    }
  }

  lemma {:induction false} SameListing(subs: seq<Subscription>, p: Profile, name: string)
    ensures FirstListed(subs, p.(name := name)) == FirstListed(subs, p)
  {
    if subs != [] {
      SameListing(subs[1..], p, name);
    }
  }

  lemma SettledStands(a: Authority, m: Meta)
    ensures ProfileRestriction(a, Settled(a, m).profile) == ProfileRestriction(a, m.profile)
    ensures Settled(a, Settled(a, m)) == Settled(a, m)
  {
    hide Remote, ProfileRestriction;
    var remote := Remote(a, OwnerId(m.profile));
    if remote.Some? {
      NameIsIrrelevant(a, m.profile, remote.value.name);
    }
  }

  /** A profile stays exactly if it is not condemned: suspended, expired and exhausted ones keep their payload. */
  lemma {:induction false} KeptExactly(a: Authority, reg: seq<Meta>, k: nat)
    requires UniqueMeta(reg) && k < |reg|
    ensures Id(reg[k]) in Ids(Reconciled(a, reg)) <==> !Condemned(a, reg[k].profile)
    ensures Ids(Reconciled(a, reg)) <= Ids(reg)
  {
    hide Condemned, Settled, Survivors;
    var out, s := Reconciled(a, reg), Survivors(a, reg);
    assert |out| == |s| && forall i | 0 <= i < |s| :: Id(out[i]) == Id(s[i]) && Imported(out[i]) == Imported(s[i]);
    SameIds(out, s);
    forall m | m in Survivors(a, reg)
      ensures exists j :: 0 <= j < |reg| && Id(m) == Id(reg[j]) && !Condemned(a, reg[j].profile)
    {
      SurvivorIds(a, reg, m);
      var j :| 0 <= j < |reg| && m == Settled(a, reg[j]) && !Condemned(a, reg[j].profile);
      SettledId(a, reg[j]);
    }
    if !Condemned(a, reg[k].profile) {
      Survives(a, reg, k);
      SettledId(a, reg[k]);
    }
  }

  lemma {:induction false} Survives(a: Authority, reg: seq<Meta>, k: nat)
    requires k < |reg| && !Condemned(a, reg[k].profile)
    ensures Settled(a, reg[k]) in Survivors(a, reg)
  {
    hide Condemned, Settled;
    if k < |reg| - 1 {
      Survives(a, reg[..|reg| - 1], k);
    }
  }

  /** The name and state shown for an entry: those of its subscription if managed and listed, else those of its restriction. */
  predicate Describes(a: Authority, before: Meta, after: Meta) {
    var p, r := before.profile, ProfileRestriction(a, before.profile);
    var remote := Remote(a, if p.subscriptionId.Some? then p.subscriptionId.value else p.configId);
    var managed := p.source == Some(Backend) || (p.source == None && p.subscriptionId.Some?);
    && Id(after) == Id(before) && after.savedAt == before.savedAt && Imported(after) == Imported(before)
    && (remote.Some? && managed ==>
          after.profile.name == remote.value.name && after.status == Some(remote.value.status))
    && (!(remote.Some? && managed) ==>
          && after.profile.name == before.profile.name
          && after.status == if r.Some? then Some(r.value.status) else before.status)
  }

  /** What stays is described as the authority sees it, and something is active if anything was removed. */
  lemma KeptEntriesAreDescribed(a: Authority, reg: seq<Meta>, k: nat)
    requires k < |reg| && !Condemned(a, reg[k].profile)
    ensures exists m :: m in Reconciled(a, reg) && Describes(a, reg[k], m)
    ensures AnyCondemned(a, reg) ==> SomeActive(Reconciled(a, reg))
  {
    hide Condemned, Remote, ProfileRestriction, Survivors;
    Survives(a, reg, k);
    var s, out := Survivors(a, reg), Reconciled(a, reg);
    var i :| 0 <= i < |s| && s[i] == Settled(a, reg[k]);
    assert out[i].profile == s[i].profile && out[i].status == s[i].status && out[i].savedAt == s[i].savedAt;
    OwnedIs(reg[k].profile, OwnerId(reg[k].profile));
    assert out[i] in out && Describes(a, reg[k], out[i]);
    if !SomeActive(s) {
      assert WakeFirst(s)[0].active;
    }
  }

  /** After a run nothing condemned is left. */
  lemma NoneCondemned(a: Authority, reg: seq<Meta>)
    ensures !AnyCondemned(a, Reconciled(a, reg))
  {
    hide Settled, ProfileRestriction;
    var out := Reconciled(a, reg);
    forall k | 0 <= k < |out|
      ensures !Condemned(a, out[k].profile)
    {
      var s := Survivors(a, reg);
      assert out[k].profile == s[k].profile && s[k] in s;
      SurvivorIds(a, reg, s[k]);
      var j :| 0 <= j < |reg| && s[k] == Settled(a, reg[j]) && !Condemned(a, reg[j].profile);
      SettledStands(a, reg[j]);
    }
  }

  /** A second run finds nothing to remove and nothing to rewrite. */
  lemma SecondRunChangesNothing(a: Authority, reg: seq<Meta>)
    ensures Reconciled(a, Reconciled(a, reg)) == Reconciled(a, reg)
  {
    hide Settled, Condemned;
    var out, s := Reconciled(a, reg), Survivors(a, reg);
    NoneCondemned(a, reg);
    forall k | 0 <= k < |out|
      ensures Settled(a, out[k]) == out[k] && !Condemned(a, out[k].profile)
    {
      assert s[k] in s;
      SurvivorIds(a, reg, s[k]);
      var j :| 0 <= j < |reg| && s[k] == Settled(a, reg[j]) && !Condemned(a, reg[j].profile);
      SettledStands(a, reg[j]);
      WakingIsNoMatter(a, s[k]);
    }
    AllSettled(a, out);
  }

  lemma WakingIsNoMatter(a: Authority, m: Meta)
    requires Settled(a, m) == m
    ensures Settled(a, m.(active := true)) == m.(active := true)
  {
  }

  lemma {:induction false} AllSettled(a: Authority, reg: seq<Meta>)
    requires forall k | 0 <= k < |reg| :: Settled(a, reg[k]) == reg[k] && !Condemned(a, reg[k].profile)
    ensures Survivors(a, reg) == reg
  {
    hide Settled, Condemned;
    if reg != [] {
      AllSettled(a, reg[..|reg| - 1]);
    }
  }

  /** After a snapshot without inventory of a lost device, a new run removes nothing more. */
  lemma MinimalSnapshotRemovesNothing(a: Authority, s: Snapshot, ps: seq<Profile>, reg: seq<Meta>)
    requires Inv(a) && !OtherDevice(a, s) && WithoutInventory(s) && UniqueMeta(reg)
    ensures var next := ReduceSnapshot(a, s, ps).value; Ids(Reconciled(next, Reconciled(a, reg))) == Ids(Reconciled(a, reg))
  {
    hide ReduceSnapshot, Inv, OtherDevice, WithoutInventory, ProfileRestriction, Reconciled;
    SnapshotExists(a, s, ps);
    var next, out := ReduceSnapshot(a, s, ps).value, Reconciled(a, reg);
    ReconciledUnique(a, reg);
    NoneCondemned(a, reg);
    forall k | 0 <= k < |out|
      ensures Id(out[k]) in Ids(Reconciled(next, out))
    {
      MinimalSnapshotCondemnsNothing(a, s, ps, out[k].profile);
      KeptExactly(next, out, k);
    }
    if out == [] {
      NothingFromNothing(next, out);
    } else {
      KeptExactly(next, out, 0);
    }
  }

  lemma SnapshotExists(a: Authority, s: Snapshot, ps: seq<Profile>)
    requires !OtherDevice(a, s)
    ensures ReduceSnapshot(a, s, ps).Some?
  {
  }

  lemma NothingFromNothing(a: Authority, reg: seq<Meta>)
    ensures reg == [] ==> Reconciled(a, reg) == []
  {
  }

  lemma ReconciledUnique(a: Authority, reg: seq<Meta>)
    requires UniqueMeta(reg)
    ensures UniqueMeta(Reconciled(a, reg))
  {
    hide Condemned, Settled;
    HalfwayUnique(a, reg, |reg|);
    assert reg[..|reg|] == reg;
    assert Survivors(a, reg) + reg[|reg|..] == Survivors(a, reg);
  }

  /**
   A managed profile that any other snapshot omits is removed by the next run if and only if no milder
   restriction stands before its deletion under its other identifier; with one identifier, always.
   */
  lemma OmittedIsRemoved(a: Authority, s: Snapshot, ps: seq<Profile>, reg: seq<Meta>, k: nat)
    requires Inv(a) && UniqueEntries(s.subscriptions) && !OtherDevice(a, s) && !WithoutInventory(s)
    requires UniqueMeta(reg) && k < |reg| && OwnedBy(reg[k].profile, OwnerId(reg[k].profile)) && reg[k].profile in ps
    requires Id(reg[k]) != "" && !Lists(s, OwnerId(reg[k].profile))
    ensures var next := ReduceSnapshot(a, s, ps).value;
            var mine, other := IndexOf(next.restrictions, OwnerId(reg[k].profile)), IndexOf(next.restrictions, Id(reg[k]));
            Id(reg[k]) !in Ids(Reconciled(next, reg))
            <==> mine <= other || next.restrictions[other].status == Revoked || next.restrictions[other].status == Deleted
    ensures Id(reg[k]) == OwnerId(reg[k].profile) ==> Id(reg[k]) !in Ids(Reconciled(ReduceSnapshot(a, s, ps).value, reg))
  {
    hide ReduceSnapshot, Lists, WithoutInventory, Reconciled, UniqueMeta, UniqueEntries;
    SnapshotExists(a, s, ps);
    var next, p := ReduceSnapshot(a, s, ps).value, reg[k].profile;
    OmittedIsDeleted(a, s, ps, OwnerId(p));
    AccessPolicyRuns.StepKeeps(a, SnapshotEvent(s, ps));
    FallbackNeverDecides(next, p);
    FirstNamed(next.restrictions, p);
    KeptExactly(next, reg, k);
  }

  /** A managed profile is concerned by the first restriction under one of its identifiers. */
  lemma {:induction false} FirstNamed(rs: seq<Restriction>, p: Profile)
    requires Managed(p) && p.configId != ""
    ensures var i, j := IndexOf(rs, OwnerId(p)), IndexOf(rs, p.configId);
            FirstConcerning(rs, p) == if i <= j && i < |rs| then Some(rs[i]) else if j < |rs| then Some(rs[j]) else None
  {
    if rs != [] {
      FirstNamed(rs[1..], p);
    }
  }
}
