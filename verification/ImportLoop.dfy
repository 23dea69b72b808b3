/**
 The import loop of refreshMobileConfigs and libererPlaceInutilisable
 (app-mobile/services/accessSync.ts). What the server, the vault and the clock answer while an entry is
 handled is an `Answer`; nobody else writes the store meanwhile.
 */
module ImportLoop {
  import opened Wrappers
  import opened AccessPolicy
  import opened ConfigStore
  import AccessPolicyRuns
  import AccessVerdicts

  datatype Connection = Connection(id: string, status: ProfileStatus, hasToken: bool, configHash: Option<string>)

  /** What provisioning returned: the profile is saved under the identifier of the connection. */
  datatype Provisioned = Provisioned(subscriptionId: Option<string>, configHash: Option<string>, name: string, savedAt: nat, becomes: bool)

  datatype Answer = Answer(
    sessionEnded: bool, authority: Option<Authority>, running: Option<string>,
    readable: bool,                        // the payload of a stored profile opens
    outdated: bool,                        // the stored profile differs from what the server announces
    removes: bool,                         // a removal succeeds
    provisioned: Option<Provisioned>)      // None: provisioning or saving failed

  datatype Note = CapReached | Failed | TokenMissing

  datatype Eviction = Eviction(meta: Meta, authority: Authority, running: Option<string>)

  datatype Import = Import(registry: seq<Meta>, known: set<string>, notes: map<string, Note>, evicted: seq<Eviction>)

  function FindConnection(cs: seq<Connection>, id: string): Option<Connection> {
    if cs == [] then None else if cs[0].id == id then Some(cs[0]) else FindConnection(cs[1..], id)
  }

  // ----- libererPlaceInutilisable

  /** 0: no longer assigned; 1: restricted or not active; 2: usable. */
  function Usefulness(a: Authority, cs: seq<Connection>, m: Meta): nat {
    match FindConnection(cs, OwnerId(m.profile))
    case None => 0
    case Some(c) => if ProfileRestriction(a, m.profile).Some? || c.status != Active then 1 else 2
  }

  predicate Evictable(a: Authority, cs: seq<Connection>, known: set<string>, running: Option<string>, m: Meta) {
    Imported(m) && Id(m) in known && !m.active && Some(Id(m)) != running && Usefulness(a, cs, m) < 2
  }

  /** The more useless goes first, the older one among equals. */
  predicate GoesBefore(a: Authority, cs: seq<Connection>, m: Meta, n: Meta) {
    var u, v := Usefulness(a, cs, m), Usefulness(a, cs, n);
    u < v || (u == v && m.savedAt < n.savedAt)
  }

  function Victim(a: Authority, cs: seq<Connection>, known: set<string>, running: Option<string>, reg: seq<Meta>): (i: nat)
    ensures i <= |reg|
    ensures i == |reg| ==> forall k | 0 <= k < |reg| :: !Evictable(a, cs, known, running, reg[k])
    ensures i < |reg| ==>
              && Evictable(a, cs, known, running, reg[i])
              && forall k | 0 <= k < |reg| && Evictable(a, cs, known, running, reg[k]) ::
                   !GoesBefore(a, cs, reg[k], reg[i]) && (k < i ==> GoesBefore(a, cs, reg[i], reg[k]))
  {
    if reg == [] then 0
    else
      var n := |reg| - 1;
      var k := Victim(a, cs, known, running, reg[..n]);
      assert forall j | 0 <= j < n :: reg[..n][j] == reg[j];
      if !Evictable(a, cs, known, running, reg[n]) then (if k == n then |reg| else k)
      else if k == n || GoesBefore(a, cs, reg[n], reg[k]) then n
      else k
  }

  // ----- one entry

  predicate Stops(ans: Answer) { ans.authority.None? || BlocksDevice(DeviceAccess(ans.authority.value)) }

  function ProfileOf(c: Connection): Profile {
    Profile(c.id, if c.id == "" then None else Some(c.id), c.configHash, Some(Backend), "")
  }

  function MetaOf(c: Connection, p: Provisioned): Meta {
    Meta(Profile(c.id, p.subscriptionId, p.configHash, Some(Backend), p.name), false, p.savedAt, None)
  }

  function Provision(st: Import, c: Connection, ans: Answer): Import {
    match ans.provisioned
    case None => st.(notes := st.notes[c.id := Failed])
    case Some(p) => st.(registry := SaveMeta(st.registry, MetaOf(c, p), Decided(p.becomes)), known := st.known + {c.id})
  }

  function Evict(st: Import, i: nat, a: Authority, running: Option<string>): Import
    requires i < |st.registry|
  {
    var m := st.registry[i];
    st.(registry := RemoveMeta(st.registry, Id(m)), known := st.known - {Id(m)}, evicted := st.evicted + [Eviction(m, a, running)])
  }

  function ImportEntry(st: Import, cs: seq<Connection>, c: Connection, ans: Answer): Import
    requires ans.authority.Some?
  {
    var a := ans.authority.value;
    if ProfileRestriction(a, ProfileOf(c)).Some? || c.status != Active then st
    else
      var stored := Find(st.registry, c.id).Some? && ans.readable;
      if !c.hasToken then (if stored then st else st.(notes := st.notes[c.id := TokenMissing]))
      else if !stored && c.id !in st.known && |st.known| >= CAP then
        var v := Victim(a, cs, st.known, ans.running, st.registry);
        if v == |st.registry| || !ans.removes then st.(notes := st.notes[c.id := CapReached])
        else Provision(Evict(st, v, a, ans.running), c, ans)
      else if !stored || ans.outdated then Provision(st, c, ans)
      else st
  }

  /** The first n entries, until the session ends or the device is blocked. */
  function ImportFirst(st: Import, cs: seq<Connection>, answers: seq<Answer>, n: nat): Import
    requires n <= |cs| == |answers|
  {
    if n == 0 then st
    else
      var before := ImportFirst(st, cs, answers, n - 1);
      if exists k | 0 <= k < n :: answers[k].sessionEnded || Stops(answers[k]) then before
      else ImportEntry(before, cs, cs[n - 1], answers[n - 1])
  }

  function Opening(reg: seq<Meta>): Import { Import(reg, ImportedIds(reg), map[], []) }

  /** The session ended before the device was found blocked: the notes of this import are dropped. */
  predicate Abandoned(answers: seq<Answer>) {
    exists k | 0 <= k < |answers| :: answers[k].sessionEnded && forall j | 0 <= j < k :: !Stops(answers[j])
  }

  /** libererPlaceInutilisable: the profile evicted, if there is one and its removal succeeds. */
  method FreePlace(store: Store, cs: seq<Connection>, known: set<string>, a: Authority, ans: Answer) returns (freed: Option<Meta>)
    modifies store
    ensures var reg := old(store.registry); var v := Victim(a, cs, known, ans.running, reg);
            if v == |reg| || !ans.removes then freed == None && store.registry == reg
            else freed == Some(reg[v]) && store.registry == RemoveMeta(reg, Id(reg[v]))
  {
    var v := Victim(a, cs, known, ans.running, store.registry);
    if v == |store.registry| || !ans.removes {
      return None;
    }
    freed := Some(store.registry[v]);
    store.Remove(Id(freed.value));
  }

  /** provisionAndStore, and the note when it fails. */
  method ProvisionAndStore(store: Store, c: Connection, ans: Answer, known: set<string>, notes: map<string, Note>, ghost evicted: seq<Eviction>)
      returns (nextKnown: set<string>, nextNotes: map<string, Note>)
    modifies store
    ensures Import(store.registry, nextKnown, nextNotes, evicted) == Provision(Import(old(store.registry), known, notes, evicted), c, ans)
  {
    nextKnown, nextNotes := known, notes;
    match ans.provisioned {
      case None =>
        nextNotes := notes[c.id := Failed];
      case Some(p) =>
        store.Save(MetaOf(c, p), Decided(p.becomes));
        nextKnown := known + {c.id};
    }
  }

  method ImportConfigs(store: Store, cs: seq<Connection>, answers: seq<Answer>) returns (kept: Option<map<string, Note>>)
    requires |cs| == |answers|
    modifies store
    ensures var st := ImportFirst(Opening(old(store.registry)), cs, answers, |cs|);
            store.registry == st.registry && kept == if Abandoned(answers) then None else Some(st.notes)
  {
    hide ProfileRestriction, BlocksDevice, DeviceAccess, Find, Stops, Provision, RemoveMeta, Usefulness;
    ghost var start := Opening(store.registry);
    var known := ImportedIds(store.registry);
    ghost var evicted: seq<Eviction> := [];
    var notes: map<string, Note> := map[];
    var i := 0;
    while i < |cs|
      invariant 0 <= i <= |cs|
      invariant forall k | 0 <= k < i :: !answers[k].sessionEnded && !Stops(answers[k])
      invariant ImportFirst(start, cs, answers, i) == Import(store.registry, known, notes, evicted)
    {
      var c, ans := cs[i], answers[i];
      if ans.sessionEnded || Stops(ans) {
        StaysStopped(start, cs, answers, i, |cs|);
        return if ans.sessionEnded then None else Some(notes);
      }
      assert ans.authority.Some? by { NotStopped(ans); }
      var a := ans.authority.value;
      var stored := Find(store.registry, c.id).Some? && ans.readable;
      i := i + 1;
      if ProfileRestriction(a, ProfileOf(c)).Some? || c.status != Active {
        continue;
      }
      if !c.hasToken {
        if !stored {
          notes := notes[c.id := TokenMissing];
        }
        continue;
      }
      if !stored && c.id !in known && |known| >= CAP {
        var freed := FreePlace(store, cs, known, a, ans);
        if freed.None? {
          notes := notes[c.id := CapReached];
          continue;
        }
        evicted := evicted + [Eviction(freed.value, a, ans.running)];
        known := known - {Id(freed.value)};
      }
      if !stored || ans.outdated {
        known, notes := ProvisionAndStore(store, c, ans, known, notes, evicted);
      }
    }
    return Some(notes);
  }

  lemma NotStopped(ans: Answer)
    ensures !Stops(ans) ==> ans.authority.Some?
  {
  }

  lemma {:induction false} StaysStopped(st: Import, cs: seq<Connection>, answers: seq<Answer>, i: nat, n: nat)
    requires i < n <= |cs| == |answers| && (answers[i].sessionEnded || Stops(answers[i]))
    ensures ImportFirst(st, cs, answers, n) == ImportFirst(st, cs, answers, i)
  {
    hide Stops;
    if i < n - 1 {
      StaysStopped(st, cs, answers, i, n - 1);
    }
  }

  // ----- the number of imported profiles

  predicate Sound(st: Import) { UniqueMeta(st.registry) && AtMostOneActive(st.registry) }

  predicate Legitimate(e: Eviction, cs: seq<Connection>) {
    Imported(e.meta) && !e.meta.active && Some(Id(e.meta)) != e.running && Usefulness(e.authority, cs, e.meta) < 2
  }

  function Larger(a: nat, b: nat): nat { if a < b then b else a }

  lemma EvictKeeps(st: Import, i: nat, a: Authority, running: Option<string>)
    requires Sound(st) && i < |st.registry|
    ensures var e := Evict(st, i, a, running);
            && Sound(e) && Ids(e.registry) == Ids(st.registry) - {Id(st.registry[i])}
            && ImportedIds(e.registry) == ImportedIds(st.registry) - {Id(st.registry[i])}
            && CountImported(e.registry) <= CountImported(st.registry)
  {
    hide Ids, UniqueMeta, AtMostOneActive, ImportedIds, RemoveMeta;
    RemoveKeeps(st.registry, Id(st.registry[i]));
    CountIsCardinality(st.registry);
    CountIsCardinality(Evict(st, i, a, running).registry);
    SubsetIsSmaller(ImportedIds(Evict(st, i, a, running).registry), ImportedIds(st.registry));
  }

  lemma ProvisionBounds(st: Import, c: Connection, ans: Answer)
    requires Sound(st)
    ensures var next := Provision(st, c, ans);
            Sound(next) && CountImported(next.registry) <= Larger(CountImported(st.registry), CAP) && next.evicted == st.evicted
  {
    hide UniqueMeta, AtMostOneActive, CountImported, SaveMeta;
    if ans.provisioned.Some? {
      SaveBounds(st.registry, MetaOf(c, ans.provisioned.value), Decided(ans.provisioned.value.becomes));
    }
  }

  lemma EntryBounds(st: Import, cs: seq<Connection>, c: Connection, ans: Answer)
    requires ans.authority.Some? && Sound(st)
    ensures var next := ImportEntry(st, cs, c, ans);
            && Sound(next) && CountImported(next.registry) <= Larger(CountImported(st.registry), CAP)
            && st.evicted <= next.evicted
            && forall e | e in next.evicted :: e in st.evicted || Legitimate(e, cs)
  {
    hide UniqueMeta, AtMostOneActive, CountImported, Provision, RemoveMeta, ProfileRestriction, Usefulness, Find, Ids, ImportedIds;
    var v := Victim(ans.authority.value, cs, st.known, ans.running, st.registry);
    ProvisionBounds(st, c, ans);
    if v < |st.registry| {
      EvictKeeps(st, v, ans.authority.value, ans.running);
      ProvisionBounds(Evict(st, v, ans.authority.value, ans.running), c, ans);
    }
  }

  /** Whatever the answers, imports never exceed the larger of the starting count and four. */
  lemma {:induction false} ImportsAreBounded(reg: seq<Meta>, cs: seq<Connection>, answers: seq<Answer>, n: nat)
    requires UniqueMeta(reg) && AtMostOneActive(reg) && n <= |cs| == |answers|
    ensures var st := ImportFirst(Opening(reg), cs, answers, n);
            && Sound(st) && CountImported(st.registry) <= Larger(CountImported(reg), CAP)
            && forall e | e in st.evicted :: Legitimate(e, cs)
  {
    hide ImportEntry, UniqueMeta, AtMostOneActive, CountImported, Legitimate;
    if n > 0 {
      ImportsAreBounded(reg, cs, answers, n - 1);
      if !exists k | 0 <= k < n :: answers[k].sessionEnded || Stops(answers[k]) {
        assert !Stops(answers[n - 1]);
        EntryBounds(ImportFirst(Opening(reg), cs, answers, n - 1), cs, cs[n - 1], answers[n - 1]);
      }
    }
  }

  // ----- nothing else is lost

  predicate Assigned(cs: seq<Connection>, id: string) { exists k | 0 <= k < |cs| :: cs[k].id == id }

  /** Saving an imported profile loses another one exactly when there are more than four. */
  lemma SaveLosesNothingExactly(reg: seq<Meta>, entry: Meta, choice: Choice)
    requires UniqueMeta(reg) && AtMostOneActive(reg) && Imported(entry)
    ensures Ids(SaveMeta(reg, entry, choice)) == Ids(reg) + {Id(entry)} <==> |ImportedIds(reg) + {Id(entry)}| <= CAP
  {
    hide UniqueMeta, AtMostOneActive, Prune, CountImported, Entered;
    var e := Entered(reg, entry, choice);
    EnteredKeeps(reg, entry, choice);
    SaveBounds(reg, entry, choice);
    if |ImportedIds(e)| > CAP {
      PruneKeeps(e, Id(entry));
      var p := Prune(e, Id(entry));
      CountIsCardinality(p);
      if Ids(p) == Ids(e) {
        SameImports(p, e);
      }
    }
  }

  lemma SameImports(p: seq<Meta>, e: seq<Meta>)
    requires UniqueMeta(e) && (forall m | m in p :: m in e) && Ids(p) == Ids(e)
    ensures ImportedIds(p) == ImportedIds(e)
  {
    forall id | id in ImportedIds(e)
      ensures id in ImportedIds(p)
    {
      var m :| m in e && Imported(m) && Id(m) == id;
      assert id in Ids(p);
      var n :| n in p && Id(n) == id;
      FindIs(e, id);
    }
  }

  function Held(id: string, active: bool, savedAt: nat): Meta {
    Meta(Profile(id, None, None, Some(Backend), ""), active, savedAt, None)
  }

  const FOUR_HELD := [Held("a", true, 0), Held("b", false, 1), Held("c", false, 2), Held("d", false, 3)]
  const ALL_ASSIGNED := [Connection("a", Active, true, None), Connection("b", Active, true, None), Connection("c", Active, true, None),
                         Connection("d", Active, true, None), Connection("e", Active, true, None)]
  const NO_RESTRICTION := Authority("u", "d", "s", 0, None, None, [])

  /**
   Four useful imported profiles are held and a fifth is saved: the oldest inactive one is gone, although
   the authority and the server both allow it and its tunnel may be running.
   */
  lemma ASaveDropsAUsefulProfile()
    ensures var lost := FOUR_HELD[1];
            && Usefulness(NO_RESTRICTION, ALL_ASSIGNED, lost) == 2
            && Id(lost) !in Ids(SaveMeta(FOUR_HELD, Held("e", false, 4), Decided(false)))
  {
    hide Prune, Usefulness, Entered, Ahead, CountImported, UniqueMeta, AtMostOneActive;
    var entry := Held("e", false, 4);
    StillUseful();
    FifthEntered();
    FifthIsExcess();
    PrunedExactly(FOUR_HELD + [entry], "e", 1);
    assert (FOUR_HELD + [entry])[1] == FOUR_HELD[1];
    PruneKeeps(FOUR_HELD + [entry], "e");
    GoneByIdentifier(FOUR_HELD + [entry], Prune(FOUR_HELD + [entry], "e"), 1);
  }

  lemma StillUseful()
    ensures Usefulness(NO_RESTRICTION, ALL_ASSIGNED, FOUR_HELD[1]) == 2
  {
    hide ProfileRestriction;
    Unrestricted(FOUR_HELD[1].profile);
    assert ALL_ASSIGNED[1..][0] == ALL_ASSIGNED[1];
  }

  lemma FifthEntered()
    ensures Entered(FOUR_HELD, Held("e", false, 4), Decided(false)) == FOUR_HELD + [Held("e", false, 4)]
    ensures UniqueMeta(FOUR_HELD + [Held("e", false, 4)]) && AtMostOneActive(FOUR_HELD + [Held("e", false, 4)])
  {
    hide Without, Find;
    FourIds();
    WithoutAbsent(FOUR_HELD, "e");
    FindIs(FOUR_HELD, "e");
  }

  lemma FourIds()
    ensures forall m | m in FOUR_HELD :: Id(m) != "e"
    ensures UniqueMeta(FOUR_HELD)
  {
  }

  lemma FifthIsExcess()
    ensures var entered := FOUR_HELD + [Held("e", false, 4)];
            Prunable(entered[1], "e") && Ahead(entered, "e", 1) == {} && Excess(entered) == 1
  {
    CountFive(FOUR_HELD + [Held("e", false, 4)]);
  }

  lemma Unrestricted(p: Profile)
    ensures ProfileRestriction(NO_RESTRICTION, p) == None
  {
  }

  lemma CountFive(reg: seq<Meta>)
    requires |reg| == 5 && forall k | 0 <= k < 5 :: Imported(reg[k])
    ensures CountImported(reg) == 5
  {
    AllCount(reg);
  }

  lemma {:induction false} AllCount(reg: seq<Meta>)
    requires forall k | 0 <= k < |reg| :: Imported(reg[k])
    ensures CountImported(reg) == |reg|
  {
    if reg != [] {
      AllCount(reg[1..]);
    }
  }

  /** At most four imported profiles, all known, and none added by hand under an assigned identifier. */
  predicate Orderly(st: Import, cs: seq<Connection>) {
    && Sound(st) && st.known == ImportedIds(st.registry) && |st.known| <= CAP
    && forall m | m in st.registry && Assigned(cs, Id(m)) :: Imported(m)
  }

  function EvictedIds(es: seq<Eviction>): set<string> { set e | e in es :: Id(e.meta) }

  lemma ProvisionOrderly(st: Import, cs: seq<Connection>, c: Connection, ans: Answer)
    requires Orderly(st, cs) && Assigned(cs, c.id) && |st.known + {c.id}| <= CAP
    ensures var next := Provision(st, c, ans);
            Orderly(next, cs) && Ids(st.registry) <= Ids(next.registry) && next.evicted == st.evicted
  {
    hide UniqueMeta, AtMostOneActive, SaveMeta, Assigned, Entered;
    if ans.provisioned.Some? {
      var p := ans.provisioned.value;
      var entry := MetaOf(c, p);
      SaveBounds(st.registry, entry, Decided(p.becomes));
      EnteredKeeps(st.registry, entry, Decided(p.becomes));
      EnteredIsImported(st, cs, entry, Decided(p.becomes));
    }
  }

  lemma EnteredIsImported(st: Import, cs: seq<Connection>, entry: Meta, choice: Choice)
    requires Orderly(st, cs) && Imported(entry)
    ensures forall m | m in Entered(st.registry, entry, choice) && Assigned(cs, Id(m)) :: Imported(m)
  {
    hide UniqueMeta, AtMostOneActive, Assigned;
    var others, e := Without(st.registry, Id(entry)), Entered(st.registry, entry, choice);
    WithoutHas(st.registry, Id(entry));
    QuietIs(others);
    forall k | 0 <= k < |e| && Assigned(cs, Id(e[k]))
      ensures Imported(e[k])
    {
      if k < |others| {
        assert others[k] in others;
      }
    }
  }

  lemma MakeRoomOrderly(st: Import, cs: seq<Connection>, c: Connection, ans: Answer, v: nat)
    requires ans.authority.Some? && Orderly(st, cs) && Assigned(cs, c.id)
    requires v < |st.registry| && Id(st.registry[v]) in st.known
    ensures var next := Provision(Evict(st, v, ans.authority.value, ans.running), c, ans);
            && Orderly(next, cs)
            && Ids(st.registry) <= Ids(next.registry) + EvictedIds(next.evicted) && st.evicted <= next.evicted
  {
    hide Orderly, Provision, RemoveMeta, Ids;
    var e := Evict(st, v, ans.authority.value, ans.running);
    EvictOrderly(st, cs, v, ans.authority.value, ans.running);
    assert |e.known + {c.id}| <= CAP by { OrderlyHolds(st, cs); }
    ProvisionOrderly(e, cs, c, ans);
    assert e.evicted[|st.evicted|] in e.evicted;
  }

  lemma OrderlyHolds(st: Import, cs: seq<Connection>)
    requires Orderly(st, cs)
    ensures st.known == ImportedIds(st.registry) && |st.known| <= CAP
    ensures forall m | m in st.registry && Assigned(cs, Id(m)) :: Id(m) in st.known
  {
  }

  lemma EntryOrderly(st: Import, cs: seq<Connection>, c: Connection, ans: Answer)
    requires ans.authority.Some? && Orderly(st, cs) && Assigned(cs, c.id)
    ensures var next := ImportEntry(st, cs, c, ans);
            && Orderly(next, cs)
            && Ids(st.registry) <= Ids(next.registry) + EvictedIds(next.evicted) && st.evicted <= next.evicted
  {
    hide Orderly, Assigned, Provision, ProfileRestriction, Usefulness, RemoveMeta, Ids, Evict;
    var stored := Find(st.registry, c.id).Some? && ans.readable;
    OrderlyHolds(st, cs);
    NotesAreNoMatter(st, cs, st.notes[c.id := TokenMissing]);
    NotesAreNoMatter(st, cs, st.notes[c.id := CapReached]);
    FindKnown(st, cs, c.id);
    var v := Victim(ans.authority.value, cs, st.known, ans.running, st.registry);
    if !stored && c.id !in st.known && |st.known| >= CAP {
      if v < |st.registry| {
        MakeRoomOrderly(st, cs, c, ans, v);
      }
    } else if !stored || ans.outdated {
      assert c.id in st.known ==> st.known + {c.id} == st.known;
      ProvisionOrderly(st, cs, c, ans);
    }
  }

  lemma FindKnown(st: Import, cs: seq<Connection>, id: string)
    requires Orderly(st, cs) && Assigned(cs, id)
    ensures Find(st.registry, id).Some? ==> id in st.known
  {
    hide Assigned;
    FindIs(st.registry, id);
  }

  lemma NotesAreNoMatter(st: Import, cs: seq<Connection>, notes: map<string, Note>)
    requires Orderly(st, cs)
    ensures Orderly(st.(notes := notes), cs)
  {
  }

  lemma EvictOrderly(st: Import, cs: seq<Connection>, i: nat, a: Authority, running: Option<string>)
    requires Orderly(st, cs) && i < |st.registry| && Id(st.registry[i]) in st.known
    ensures Orderly(Evict(st, i, a, running), cs) && |Evict(st, i, a, running).known| == |st.known| - 1
    ensures Ids(Evict(st, i, a, running).registry) == Ids(st.registry) - {Id(st.registry[i])}
  {
    hide UniqueMeta, AtMostOneActive, Assigned;
    var id := Id(st.registry[i]);
    EvictKeeps(st, i, a, running);
    WithoutHas(st.registry, id);
    var rest, next := Without(st.registry, id), Evict(st, i, a, running).registry;
    forall k | 0 <= k < |next| && Assigned(cs, Id(next[k]))
      ensures Imported(next[k])
    {
      assert rest[k] in rest && next[k].profile == rest[k].profile;
    }
  }

  /**
   With at most four imported profiles to begin with and none added by hand under an assigned identifier,
   every profile that is gone was evicted, and rightly so.
   */
  lemma {:induction false} OnlyEvictedProfilesGo(reg: seq<Meta>, cs: seq<Connection>, answers: seq<Answer>, n: nat)
    requires Orderly(Opening(reg), cs) && n <= |cs| == |answers|
    ensures var st := ImportFirst(Opening(reg), cs, answers, n);
            Orderly(st, cs) && Ids(reg) <= Ids(st.registry) + EvictedIds(st.evicted)
  {
    hide ImportEntry, Orderly, Ids;
    if n > 0 {
      OnlyEvictedProfilesGo(reg, cs, answers, n - 1);
      if !exists k | 0 <= k < n :: answers[k].sessionEnded || Stops(answers[k]) {
        assert !Stops(answers[n - 1]);
        var st := ImportFirst(Opening(reg), cs, answers, n - 1);
        EntryOrderly(st, cs, cs[n - 1], answers[n - 1]);
        assert forall e | e in st.evicted :: e in ImportEntry(st, cs, cs[n - 1], answers[n - 1]).evicted;
      }
    }
  }

  // ----- when the cap is reported

  /** The identifiers of a list of the server are distinct. */
  predicate Distinct(cs: seq<Connection>) { forall i, j | 0 <= i < j < |cs| :: cs[i].id != cs[j].id }

  /** Something is to be provisioned for the entry. */
  predicate Wanted(st: Import, c: Connection, ans: Answer)
    requires ans.authority.Some?
  {
    && c.status == Active && c.hasToken && ProfileRestriction(ans.authority.value, ProfileOf(c)).None?
    && (c.id in Ids(st.registry) ==> !ans.readable)
  }

  /** No place can be freed: the removal fails, or every imported profile is active, running or useful. */
  predicate NothingToFree(reg: seq<Meta>, cs: seq<Connection>, ans: Answer)
    requires ans.authority.Some?
  {
    !ans.removes || forall m | m in reg && Imported(m) ::
      m.active || Some(Id(m)) == ans.running || Usefulness(ans.authority.value, cs, m) == 2
  }

  /** What has been evicted between two points of the loop. */
  function Evicted(st: Import, next: Import): set<string> {
    if |st.evicted| <= |next.evicted| then EvictedIds(next.evicted[|st.evicted|..]) else {}
  }

  lemma EvictedOne(es: seq<Eviction>, e: Eviction)
    ensures EvictedIds((es + [e])[|es|..]) == {Id(e.meta)} && EvictedIds(es[|es|..]) == {}
  {
    assert (es + [e])[|es|..] == [e];
    assert e in [e];
  }

  lemma ProvisionKnown(st: Import, c: Connection, ans: Answer)
    requires Sound(st) && ImportedIds(st.registry) <= st.known
    ensures var next := Provision(st, c, ans);
            && next.known == st.known + ImportedIds(next.registry) && next.evicted == st.evicted
            && ImportedIds(next.registry) <= ImportedIds(st.registry) + {c.id}
  {
    hide UniqueMeta, AtMostOneActive, SaveMeta, ImportedIds;
    if ans.provisioned.Some? {
      SavedImports(st.registry, MetaOf(c, ans.provisioned.value), Decided(ans.provisioned.value.becomes));
    }
  }

  /** What is known changes by what is evicted and by what the registry has come to hold. */
  lemma EntryKnown(st: Import, cs: seq<Connection>, c: Connection, ans: Answer)
    requires ans.authority.Some? && Sound(st) && ImportedIds(st.registry) <= st.known
    ensures var next := ImportEntry(st, cs, c, ans);
            var gone := Evicted(st, next);
            && gone <= ImportedIds(st.registry) && gone !! ImportedIds(next.registry)
            && next.known == st.known - gone + ImportedIds(next.registry)
  {
    hide UniqueMeta, AtMostOneActive, Provision, RemoveMeta, ProfileRestriction, Usefulness, Find, Ids, EvictedIds;
    var a := ans.authority.value;
    var v := Victim(a, cs, st.known, ans.running, st.registry);
    ProvisionKnown(st, c, ans);
    if v < |st.registry| {
      EvictKeeps(st, v, a, ans.running);
      ProvisionKnown(Evict(st, v, a, ans.running), c, ans);
      EvictedOne(st.evicted, Eviction(st.registry[v], a, ans.running));
    } else {
      EvictedOne(st.evicted, Eviction(Held("", false, 0), a, None));
    }
  }

  /** There is an authority, under which the device is not blocked. */
  predicate Allows(ans: Answer) { ans.authority.Some? && !AccessVerdicts.DeviceBlocked(ans.authority.value) }

  lemma AllowsIs(ans: Answer)
    ensures Allows(ans) <==> !Stops(ans)
  {
    if ans.authority.Some? {
      AccessVerdicts.BlockedExactly(ans.authority.value);
    }
  }

  /** The loop gets to entry k. */
  predicate Handled(answers: seq<Answer>, k: nat)
    requires k < |answers|
  {
    forall j | 0 <= j <= k :: !answers[j].sessionEnded && Allows(answers[j])
  }

  lemma HandledStep(st: Import, cs: seq<Connection>, answers: seq<Answer>, k: nat)
    requires k < |cs| == |answers|
    ensures Handled(answers, k) ==> answers[k].authority.Some?
    ensures ImportFirst(st, cs, answers, k + 1)
            == var before := ImportFirst(st, cs, answers, k);
               if Handled(answers, k) then ImportEntry(before, cs, cs[k], answers[k]) else before
  {
    hide Stops, Allows, ImportEntry;
    forall j | 0 <= j <= k
      ensures Allows(answers[j]) <==> !Stops(answers[j])
    {
      AllowsIs(answers[j]);
    }
    assert Handled(answers, k) ==> !Stops(answers[k]);
    NotStopped(answers[k]);
  }

  /** The imported profiles that a save of this import has dropped, and that have not come back. */
  function Dropped(reg: seq<Meta>, cs: seq<Connection>, answers: seq<Answer>, n: nat): set<string>
    requires n <= |cs| == |answers|
  {
    if n == 0 then {}
    else
      var before, after := ImportFirst(Opening(reg), cs, answers, n - 1), ImportFirst(Opening(reg), cs, answers, n);
      Dropped(reg, cs, answers, n - 1)
      + (ImportedIds(before.registry) - Evicted(before, after)) - ImportedIds(after.registry)
  }

  lemma SplitSteps(held: set<string>, held': set<string>, dropped: set<string>, gone: set<string>)
    requires held !! dropped && gone <= held && gone !! held'
    ensures var dropped' := dropped + (held - gone) - held';
            held + dropped - gone + held' == held' + dropped' && held' !! dropped'
  {
  }

  /** What counts against the cap: the imported profiles held, and those that a save has dropped. */
  lemma {:induction false} KnownSplits(reg: seq<Meta>, cs: seq<Connection>, answers: seq<Answer>, n: nat)
    requires UniqueMeta(reg) && AtMostOneActive(reg) && n <= |cs| == |answers|
    ensures var st := ImportFirst(Opening(reg), cs, answers, n); var dropped := Dropped(reg, cs, answers, n);
            st.known == ImportedIds(st.registry) + dropped && ImportedIds(st.registry) !! dropped
  {
    hide UniqueMeta, AtMostOneActive, ImportFirst, ImportEntry, ImportedIds, CountImported, Evicted, Handled;
    if n == 0 {
      OpeningFirst(Opening(reg), cs, answers);
    } else {
      var before, st := ImportFirst(Opening(reg), cs, answers, n - 1), ImportFirst(Opening(reg), cs, answers, n);
      var held, dropped := ImportedIds(before.registry), Dropped(reg, cs, answers, n - 1);
      KnownSplits(reg, cs, answers, n - 1);
      HandledStep(Opening(reg), cs, answers, n - 1);
      if Handled(answers, n - 1) {
        ImportsAreBounded(reg, cs, answers, n - 1);
        EntryKnown(before, cs, cs[n - 1], answers[n - 1]);
      } else {
        NoneEvicted(before);
      }
      SplitSteps(held, ImportedIds(st.registry), dropped, Evicted(before, st));
    }
  }

  lemma KnownAreHeldOrDropped(reg: seq<Meta>, cs: seq<Connection>, answers: seq<Answer>, n: nat)
    requires UniqueMeta(reg) && AtMostOneActive(reg) && n <= |cs| == |answers|
    ensures var st := ImportFirst(Opening(reg), cs, answers, n); var dropped := Dropped(reg, cs, answers, n);
            && st.known == ImportedIds(st.registry) + dropped && ImportedIds(st.registry) !! dropped
            && |st.known| == CountImported(st.registry) + |dropped|
  {
    hide UniqueMeta, AtMostOneActive, ImportFirst, ImportedIds, CountImported, Dropped;
    KnownSplits(reg, cs, answers, n);
    ImportsAreBounded(reg, cs, answers, n);
    CountIsCardinality(ImportFirst(Opening(reg), cs, answers, n).registry);
  }

  lemma OpeningFirst(st: Import, cs: seq<Connection>, answers: seq<Answer>)
    requires |cs| == |answers|
    ensures ImportFirst(st, cs, answers, 0) == st
  {
  }

  lemma NoneEvicted(st: Import)
    ensures Evicted(st, st) == {}
  {
  }

  /** One entry notes the cap exactly when it needs a place, four are taken and none can be freed. */
  lemma EntryReportsExactly(st: Import, cs: seq<Connection>, c: Connection, ans: Answer)
    requires ans.authority.Some? && ImportedIds(st.registry) <= st.known && c.id !in st.notes
    ensures var next := ImportEntry(st, cs, c, ans);
            (c.id in next.notes && next.notes[c.id] == CapReached) <==>
              Wanted(st, c, ans) && c.id !in st.known && |st.known| >= CAP && NothingToFree(st.registry, cs, ans)
  {
    hide ProfileRestriction, RemoveMeta, SaveMeta;
    FindIs(st.registry, c.id);
    assert forall m | m in st.registry && Imported(m) :: Id(m) in st.known;
    assert forall m | m in st.registry :: Usefulness(ans.authority.value, cs, m) <= 2;
  }

  lemma EntryNotes(st: Import, cs: seq<Connection>, c: Connection, ans: Answer, id: string)
    requires ans.authority.Some?
    ensures var next := ImportEntry(st, cs, c, ans);
            (id in next.notes ==> id in st.notes || id == c.id)
            && (id != c.id && id in st.notes ==> id in next.notes && next.notes[id] == st.notes[id])
  {
    hide ProfileRestriction, RemoveMeta, SaveMeta, Victim, Find;
  }

  lemma {:induction false} NotesAreOfEntries(st: Import, cs: seq<Connection>, answers: seq<Answer>, n: nat, id: string)
    requires n <= |cs| == |answers| && st.notes == map[] && id in ImportFirst(st, cs, answers, n).notes
    ensures exists k | 0 <= k < n :: cs[k].id == id
  {
    hide ImportFirst, ImportEntry, Handled;
    OpeningFirst(st, cs, answers);
    if n > 0 {
      HandledStep(st, cs, answers, n - 1);
      if Handled(answers, n - 1) {
        EntryNotes(ImportFirst(st, cs, answers, n - 1), cs, cs[n - 1], answers[n - 1], id);
      }
      if cs[n - 1].id != id {
        NotesAreOfEntries(st, cs, answers, n - 1, id);
      }
    }
  }

  /**
   Entry k finds no place: something is to be provisioned for a profile that is not imported, four others
   are held or were dropped by a save of this import, and none of those held can be freed.
   */
  predicate NoPlaceAt(reg: seq<Meta>, cs: seq<Connection>, answers: seq<Answer>, k: nat)
    requires k < |cs| == |answers|
  {
    Handled(answers, k) && answers[k].authority.Some? &&
    var st := ImportFirst(Opening(reg), cs, answers, k);
    var dropped := Dropped(reg, cs, answers, k);
    && Wanted(st, cs[k], answers[k]) && cs[k].id !in ImportedIds(st.registry) + dropped
    && CountImported(st.registry) + |dropped| >= CAP && NothingToFree(st.registry, cs, answers[k])
  }

  /** Whatever the registry held at the start, the cap is reported for exactly the profiles that find no place. */
  lemma {:induction false} CapIsReportedExactly(reg: seq<Meta>, cs: seq<Connection>, answers: seq<Answer>, n: nat, id: string)
    requires UniqueMeta(reg) && AtMostOneActive(reg) && Distinct(cs) && n <= |cs| == |answers|
    ensures var notes := ImportFirst(Opening(reg), cs, answers, n).notes;
            (id in notes && notes[id] == CapReached) <==> exists k | 0 <= k < n :: cs[k].id == id && NoPlaceAt(reg, cs, answers, k)
  {
    hide UniqueMeta, AtMostOneActive, ImportFirst, ImportEntry, Handled, NoPlaceAt;
    OpeningFirst(Opening(reg), cs, answers);
    if n > 0 {
      var k := n - 1;
      CapIsReportedExactly(reg, cs, answers, k, id);
      HandledStep(Opening(reg), cs, answers, k);
      if cs[k].id == id {
        if id in ImportFirst(Opening(reg), cs, answers, k).notes {
          NotesAreOfEntries(Opening(reg), cs, answers, k, id);
        }
        LastReports(reg, cs, answers, k);
      } else if Handled(answers, k) {
        EntryNotes(ImportFirst(Opening(reg), cs, answers, k), cs, cs[k], answers[k], id);
      }
    }
  }

  lemma LastReports(reg: seq<Meta>, cs: seq<Connection>, answers: seq<Answer>, k: nat)
    requires UniqueMeta(reg) && AtMostOneActive(reg) && k < |cs| == |answers|
    requires cs[k].id !in ImportFirst(Opening(reg), cs, answers, k).notes
    ensures var notes := ImportFirst(Opening(reg), cs, answers, k + 1).notes;
            (cs[k].id in notes && notes[cs[k].id] == CapReached) <==> NoPlaceAt(reg, cs, answers, k)
  {
    hide UniqueMeta, AtMostOneActive, ImportFirst, ImportEntry, Handled, Wanted, NothingToFree, ImportedIds, CountImported, Dropped;
    HandledStep(Opening(reg), cs, answers, k);
    KnownAreHeldOrDropped(reg, cs, answers, k);
    if Handled(answers, k) {
      EntryReportsExactly(ImportFirst(Opening(reg), cs, answers, k), cs, cs[k], answers[k]);
    }
  }

  /** From at most four imported profiles, none added by hand under an assigned identifier, it is four that are held. */
  lemma CapFromFourExactly(reg: seq<Meta>, cs: seq<Connection>, answers: seq<Answer>, k: nat)
    requires Orderly(Opening(reg), cs) && k < |cs| == |answers|
    ensures NoPlaceAt(reg, cs, answers, k) <==>
              Handled(answers, k) && answers[k].authority.Some? &&
              var st := ImportFirst(Opening(reg), cs, answers, k);
              Wanted(st, cs[k], answers[k]) && cs[k].id !in Ids(st.registry)
              && CountImported(st.registry) == CAP && NothingToFree(st.registry, cs, answers[k])
  {
    hide UniqueMeta, AtMostOneActive, ImportFirst, Handled, Wanted, NothingToFree, CountImported, Dropped, Assigned;
    var st := ImportFirst(Opening(reg), cs, answers, k);
    OnlyEvictedProfilesGo(reg, cs, answers, k);
    KnownAreHeldOrDropped(reg, cs, answers, k);
    assert Assigned(cs, cs[k].id) by { AssignedAt(cs, k); }
    FindKnown(st, cs, cs[k].id);
    FindIs(st.registry, cs[k].id);
    assert Dropped(reg, cs, answers, k) == {};
  }

  lemma AssignedAt(cs: seq<Connection>, k: nat)
    requires k < |cs|
    ensures Assigned(cs, cs[k].id)
  {
  }

  // ----- which entries end with the provisioned profile stored

  /** The connection that a stored profile belongs to is listed and usable; without one it is useless, else in between. */
  lemma UsefulExactly(a: Authority, cs: seq<Connection>, m: Meta)
    requires Distinct(cs)
    ensures var owner := if m.profile.subscriptionId.Some? then m.profile.subscriptionId.value else m.profile.configId;
            && (Usefulness(a, cs, m) == 0 <==> forall c | c in cs :: c.id != owner)
            && (Usefulness(a, cs, m) == 2 <==>
                  ProfileRestriction(a, m.profile) == None && exists c :: c in cs && c.id == owner && c.status == Active)
            && Usefulness(a, cs, m) <= 2
  {
    hide ProfileRestriction;
    ConnectionFound(cs, OwnerId(m.profile));
  }

  lemma {:induction false} ConnectionFound(cs: seq<Connection>, id: string)
    requires Distinct(cs)
    ensures FindConnection(cs, id) == None <==> forall c | c in cs :: c.id != id
    ensures FindConnection(cs, id).Some? ==> FindConnection(cs, id).value in cs && FindConnection(cs, id).value.id == id
    ensures forall c | c in cs && c.id == id :: FindConnection(cs, id) == Some(c)
  {
    if cs != [] {
      ConnectionFound(cs[1..], id);
      assert cs == [cs[0]] + cs[1..];
    }
  }

  /** An entry is restricted exactly if there is a restriction of its identifier. */
  lemma EntryRestrictedExactly(a: Authority, c: Connection)
    requires AccessPolicyRuns.Inv(a)
    ensures ProfileRestriction(a, ProfileOf(c)).Some? <==> c.id != "" && exists r :: r in a.restrictions && r.id == c.id
  {
    hide AccessPolicyRuns.Inv, ProfileRestriction;
    AccessVerdicts.RestrictedExactly(a, ProfileOf(c));
    forall r | r in a.restrictions
      ensures AccessVerdicts.Strikes(r, ProfileOf(c)) <==> c.id != "" && r.id == c.id
    {
    }
  }

  /** The profile of the entry is to be fetched: it may be used, and what is stored is absent, unreadable or outdated. */
  predicate Fetches(st: Import, c: Connection, ans: Answer)
    requires ans.authority.Some?
  {
    && c.status == Active && c.hasToken && ProfileRestriction(ans.authority.value, ProfileOf(c)) == None
    && (c.id in Ids(st.registry) && ans.readable ==> ans.outdated)
  }

  /** The profile could be used, but is not stored and there is nothing to fetch it with. */
  predicate LacksToken(st: Import, c: Connection, ans: Answer)
    requires ans.authority.Some?
  {
    && c.status == Active && !c.hasToken && ProfileRestriction(ans.authority.value, ProfileOf(c)) == None
    && !(c.id in Ids(st.registry) && ans.readable)
  }

  /** It is stored or was imported already, or a place is free or can be freed. */
  predicate HasPlace(st: Import, cs: seq<Connection>, c: Connection, ans: Answer)
    requires ans.authority.Some?
  {
    || (c.id in Ids(st.registry) && ans.readable) || c.id in st.known || |st.known| < CAP
    || !NothingToFree(st.registry, cs, ans)
  }

  /** What was provisioned is stored under the identifier of the connection. */
  predicate Stores(reg: seq<Meta>, c: Connection, p: Provisioned) {
    exists m :: m in reg && m.profile == Profile(c.id, p.subscriptionId, p.configHash, Some(Backend), p.name) && m.savedAt == p.savedAt
  }

  /** Every profile there was there before, perhaps not active. */
  predicate NothingNew(before: seq<Meta>, after: seq<Meta>) {
    forall m | m in after :: exists was :: was in before && Stayed(was, m)
  }

  lemma EntryFetches(st: Import, cs: seq<Connection>, c: Connection, ans: Answer)
    requires ans.authority.Some? && Sound(st) && ImportedIds(st.registry) <= st.known
    ensures var next := ImportEntry(st, cs, c, ans);
            if Fetches(st, c, ans) && HasPlace(st, cs, c, ans) then
              match ans.provisioned
              case Some(p) => Stores(next.registry, c, p) && c.id in next.known && next.notes == st.notes
              case None => NothingNew(st.registry, next.registry) && next.notes == st.notes[c.id := Failed]
            else NothingNew(st.registry, next.registry)
  {
    hide UniqueMeta, AtMostOneActive, ProfileRestriction, Usefulness, Stores, NothingNew, Find, Evict, Provision;
    var a := ans.authority.value;
    var v := Victim(a, cs, st.known, ans.running, st.registry);
    FindIs(st.registry, c.id);
    NothingIsNew(st.registry);
    ProvisionStores(st, c, ans);
    PlacesExactly(st, cs, ans);
    if v < |st.registry| {
      EvictKeeps(st, v, a, ans.running);
      EvictionIsNotNew(st, v, a, ans.running);
      ProvisionStores(Evict(st, v, a, ans.running), c, ans);
    }
  }

  /** What an entry notes: the failure of a fetch, the lack of a place or of a token, and else nothing. */
  lemma EntryNotesExactly(st: Import, cs: seq<Connection>, c: Connection, ans: Answer)
    requires ans.authority.Some? && ImportedIds(st.registry) <= st.known
    ensures ImportEntry(st, cs, c, ans).notes
            == if Fetches(st, c, ans) && HasPlace(st, cs, c, ans) then
                 (if ans.provisioned.Some? then st.notes else st.notes[c.id := Failed])
               else if Fetches(st, c, ans) then st.notes[c.id := CapReached]
               else if LacksToken(st, c, ans) then st.notes[c.id := TokenMissing]
               else st.notes
  {
    hide ProfileRestriction, Usefulness, NothingToFree, Find, RemoveMeta, SaveMeta, ImportedIds, Victim;
    FindIs(st.registry, c.id);
    PlacesExactly(st, cs, ans);
  }

  lemma NothingIsNew(reg: seq<Meta>)
    ensures NothingNew(reg, reg)
  {
    forall m | m in reg
      ensures exists was :: was in reg && Stayed(was, m)
    {
      assert Stayed(m, m);
    }
  }

  lemma EvictionIsNotNew(st: Import, i: nat, a: Authority, running: Option<string>)
    requires Sound(st) && i < |st.registry|
    ensures var e := Evict(st, i, a, running); NothingNew(st.registry, e.registry) && e.notes == st.notes
  {
    hide UniqueMeta, AtMostOneActive;
    RemovalDecides(st.registry, Id(st.registry[i]), i);
    var rest, next := st.registry[..i] + st.registry[i + 1..], Evict(st, i, a, running).registry;
    forall k | 0 <= k < |next|
      ensures exists was :: was in st.registry && Stayed(was, next[k])
    {
      assert rest[k] in st.registry && Stayed(rest[k], next[k]);
    }
  }

  lemma ProvisionStores(st: Import, c: Connection, ans: Answer)
    requires Sound(st)
    ensures var next := Provision(st, c, ans);
            match ans.provisioned
            case Some(p) => Stores(next.registry, c, p) && c.id in next.known && next.notes == st.notes
            case None => next.registry == st.registry && next.notes == st.notes[c.id := Failed]
  {
    hide UniqueMeta, AtMostOneActive, SaveMeta, Entered;
    if ans.provisioned.Some? {
      SaveDecides(st.registry, MetaOf(c, ans.provisioned.value), Decided(ans.provisioned.value.becomes));
    }
  }

  /** A place can be freed exactly if the removal succeeds and some imported profile is neither active, running nor useful. */
  lemma PlacesExactly(st: Import, cs: seq<Connection>, ans: Answer)
    requires ans.authority.Some? && ImportedIds(st.registry) <= st.known
    ensures NothingToFree(st.registry, cs, ans) <==>
              !ans.removes || Victim(ans.authority.value, cs, st.known, ans.running, st.registry) == |st.registry|
  {
    hide ProfileRestriction;
    assert forall m | m in st.registry && Imported(m) :: Id(m) in st.known;
    assert forall m | m in st.registry :: Usefulness(ans.authority.value, cs, m) <= 2;
  }

  /**
   In a whole import, from any number of imported profiles: entry k ends with the provisioned profile stored
   exactly if the loop got to it, the profile is to be fetched, it has a place and provisioning succeeded;
   else no profile is there that was not before, nor with other contents.
   */
  lemma EntryStoresExactly(reg: seq<Meta>, cs: seq<Connection>, answers: seq<Answer>, k: nat)
    requires UniqueMeta(reg) && AtMostOneActive(reg) && k < |cs| == |answers|
    ensures var st, next := ImportFirst(Opening(reg), cs, answers, k), ImportFirst(Opening(reg), cs, answers, k + 1);
            if Handled(answers, k) && answers[k].authority.Some? && Fetches(st, cs[k], answers[k])
               && HasPlace(st, cs, cs[k], answers[k]) && answers[k].provisioned.Some?
            then Stores(next.registry, cs[k], answers[k].provisioned.value)
            else NothingNew(st.registry, next.registry)
  {
    hide UniqueMeta, AtMostOneActive, ImportFirst, ImportEntry, Handled, Fetches, HasPlace, Stores, NothingNew;
    var st := ImportFirst(Opening(reg), cs, answers, k);
    HandledStep(Opening(reg), cs, answers, k);
    ImportsAreBounded(reg, cs, answers, k);
    KnownAreHeldOrDropped(reg, cs, answers, k);
    NothingIsNew(st.registry);
    if Handled(answers, k) {
      EntryFetches(st, cs, cs[k], answers[k]);
    }
  }

  // ----- the cap reported while three are held

  const FIVE_HELD := [Held("a", true, 0), Held("b", false, 1), Held("c", false, 2), Held("d", false, 3), Held("e", false, 4)]
  const AFTER_SAVE := [Held("c", false, 2), Held("d", false, 3), Held("e", false, 4), Held("a", true, 5)]
  const THREE_HELD := [Held("d", false, 3), Held("e", false, 4), Held("a", true, 5)]
  const NEW_ONES := [Connection("d", Active, true, None), Connection("e", Active, true, None), Connection("a", Active, true, None),
                     Connection("f", Active, true, None), Connection("g", Active, true, None)]
  const UP_TO_DATE := Answer(false, Some(NO_RESTRICTION), None, true, false, true, None)
  const RENEWED := UP_TO_DATE.(outdated := true, provisioned := Some(Provisioned(None, None, "", 5, false)))
  const FIVE_ANSWERS := [UP_TO_DATE, UP_TO_DATE, RENEWED, UP_TO_DATE, UP_TO_DATE]

  lemma FiveAreSound()
    ensures UniqueMeta(FIVE_HELD) && AtMostOneActive(FIVE_HELD)
  {
    assert Id(FIVE_HELD[0]) == "a" && Id(FIVE_HELD[1]) == "b" && Id(FIVE_HELD[2]) == "c" && Id(FIVE_HELD[3]) == "d" && Id(FIVE_HELD[4]) == "e";
  }

  lemma NewOnesDiffer()
    ensures Distinct(NEW_ONES)
  {
  }

  lemma ImportedFirst(m: Meta, rest: seq<Meta>)
    requires Imported(m)
    ensures ImportedIds([m] + rest) == {Id(m)} + ImportedIds(rest)
  {
    forall id | id in {Id(m)} + ImportedIds(rest)
      ensures id in ImportedIds([m] + rest)
    {
      if id == Id(m) {
        assert m in [m] + rest;
      }
    }
  }

  lemma FiveImported()
    ensures ImportedIds(FIVE_HELD) == {"a", "b", "c", "d", "e"}
  {
    hide ImportedIds;
    assert [FIVE_HELD[4]] == [FIVE_HELD[4]] + [];
    ImportedFirst(FIVE_HELD[4], []);
    ImportedFirst(FIVE_HELD[3], [FIVE_HELD[4]]);
    ImportedFirst(FIVE_HELD[2], [FIVE_HELD[3]] + [FIVE_HELD[4]]);
    ImportedFirst(FIVE_HELD[1], [FIVE_HELD[2]] + ([FIVE_HELD[3]] + [FIVE_HELD[4]]));
    ImportedFirst(FIVE_HELD[0], [FIVE_HELD[1]] + ([FIVE_HELD[2]] + ([FIVE_HELD[3]] + [FIVE_HELD[4]])));
    NoneImported();
    FiveInARow();
  }

  lemma FiveInARow()
    ensures FIVE_HELD == [FIVE_HELD[0]] + ([FIVE_HELD[1]] + ([FIVE_HELD[2]] + ([FIVE_HELD[3]] + [FIVE_HELD[4]])))
  {
    hide Held;
  }

  lemma NoneImported()
    ensures ImportedIds([]) == {}
  {
  }

  lemma AllHandled()
    ensures forall k | 0 <= k < 5 :: Handled(FIVE_ANSWERS, k)
  {
    hide BlocksDevice;
    assert !BlocksDevice(DeviceAccess(NO_RESTRICTION)) by { DeviceOpen(); }
  }

  lemma DeviceOpen()
    ensures !BlocksDevice(DeviceAccess(NO_RESTRICTION))
  {
  }

  lemma Unrestrained(c: Connection)
    ensures ProfileRestriction(NO_RESTRICTION, ProfileOf(c)) == None
  {
    Unrestricted(ProfileOf(c));
  }

  lemma UpToDateStays(st: Import, c: Connection)
    requires c.status == Active && c.hasToken && c.id in Ids(st.registry)
    ensures ImportEntry(st, NEW_ONES, c, UP_TO_DATE) == st
  {
    hide ProfileRestriction, Provision;
    Unrestrained(c);
    FindIs(st.registry, c.id);
  }

  lemma FirstOfFiveGoes()
    ensures Prune(FIVE_HELD[1..] + [Held("a", true, 5)], "a") == AFTER_SAVE
  {
    hide CountImported, Prunable;
    var entered := FIVE_HELD[1..] + [Held("a", true, 5)];
    assert Prunable(entered[0], "a") by { EntersPrunable(); }
    CountFive(entered);
    assert entered[0].savedAt < 5 && OldestAt(entered, "a", Oldest(entered, "a"));
    assert Oldest(entered, "a") == 0;
    assert CutAt(entered, 0) == AFTER_SAVE;
    AllCount(AFTER_SAVE);
  }

  lemma EntersPrunable()
    ensures Prunable(Held("b", false, 1), "a")
  {
  }

  lemma RenewedEnters()
    ensures Entered(FIVE_HELD, Held("a", false, 5), Decided(false)) == FIVE_HELD[1..] + [Held("a", true, 5)]
  {
    assert Without(FIVE_HELD, "a") == FIVE_HELD[1..] by { WithoutAbsent(FIVE_HELD[1..], "a"); }
    QuietIs(FIVE_HELD[1..]);
  }

  lemma RenewalDropsOne(st: Import)
    requires st.registry == FIVE_HELD && "a" in st.known
    ensures ImportEntry(st, NEW_ONES, NEW_ONES[2], RENEWED) == st.(registry := AFTER_SAVE)
  {
    hide ProfileRestriction, Entered, Prune;
    Unrestrained(NEW_ONES[2]);
    RenewedEnters();
    FirstOfFiveGoes();
    assert FIVE_HELD[0] in FIVE_HELD;
    FindIs(FIVE_HELD, "a");
    assert st.known + {"a"} == st.known;
  }

  lemma Usefuls(m: Meta)
    requires m == Held("d", false, 3) || m == Held("e", false, 4) || m == Held("c", false, 2)
    ensures Usefulness(NO_RESTRICTION, NEW_ONES, m) == if m == Held("c", false, 2) then 0 else 2
  {
    hide ProfileRestriction;
    Unrestricted(m.profile);
    assert NEW_ONES[1..][0] == NEW_ONES[1] && NEW_ONES[1..][1..][0] == NEW_ONES[2];
    assert NEW_ONES[1..][1..][1..][0] == NEW_ONES[3] && NEW_ONES[1..][1..][1..][1..][0] == NEW_ONES[4];
  }

  /** An entry that gets a place and is then not provisioned leaves the place free. */
  lemma FailureFreesAPlace(st: Import, cs: seq<Connection>, c: Connection, ans: Answer)
    requires ans.authority.Some? && Wanted(st, c, ans) && c.id !in st.known && |st.known| >= CAP && ans.removes && ans.provisioned.None?
    requires Victim(ans.authority.value, cs, st.known, ans.running, st.registry) < |st.registry|
    ensures var v := Victim(ans.authority.value, cs, st.known, ans.running, st.registry);
            var e := Evict(st, v, ans.authority.value, ans.running);
            ImportEntry(st, cs, c, ans) == e.(notes := e.notes[c.id := Failed])
  {
    hide ProfileRestriction, Victim, Evict;
    FindIs(st.registry, c.id);
  }

  lemma FailureFreesOne(st: Import)
    requires st.registry == AFTER_SAVE && st.known == {"a", "b", "c", "d", "e"}
    ensures ImportEntry(st, NEW_ONES, NEW_ONES[3], UP_TO_DATE)
            == Import(THREE_HELD, {"a", "b", "d", "e"}, st.notes["f" := Failed], st.evicted + [Eviction(Held("c", false, 2), NO_RESTRICTION, None)])
  {
    hide ImportEntry, Victim, RemoveMeta, Wanted;
    NewcomersWanted(st);
    FirstIsVictim();
    FiveAreFull(st.known);
    FailureFreesAPlace(st, NEW_ONES, NEW_ONES[3], UP_TO_DATE);
    ThirdRemoved();
    assert st.known - {"c"} == {"a", "b", "d", "e"};
  }

  lemma NewcomersWanted(st: Import)
    ensures st.registry == AFTER_SAVE ==> Wanted(st, NEW_ONES[3], UP_TO_DATE)
    ensures st.registry == THREE_HELD ==> Wanted(st, NEW_ONES[4], UP_TO_DATE)
  {
    hide ProfileRestriction;
    Unrestrained(NEW_ONES[3]);
    Unrestrained(NEW_ONES[4]);
  }

  lemma FiveAreFull(ids: set<string>)
    requires {"a", "b", "d", "e"} <= ids
    ensures |ids| >= CAP
  {
    SubsetIsSmaller({"a", "b", "d", "e"}, ids);
  }

  lemma FirstIsVictim()
    ensures Victim(NO_RESTRICTION, NEW_ONES, {"a", "b", "c", "d", "e"}, None, AFTER_SAVE) == 0
  {
    hide Usefulness;
    Usefuls(AFTER_SAVE[0]); Usefuls(AFTER_SAVE[1]); Usefuls(AFTER_SAVE[2]);
    assert Evictable(NO_RESTRICTION, NEW_ONES, {"a", "b", "c", "d", "e"}, None, AFTER_SAVE[0]);
  }

  lemma ThirdRemoved()
    ensures RemoveMeta(AFTER_SAVE, "c") == THREE_HELD
  {
    hide Without;
    CutThird();
    assert THREE_HELD[2].active && SomeActive(THREE_HELD);
  }

  lemma CutThird()
    ensures Without(AFTER_SAVE, "c") == THREE_HELD
  {
    WithoutAbsent(THREE_HELD, "c");
    assert AFTER_SAVE[1..] == THREE_HELD;
    assert Id(AFTER_SAVE[0]) == "c";
  }

  lemma CapAtThree(st: Import)
    requires st.registry == THREE_HELD && st.known == {"a", "b", "d", "e"} && "g" !in st.notes
    ensures var next := ImportEntry(st, NEW_ONES, NEW_ONES[4], UP_TO_DATE);
            "g" in next.notes && next.notes["g"] == CapReached && next.registry == THREE_HELD
  {
    hide Victim, Wanted, NothingToFree;
    NewcomersWanted(st);
    FiveAreFull(st.known);
    NoneToFree();
    NoVictim(st, NEW_ONES, NEW_ONES[4], UP_TO_DATE);
  }

  lemma NoVictim(st: Import, cs: seq<Connection>, c: Connection, ans: Answer)
    requires ans.authority.Some? && Wanted(st, c, ans) && c.id !in st.known && |st.known| >= CAP && NothingToFree(st.registry, cs, ans)
    ensures ImportEntry(st, cs, c, ans) == st.(notes := st.notes[c.id := CapReached])
  {
    hide ProfileRestriction, Usefulness;
    FindIs(st.registry, c.id);
  }

  lemma NoneToFree()
    ensures NothingToFree(THREE_HELD, NEW_ONES, UP_TO_DATE)
  {
    hide Usefulness;
    Usefuls(THREE_HELD[0]);
    Usefuls(THREE_HELD[1]);
  }

  /**
   Five imported profiles are held and one of them is renewed: the save drops another. A third is evicted
   for a profile that cannot be provisioned. The next one meets the cap, with three held.
   */
  lemma CapMayBeReportedAtThree()
    ensures var st := ImportFirst(Opening(FIVE_HELD), NEW_ONES, FIVE_ANSWERS, 5);
            && UniqueMeta(FIVE_HELD) && AtMostOneActive(FIVE_HELD) && Distinct(NEW_ONES)
            && "g" in st.notes && st.notes["g"] == CapReached && CountImported(st.registry) == 3
  {
    hide ImportFirst, ImportEntry, Handled, UniqueMeta, AtMostOneActive, CountImported, Held, ImportedIds, Distinct;
    var start := Opening(FIVE_HELD);
    FiveAreSound();
    FiveImported();
    NewOnesDiffer();
    FiveHas();
    OpeningFirst(start, NEW_ONES, FIVE_ANSWERS);
    AllHandled();
    HandledStep(start, NEW_ONES, FIVE_ANSWERS, 0);
    UpToDateStays(start, NEW_ONES[0]);
    HandledStep(start, NEW_ONES, FIVE_ANSWERS, 1);
    UpToDateStays(start, NEW_ONES[1]);
    HandledStep(start, NEW_ONES, FIVE_ANSWERS, 2);
    RenewalDropsOne(start);
    HandledStep(start, NEW_ONES, FIVE_ANSWERS, 3);
    FailureFreesOne(start.(registry := AFTER_SAVE));
    HandledStep(start, NEW_ONES, FIVE_ANSWERS, 4);
    CapAtThree(ImportFirst(start, NEW_ONES, FIVE_ANSWERS, 4));
    ThreeCounted();
  }

  lemma FiveHas()
    ensures "d" in Ids(FIVE_HELD) && "e" in Ids(FIVE_HELD)
  {
    assert Id(FIVE_HELD[3]) == "d" && Id(FIVE_HELD[4]) == "e";
  }

  lemma ThreeCounted()
    ensures CountImported(THREE_HELD) == 3
  {
    AllCount(THREE_HELD);
  }
}
