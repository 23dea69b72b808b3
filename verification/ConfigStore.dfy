/**
 The registry of stored profiles (app-mobile/services/configStore.ts): saving, removing and renaming
 entries, and the pruning of imported ones. Payloads and dates are not here: a profile carries its time
 of saving as a number.
 */
module ConfigStore {
  import opened Wrappers
  import opened AccessPolicy

  const CAP: nat := 4

  datatype Meta = Meta(profile: Profile, active: bool, savedAt: nat, status: Option<ProfileStatus>)

  function Id(m: Meta): string { m.profile.configId }

  predicate Imported(m: Meta) { m.profile.source == Some(Backend) }

  predicate UniqueMeta(reg: seq<Meta>) { forall i, j | 0 <= i < j < |reg| :: Id(reg[i]) != Id(reg[j]) }

  predicate AtMostOneActive(reg: seq<Meta>) { forall i, j | 0 <= i < j < |reg| :: !(reg[i].active && reg[j].active) }

  function Find(reg: seq<Meta>, id: string): Option<Meta> {
    if reg == [] then None else if Id(reg[0]) == id then Some(reg[0]) else Find(reg[1..], id)
  }

  function Without(reg: seq<Meta>, id: string): seq<Meta> {
    if reg == [] then [] else (if Id(reg[0]) == id then [] else [reg[0]]) + Without(reg[1..], id)
  }

  function CountImported(reg: seq<Meta>): nat {
    if reg == [] then 0 else (if Imported(reg[0]) then 1 else 0) + CountImported(reg[1..])
  }

  function ImportedIds(reg: seq<Meta>): set<string> { set m | m in reg && Imported(m) :: Id(m) }

  function Ids(reg: seq<Meta>): set<string> { set m | m in reg :: Id(m) }

  // ----- remove, updateMetadata

  predicate SomeActive(reg: seq<Meta>) { exists i | 0 <= i < |reg| :: reg[i].active }

  /** When nothing is active any more, the first profile choice active. */
  function WakeFirst(reg: seq<Meta>): seq<Meta> {
    if reg != [] && !SomeActive(reg) then [reg[0].(active := true)] + reg[1..] else reg
  }

  function RemoveMeta(reg: seq<Meta>, id: string): seq<Meta> { WakeFirst(Without(reg, id)) }

  function Renamed(m: Meta, name: Option<string>, status: ProfileStatus): Meta {
    m.(status := Some(status), profile := if name.Some? then m.profile.(name := name.value) else m.profile)
  }

  function UpdateMeta(reg: seq<Meta>, id: string, name: Option<string>, status: ProfileStatus): seq<Meta> {
    if reg == [] then []
    else [if Id(reg[0]) == id then Renamed(reg[0], name, status) else reg[0]] + UpdateMeta(reg[1..], id, name, status)
  }

  // ----- save

  /** What pruning may take: an imported profile that is neither active nor the one being saved. */
  predicate Prunable(m: Meta, keep: string) { Imported(m) && !m.active && Id(m) != keep }

  predicate OldestAt(reg: seq<Meta>, keep: string, i: nat) {
    && i < |reg| && Prunable(reg[i], keep)
    && (forall k | 0 <= k < |reg| && Prunable(reg[k], keep) :: reg[i].savedAt <= reg[k].savedAt)
    && (forall k | 0 <= k < i && Prunable(reg[k], keep) :: reg[i].savedAt < reg[k].savedAt)
  }

  function Oldest(reg: seq<Meta>, keep: string): (i: nat)
    ensures i <= |reg|
    ensures i == |reg| ==> forall k | 0 <= k < |reg| :: !Prunable(reg[k], keep)
    ensures i < |reg| ==> OldestAt(reg, keep, i)
  {
    if reg == [] then 0
    else
      var n := |reg| - 1;
      var k := Oldest(reg[..n], keep);
      assert forall j | 0 <= j < n :: reg[..n][j] == reg[j];
      if k < n then (if Prunable(reg[n], keep) && reg[n].savedAt < reg[k].savedAt then n else k)
      else if Prunable(reg[n], keep) then n else |reg|
  }

  function CutAt(reg: seq<Meta>, i: nat): seq<Meta>
    requires i < |reg|
  {
    reg[..i] + reg[i + 1..]
  }

  function Prune(reg: seq<Meta>, keep: string): seq<Meta>
    decreases |reg|
  {
    if CountImported(reg) <= CAP then reg
    else
      var i := Oldest(reg, keep);
      if i == |reg| then reg else Prune(CutAt(reg, i), keep)
  }

  function Quiet(reg: seq<Meta>): seq<Meta> {
    if reg == [] then [] else [reg[0].(active := false)] + Quiet(reg[1..])
  }

  /** Whether a saved profile is active: the caller says, or reprendLeProfilActif does unless it was active before. */
  datatype Choice = Chosen(active: bool) | Decided(becomes: bool)

  predicate BecomesActive(reg: seq<Meta>, id: string, choice: Choice) {
    match choice
    case Chosen(active) => active
    case Decided(becomes) => becomes || (Find(reg, id).Some? && Find(reg, id).value.active)
  }

  /** The profile as it is entered, before pruning. */
  function Entered(reg: seq<Meta>, entry: Meta, choice: Choice): seq<Meta> {
    var others := Without(reg, Id(entry));
    if BecomesActive(reg, Id(entry), choice) then Quiet(others) + [entry.(active := true)]
    else others + [entry.(active := false)]
  }

  function SaveMeta(reg: seq<Meta>, entry: Meta, choice: Choice): seq<Meta> {
    Prune(Entered(reg, entry, choice), Id(entry))
  }

  class Store {
    var registry: seq<Meta>

    constructor (entries: seq<Meta>)
      ensures registry == entries
    {
      registry := entries;
    }

    method Remove(id: string)
      modifies this
      ensures registry == RemoveMeta(old(registry), id)
    {
      var remaining := Without(registry, id);
      if |remaining| > 0 && !SomeActive(remaining) {
        remaining := remaining[0 := remaining[0].(active := true)];
        assert remaining == RemoveMeta(registry, id);
      }
      registry := remaining;
    }

    method UpdateMetadata(id: string, name: Option<string>, status: ProfileStatus)
      modifies this
      ensures registry == UpdateMeta(old(registry), id, name, status)
    {
      registry := UpdateMeta(registry, id, name, status);
    }

    method Save(entry: Meta, choice: Choice)
      modifies this
      ensures registry == SaveMeta(old(registry), entry, choice)
    {
      var working := Entered(registry, entry, choice);
      while CountImported(working) > CAP
        invariant Prune(working, Id(entry)) == SaveMeta(registry, entry, choice)
        decreases |working|
      {
        var candidate := Oldest(working, Id(entry));
        if candidate == |working| {
          break;
        }
        working := CutAt(working, candidate);
      }
      registry := working;
    }
  }

  // ----- what the operations keep

  lemma {:induction false} WithoutHas(reg: seq<Meta>, id: string)
    ensures forall m :: m in Without(reg, id) <==> m in reg && Id(m) != id
  {
    if reg != [] {
      WithoutHas(reg[1..], id);
      assert reg == [reg[0]] + reg[1..];
    }
  }

  lemma {:induction false} WithoutIs(reg: seq<Meta>, id: string)
    requires UniqueMeta(reg) && AtMostOneActive(reg)
    ensures UniqueMeta(Without(reg, id)) && AtMostOneActive(Without(reg, id))
  {
    if reg != [] {
      var tail := Without(reg[1..], id);
      WithoutIs(reg[1..], id);
      WithoutHas(reg[1..], id);
      forall k | 0 <= k < |tail|
        ensures Id(tail[k]) != Id(reg[0]) && !(tail[k].active && reg[0].active)
      {
        assert tail[k] in reg[1..];
        var j :| 0 <= j < |reg[1..]| && reg[1..][j] == tail[k];
        assert reg[j + 1] == tail[k];
      }
    }
  }

  lemma {:induction false} FindIs(reg: seq<Meta>, id: string)
    ensures var f := Find(reg, id); if f.Some? then f.value in reg && Id(f.value) == id else id !in Ids(reg)
    ensures UniqueMeta(reg) ==> forall m | m in reg && Id(m) == id :: Find(reg, id) == Some(m)
  {
    if reg != [] {
      FindIs(reg[1..], id);
      assert reg == [reg[0]] + reg[1..];
    }
  }

  lemma {:induction false} CountIsCardinality(reg: seq<Meta>)
    requires UniqueMeta(reg)
    ensures CountImported(reg) == |ImportedIds(reg)|
  {
    if reg != [] {
      CountIsCardinality(reg[1..]);
      assert reg == [reg[0]] + reg[1..];
      if Imported(reg[0]) {
        assert ImportedIds(reg) == {Id(reg[0])} + ImportedIds(reg[1..]);
        assert Id(reg[0]) !in ImportedIds(reg[1..]);
      } else {
        assert ImportedIds(reg) == ImportedIds(reg[1..]);
      }
    }
  }

  lemma {:induction false} QuietIs(reg: seq<Meta>)
    ensures |Quiet(reg)| == |reg|
    ensures forall k | 0 <= k < |reg| :: Quiet(reg)[k] == reg[k].(active := false)
    ensures ImportedIds(Quiet(reg)) == ImportedIds(reg) && Ids(Quiet(reg)) == Ids(reg)
  {
    if reg == [] {
      assert Quiet(reg) == reg;
    } else {
      QuietIs(reg[1..]);
      forall k | 0 <= k < |reg|
        ensures Quiet(reg)[k] == reg[k].(active := false)
      {
      }
      SameIds(Quiet(reg), reg);
    }
  }

  lemma SameIds(a: seq<Meta>, b: seq<Meta>)
    requires |a| == |b| && forall k | 0 <= k < |a| :: Id(a[k]) == Id(b[k]) && Imported(a[k]) == Imported(b[k])
    ensures ImportedIds(a) == ImportedIds(b) && Ids(a) == Ids(b)
  {
    forall id | id in Ids(a)
      ensures id in Ids(b)
    {
      var k :| 0 <= k < |a| && Id(a[k]) == id;
      assert b[k] in b;
    }
    forall id | id in Ids(b)
      ensures id in Ids(a)
    {
      var k :| 0 <= k < |a| && Id(b[k]) == id;
      assert a[k] in a;
    }
    forall id | id in ImportedIds(a)
      ensures id in ImportedIds(b)
    {
      var k :| 0 <= k < |a| && Id(a[k]) == id && Imported(a[k]);
      assert b[k] in b && Imported(b[k]);
    }
    forall id | id in ImportedIds(b)
      ensures id in ImportedIds(a)
    {
      var k :| 0 <= k < |a| && Id(b[k]) == id && Imported(b[k]);
      assert a[k] in a && Imported(a[k]);
    }
  }

  lemma WithoutIds(reg: seq<Meta>, id: string)
    ensures Ids(Without(reg, id)) == Ids(reg) - {id}
  {
    hide Without;
    WithoutHas(reg, id);
  }

  lemma WithoutImported(reg: seq<Meta>, id: string)
    ensures ImportedIds(Without(reg, id)) == ImportedIds(reg) - {id}
  {
    hide Without, Imported;
    WithoutHas(reg, id);
  }

  lemma RemoveHas(reg: seq<Meta>, id: string)
    ensures Ids(RemoveMeta(reg, id)) == Ids(reg) - {id}
    ensures ImportedIds(RemoveMeta(reg, id)) == ImportedIds(reg) - {id}
  {
    hide Without, Ids, ImportedIds;
    var rest := Without(reg, id);
    WithoutIds(reg, id);
    WithoutImported(reg, id);
    SameIds(WakeFirst(rest), rest);
  }

  lemma WakeKeeps(reg: seq<Meta>)
    requires UniqueMeta(reg) && AtMostOneActive(reg)
    ensures UniqueMeta(WakeFirst(reg)) && AtMostOneActive(WakeFirst(reg))
  {
  }

  lemma RemoveKeeps(reg: seq<Meta>, id: string)
    requires UniqueMeta(reg) && AtMostOneActive(reg)
    ensures UniqueMeta(RemoveMeta(reg, id)) && AtMostOneActive(RemoveMeta(reg, id))
    ensures Ids(RemoveMeta(reg, id)) == Ids(reg) - {id}
    ensures ImportedIds(RemoveMeta(reg, id)) == ImportedIds(reg) - {id}
  {
    hide UniqueMeta, AtMostOneActive, Ids, ImportedIds, WakeFirst, Without;
    RemoveHas(reg, id);
    WithoutIs(reg, id);
    WakeKeeps(Without(reg, id));
  }

  lemma EnteredHas(reg: seq<Meta>, entry: Meta, choice: Choice)
    ensures var e := Entered(reg, entry, choice);
            && Ids(e) == Ids(reg) + {Id(entry)}
            && (Imported(entry) ==> ImportedIds(e) == ImportedIds(reg) + {Id(entry)})
  {
    var e, others := Entered(reg, entry, choice), Without(reg, Id(entry));
    WithoutHas(reg, Id(entry));
    QuietIs(others);
    SameIds(e, others + [entry]);
    assert Ids(others + [entry]) == Ids(reg) + {Id(entry)};
    if Imported(entry) {
      assert ImportedIds(others + [entry]) == ImportedIds(reg) + {Id(entry)};
    }
  }

  lemma EnteredKeeps(reg: seq<Meta>, entry: Meta, choice: Choice)
    requires UniqueMeta(reg) && AtMostOneActive(reg)
    ensures var e := Entered(reg, entry, choice);
            && UniqueMeta(e) && AtMostOneActive(e) && Ids(e) == Ids(reg) + {Id(entry)}
            && (Imported(entry) ==> ImportedIds(e) == ImportedIds(reg) + {Id(entry)})
  {
    hide Ids, ImportedIds, Imported, Without, Quiet;
    EnteredHas(reg, entry, choice);
    var others := Without(reg, Id(entry));
    WithoutIs(reg, Id(entry));
    WithoutHas(reg, Id(entry));
    QuietIs(others);
    assert forall k | 0 <= k < |others| :: others[k] in others;
  }

  lemma CutKeeps(reg: seq<Meta>, i: nat)
    requires UniqueMeta(reg) && AtMostOneActive(reg) && i < |reg|
    ensures UniqueMeta(CutAt(reg, i)) && AtMostOneActive(CutAt(reg, i))
    ensures forall m :: m in reg <==> m in CutAt(reg, i) || m == reg[i]
    ensures reg[i] !in CutAt(reg, i)
  {
    var cut := CutAt(reg, i);
    assert forall k | 0 <= k < |cut| :: cut[k] == reg[if k < i then k else k + 1];
    assert reg == reg[..i] + [reg[i]] + reg[i + 1..];
  }

  /** Pruning leaves at most four imported profiles, takes only prunable ones, and the oldest first. */
  lemma {:induction false} PruneKeeps(reg: seq<Meta>, keep: string)
    requires UniqueMeta(reg) && AtMostOneActive(reg)
    ensures var p := Prune(reg, keep);
            && UniqueMeta(p) && AtMostOneActive(p) && CountImported(p) <= CAP
            && (forall m | m in p :: m in reg) && (forall m | m in reg && !Prunable(m, keep) :: m in p)
            && (forall m, k | m in reg && m !in p && k in p && Prunable(k, keep) :: m.savedAt <= k.savedAt)
    decreases |reg|
  {
    hide UniqueMeta, AtMostOneActive, Prunable, CutAt, CountImported;
    if CountImported(reg) > CAP {
      var i := Oldest(reg, keep);
      if i == |reg| {
        FewRemain(reg, keep);
      } else {
        CutKeeps(reg, i);
        CutShorter(reg, i);
        PruneKeeps(CutAt(reg, i), keep);
      }
    }
  }

  lemma CutShorter(reg: seq<Meta>, i: nat)
    requires i < |reg|
    ensures |CutAt(reg, i)| < |reg|
  {
  }

  /** With nothing left to prune, the imported profiles are the active one and the one being saved. */
  lemma FewRemain(reg: seq<Meta>, keep: string)
    requires UniqueMeta(reg) && AtMostOneActive(reg) && forall k | 0 <= k < |reg| :: !Prunable(reg[k], keep)
    ensures CountImported(reg) <= 2
  {
    hide UniqueMeta, CountImported;
    CountIsCardinality(reg);
    var activeId := if SomeActive(reg) then (var i :| 0 <= i < |reg| && reg[i].active; Id(reg[i])) else keep;
    forall m | m in reg && Imported(m)
      ensures Id(m) in {activeId, keep}
    {
      var k :| 0 <= k < |reg| && reg[k] == m;
      assert !Prunable(reg[k], keep);
    }
    SubsetIsSmaller(ImportedIds(reg), {activeId, keep});
  }

  lemma {:induction false} SubsetIsSmaller(a: set<string>, b: set<string>)
    requires a <= b
    ensures |a| <= |b|
  {
    if a != {} {
      var x :| x in a;
      SubsetIsSmaller(a - {x}, b - {x});
    }
  }

  // ----- which profiles pruning takes

  /** Goes before in the order of pruning: older, or as old and listed earlier. */
  predicate Precedes(reg: seq<Meta>, keep: string, j: nat, k: nat)
    requires j < |reg| && k < |reg|
  {
    Prunable(reg[j], keep) && (reg[j].savedAt < reg[k].savedAt || (reg[j].savedAt == reg[k].savedAt && j < k))
  }

  function Ahead(reg: seq<Meta>, keep: string, k: nat): set<string>
    requires k < |reg|
  {
    set j | 0 <= j < |reg| && Precedes(reg, keep, j, k) :: Id(reg[j])
  }

  /** How many imported profiles are too many. */
  function Excess(reg: seq<Meta>): int { CountImported(reg) - CAP }

  lemma {:induction false} CountAppend(a: seq<Meta>, b: seq<Meta>)
    ensures CountImported(a + b) == CountImported(a) + CountImported(b)
    decreases |a|
  {
    if a == [] {
      assert a + b == b;
    } else {
      assert (a + b)[1..] == a[1..] + b;
      CountAppend(a[1..], b);
    }
  }

  lemma CutCounts(reg: seq<Meta>, i: nat)
    requires i < |reg| && Imported(reg[i])
    ensures CountImported(CutAt(reg, i)) == CountImported(reg) - 1
  {
    assert reg == reg[..i] + ([reg[i]] + reg[i + 1..]);
    CountAppend(reg[..i], [reg[i]] + reg[i + 1..]);
    CountAppend(reg[..i], reg[i + 1..]);
    assert ([reg[i]] + reg[i + 1..])[1..] == reg[i + 1..];
  }

  lemma CutPlaces(reg: seq<Meta>, i: nat)
    requires i < |reg|
    ensures |CutAt(reg, i)| == |reg| - 1
    ensures forall j | 0 <= j < |reg| - 1 :: CutAt(reg, i)[j] == reg[if j < i then j else j + 1]
  {
  }

  /** With the oldest one cut out, every other profile has one less ahead of it. */
  lemma CutAhead(reg: seq<Meta>, keep: string, i: nat, k: nat)
    requires UniqueMeta(reg) && OldestAt(reg, keep, i) && k < |reg| && k != i && Prunable(reg[k], keep)
    ensures var c := if k < i then k else k - 1;
            && c < |CutAt(reg, i)| && CutAt(reg, i)[c] == reg[k]
            && Ahead(CutAt(reg, i), keep, c) == Ahead(reg, keep, k) - {Id(reg[i])}
            && Id(reg[i]) in Ahead(reg, keep, k)
  {
    hide CutAt, Prunable;
    CutPlaces(reg, i);
    var cut, c := CutAt(reg, i), if k < i then k else k - 1;
    assert Precedes(reg, keep, i, k);
    forall id | id in Ahead(cut, keep, c)
      ensures id in Ahead(reg, keep, k) - {Id(reg[i])}
    {
      var j :| 0 <= j < |cut| && Precedes(cut, keep, j, c) && Id(cut[j]) == id;
      assert Precedes(reg, keep, if j < i then j else j + 1, k);
    }
    forall id | id in Ahead(reg, keep, k) - {Id(reg[i])}
      ensures id in Ahead(cut, keep, c)
    {
      var j :| 0 <= j < |reg| && Precedes(reg, keep, j, k) && Id(reg[j]) == id;
      assert Precedes(cut, keep, if j < i then j else j - 1, c);
    }
  }

  lemma NothingAheadOfOldest(reg: seq<Meta>, keep: string, i: nat)
    requires OldestAt(reg, keep, i)
    ensures Ahead(reg, keep, i) == {}
  {
  }

  /**
   Pruning takes a profile if and only if it may be taken and fewer profiles that may be taken go before
   it than there are too many. Whether it is useful or running plays no part.
   */
  lemma {:induction false} PrunedExactly(reg: seq<Meta>, keep: string, k: nat)
    requires UniqueMeta(reg) && AtMostOneActive(reg) && k < |reg|
    ensures reg[k] !in Prune(reg, keep) <==> Prunable(reg[k], keep) && |Ahead(reg, keep, k)| < Excess(reg)
    decreases |reg|
  {
    hide UniqueMeta, AtMostOneActive, Prunable, CountImported, Ahead, OldestAt;
    PruneKeeps(reg, keep);
    var i := Oldest(reg, keep);
    if Prunable(reg[k], keep) && CountImported(reg) > CAP && i < |reg| {
      OldestIsPrunable(reg, keep, i);
      CutCounts(reg, i);
      CutKeeps(reg, i);
      CutShorter(reg, i);
      if k == i {
        PruneKeeps(CutAt(reg, i), keep);
        NothingAheadOfOldest(reg, keep, i);
      } else {
        CutAhead(reg, keep, i, k);
        PrunedExactly(CutAt(reg, i), keep, if k < i then k else k - 1);
      }
    }
  }

  /** A profile that is gone is gone under its identifier. */
  lemma GoneByIdentifier(reg: seq<Meta>, rest: seq<Meta>, k: nat)
    requires UniqueMeta(reg) && k < |reg| && reg[k] !in rest && forall m | m in rest :: m in reg
    ensures Id(reg[k]) !in Ids(rest)
  {
    forall m | m in rest
      ensures Id(m) != Id(reg[k])
    {
      var j :| 0 <= j < |reg| && reg[j] == m;
    }
  }

  /** An imported profile that is saved is there, and no other is new. */
  lemma SavedImports(reg: seq<Meta>, entry: Meta, choice: Choice)
    requires UniqueMeta(reg) && AtMostOneActive(reg) && Imported(entry)
    ensures var s := SaveMeta(reg, entry, choice);
            Id(entry) in ImportedIds(s) && ImportedIds(s) <= ImportedIds(reg) + {Id(entry)}
  {
    hide UniqueMeta, AtMostOneActive, Prune, CountImported, Without, Quiet;
    var e := Entered(reg, entry, choice);
    EnteredKeeps(reg, entry, choice);
    PruneKeeps(e, Id(entry));
    assert e[|e| - 1] in e && !Prunable(e[|e| - 1], Id(entry));
  }

  lemma OldestIsPrunable(reg: seq<Meta>, keep: string, i: nat)
    requires OldestAt(reg, keep, i)
    ensures Imported(reg[i]) && Prunable(reg[i], keep)
  {
  }

  /** Whatever was there, a save leaves at most four imported profiles, the saved one among them. */
  lemma SaveBounds(reg: seq<Meta>, entry: Meta, choice: Choice)
    requires UniqueMeta(reg) && AtMostOneActive(reg)
    ensures var s := SaveMeta(reg, entry, choice);
            UniqueMeta(s) && AtMostOneActive(s) && CountImported(s) <= CAP && Id(entry) in Ids(s) && Ids(s) <= Ids(reg) + {Id(entry)}
    ensures Imported(entry) && |ImportedIds(reg) + {Id(entry)}| <= CAP ==>
              SaveMeta(reg, entry, choice) == Entered(reg, entry, choice)
  {
    var e := Entered(reg, entry, choice);
    EnteredKeeps(reg, entry, choice);
    PruneKeeps(e, Id(entry));
    assert e[|e| - 1] in e && !Prunable(e[|e| - 1], Id(entry));
    CountIsCardinality(e);
  }

  // ----- what a save and a removal do to each profile

  /** Whether the saved profile is active afterwards: what the caller asks, or if it asks nothing, also what it was. */
  predicate ActiveAfter(reg: seq<Meta>, id: string, choice: Choice) {
    match choice
    case Chosen(active) => active
    case Decided(becomes) => becomes || exists m :: m in reg && Id(m) == id && m.active
  }

  lemma ActiveAfterIs(reg: seq<Meta>, id: string, choice: Choice)
    requires UniqueMeta(reg)
    ensures BecomesActive(reg, id, choice) <==> ActiveAfter(reg, id, choice)
  {
    FindIs(reg, id);
  }

  /** A profile that stayed, but for being active. */
  predicate Stayed(before: Meta, after: Meta) { after == before.(active := after.active) }

  /**
   After a save the profile is there as given, active exactly as asked; each other one there is as it was before,
   active exactly if it was and the saved one is not.
   */
  lemma SaveDecides(reg: seq<Meta>, entry: Meta, choice: Choice)
    requires UniqueMeta(reg) && AtMostOneActive(reg)
    ensures var saved := SaveMeta(reg, entry, choice); var active := ActiveAfter(reg, Id(entry), choice);
            && entry.(active := active) in saved
            && forall m | m in saved :: m == entry.(active := active) || (Id(m) != Id(entry) && SavedBeside(reg, m, active))
  {
    hide UniqueMeta, AtMostOneActive, Prune, Without, Quiet, CountImported;
    ActiveAfterIs(reg, Id(entry), choice);
    var e, others := Entered(reg, entry, choice), Without(reg, Id(entry));
    EnteredKeeps(reg, entry, choice);
    PruneKeeps(e, Id(entry));
    WithoutHas(reg, Id(entry));
    QuietIs(others);
    var last := e[|e| - 1];
    assert last in e && !Prunable(last, Id(entry));
    forall k | 0 <= k < |e|
      ensures e[k] == last || (Id(e[k]) != Id(entry) && SavedBeside(reg, e[k], last.active))
    {
      if k < |others| {
        assert others[k] in others && Stayed(others[k], e[k]);
      }
    }
  }

  predicate SavedBeside(reg: seq<Meta>, m: Meta, savedActive: bool) {
    exists before :: before in reg && Stayed(before, m) && (m.active <==> before.active && !savedActive)
  }

  /** A removal takes the profile and no other; they keep their order, and the first wakes if none is active. */
  lemma RemovalDecides(reg: seq<Meta>, id: string, i: nat)
    requires UniqueMeta(reg) && i < |reg| && Id(reg[i]) == id
    ensures var rest := reg[..i] + reg[i + 1..];
            RemoveMeta(reg, id)
            == if rest != [] && forall k | 0 <= k < |rest| :: !rest[k].active then rest[0 := rest[0].(active := true)] else rest
  {
    hide UniqueMeta;
    WithoutAt(reg, id, i);
  }

  lemma {:induction false} WithoutAt(reg: seq<Meta>, id: string, i: nat)
    requires UniqueMeta(reg) && i < |reg| && Id(reg[i]) == id
    ensures Without(reg, id) == reg[..i] + reg[i + 1..]
  {
    if i == 0 {
      WithoutAbsent(reg[1..], id);
    } else {
      WithoutAt(reg[1..], id, i - 1);
      assert reg[..i] == [reg[0]] + reg[1..][..i - 1] && reg[1..][i..] == reg[i + 1..];
    }
  }

  lemma {:induction false} WithoutAbsent(reg: seq<Meta>, id: string)
    requires forall k | 0 <= k < |reg| :: Id(reg[k]) != id
    ensures Without(reg, id) == reg
  {
    if reg != [] {
      WithoutAbsent(reg[1..], id);
    }
  }
}
