/**
 * The application's own logic around the engine: the plan limits, the cap on
 * how many files a FREE batch processes, the list of saved configuration
 * profiles with the current one, and the table handed to the exporters.
 */
module App {
  import opened Types

  // ------------------------------------------------------------------
  // Plans and the file cap
  // ------------------------------------------------------------------

  /** `PLANS[plan]`. */
  function Limits(plan: UserPlan): (l: PlanLimits)
    ensures plan == Free ==> l == PlanLimits(5, false, 1)
    ensures plan != Free ==> l == PlanLimits(9999, true, 9999)
  {
    match plan
    case Free => PlanLimits(5, false, 1)
    case Pro => PlanLimits(9999, true, 9999)
    case Enterprise => PlanLimits(9999, true, 9999)
  }

  /**
   * The files `handleFolderSelect` passes on: a FREE batch over the limit is
   * cut to its first `maxFilesPerBatch` files; other plans are never cut.
   */
  function FilesToProcess<F>(plan: UserPlan, files: seq<F>): (r: seq<F>)
    ensures |r| <= |files| && r == files[..|r|]
    ensures plan == Free ==> |r| == if |files| > 5 then 5 else |files|
    ensures plan != Free ==> r == files
  {
    var limits := Limits(plan);
    if |files| > limits.maxFilesPerBatch && plan == Free then files[..limits.maxFilesPerBatch] else files
  }

  // ------------------------------------------------------------------
  // Profile lists
  // ------------------------------------------------------------------

  /** Some profile has the id. */
  predicate HasId(ps: seq<ConfigProfile>, id: string)
  {
    exists k | 0 <= k < |ps| :: ps[k].id == id
  }

  predicate DistinctIds(ps: seq<ConfigProfile>)
  {
    forall p, q | 0 <= p < q < |ps| :: ps[p].id != ps[q].id
  }

  /** An id is in a non-empty list when it is the head's or is in the rest. */
  lemma HasIdCons(ps: seq<ConfigProfile>, id: string)
    requires ps != []
    ensures HasId(ps, id) <==> ps[0].id == id || HasId(ps[1..], id)
  {
    if HasId(ps[1..], id) {
      var k :| 0 <= k < |ps[1..]| && ps[1..][k].id == id;
      assert ps[k + 1].id == id;
    }
    if HasId(ps, id) && ps[0].id != id {
      var k :| 0 <= k < |ps| && ps[k].id == id;
      assert ps[1..][k - 1].id == id;
    }
  }

  /** `profiles.find(p => p.id === id)`. */
  function FindProfile(ps: seq<ConfigProfile>, id: string): (r: Option<ConfigProfile>)
    ensures r.Some? <==> HasId(ps, id)
    ensures r.Some? ==> r.value.id == id && exists k | 0 <= k < |ps| :: ps[k] == r.value && forall k' | 0 <= k' < k :: ps[k'].id != id
  {
    if ps == [] then None
    else if ps[0].id == id then
      assert ps[0].id == id;
      Some(ps[0])
    else
      var r := FindProfile(ps[1..], id);
      HasIdCons(ps, id);
      if r.Some? then
        var k :| 0 <= k < |ps[1..]| && ps[1..][k] == r.value && forall k' | 0 <= k' < k :: ps[1..][k'].id != id;
        assert ps[k + 1] == r.value;
        assert forall k' | 1 <= k' < k + 1 :: ps[k'] == ps[1..][k' - 1];
        r
      else r
  }

  /** `profiles.map(p => p.id === id ? { ...p, config, mappings } : p)`. */
  function SaveInto(ps: seq<ConfigProfile>, id: string, config: GlobalConfig, mappings: seq<FieldMapping>): (r: seq<ConfigProfile>)
    ensures |r| == |ps|
    ensures forall k | 0 <= k < |ps| :: r[k].id == ps[k].id && r[k].name == ps[k].name
    ensures forall k | 0 <= k < |ps| && ps[k].id != id :: r[k] == ps[k]
    ensures forall k | 0 <= k < |ps| && ps[k].id == id :: r[k].config == config && r[k].mappings == mappings
  {
    seq(|ps|, k requires 0 <= k < |ps| => if ps[k].id == id then ps[k].(config := config, mappings := mappings) else ps[k])
  }

  /** Saving and then switching to the saved profile gives back the saved configuration and mappings. */
  lemma SaveThenFind(ps: seq<ConfigProfile>, id: string, config: GlobalConfig, mappings: seq<FieldMapping>)
    requires HasId(ps, id)
    ensures var found := FindProfile(SaveInto(ps, id, config, mappings), id);
            found.Some? && found.value.config == config && found.value.mappings == mappings
  {
    var r := SaveInto(ps, id, config, mappings);
    var k :| 0 <= k < |ps| && ps[k].id == id;
    assert r[k].id == id;
    var found := FindProfile(r, id);
    var j :| 0 <= j < |r| && r[j] == found.value;
  }

  /** `profiles.filter(p => p.id !== id)`. */
  function RemoveId(ps: seq<ConfigProfile>, id: string): (r: seq<ConfigProfile>)
    ensures |r| <= |ps|
    ensures forall p :: p in r <==> p in ps && p.id != id
  {
    if ps == [] then []
    else if ps[0].id == id then RemoveId(ps[1..], id)
    else [ps[0]] + RemoveId(ps[1..], id)
  }

  /** With distinct ids, the rest of the list has distinct ids and not the head's. */
  lemma DistinctTail(ps: seq<ConfigProfile>)
    requires DistinctIds(ps) && ps != []
    ensures DistinctIds(ps[1..])
    ensures !HasId(ps[1..], ps[0].id)
    ensures forall p | p in ps[1..] :: p.id != ps[0].id
  {
    forall p, q | 0 <= p < q < |ps[1..]| ensures ps[1..][p].id != ps[1..][q].id {
      assert ps[1..][p] == ps[p + 1] && ps[1..][q] == ps[q + 1];
    }
    forall k | 0 <= k < |ps[1..]| ensures ps[1..][k].id != ps[0].id {
      assert ps[1..][k] == ps[k + 1];
    }
  }

  /** Removing keeps ids distinct. */
  lemma {:induction false} RemoveIdDistinct(ps: seq<ConfigProfile>, id: string)
    requires DistinctIds(ps)
    ensures DistinctIds(RemoveId(ps, id))
  {
    if ps != [] {
      DistinctTail(ps);
      RemoveIdDistinct(ps[1..], id);
      var tail := RemoveId(ps[1..], id);
      if ps[0].id != id {
        ConsDistinct(ps[0], tail);
      }
    }
  }

  /** A head whose id is not in a list of distinct ids keeps the ids distinct. */
  lemma ConsDistinct(p: ConfigProfile, tail: seq<ConfigProfile>)
    requires DistinctIds(tail) && forall q | q in tail :: q.id != p.id
    ensures DistinctIds([p] + tail)
  {
    var r := [p] + tail;
    forall i, j | 0 <= i < j < |r| ensures r[i].id != r[j].id {
      assert r[j] == tail[j - 1];
      if i > 0 {
        assert r[i] == tail[i - 1];
      }
    }
  }

  /** Removing an id that no profile has changes nothing. */
  lemma {:induction false} RemoveAbsentId(ps: seq<ConfigProfile>, id: string)
    requires !HasId(ps, id)
    ensures RemoveId(ps, id) == ps
  {
    if ps != [] {
      HasIdCons(ps, id);
      RemoveAbsentId(ps[1..], id);
      assert ps == [ps[0]] + ps[1..];
    }
  }

  /** Dropping element `k > 0` keeps the head and drops element `k - 1` of the tail. */
  lemma DropAtOfTail<T>(s: seq<T>, k: int)
    requires 0 < k < |s|
    ensures s[..k] + s[k + 1..] == [s[0]] + (s[1..][..k - 1] + s[1..][k..])
  {
    assert s[..k] == [s[0]] + s[1..][..k - 1];
    assert s[k + 1..] == s[1..][k..];
  }

  /**
   * With distinct ids, removing the id of element `k` removes exactly that
   * element and keeps the others in their order.
   */
  lemma {:induction false} RemoveIdAt(ps: seq<ConfigProfile>, k: int)
    requires DistinctIds(ps) && 0 <= k < |ps|
    ensures RemoveId(ps, ps[k].id) == ps[..k] + ps[k + 1..]
  {
    var id := ps[k].id;
    DistinctTail(ps);
    if k == 0 {
      RemoveAbsentId(ps[1..], id);
      assert ps[..0] + ps[1..] == ps[1..];
    } else {
      assert ps[0].id != id;
      assert RemoveId(ps, id) == [ps[0]] + RemoveId(ps[1..], id);
      assert ps[1..][k - 1] == ps[k];
      RemoveIdAt(ps[1..], k - 1);
      DropAtOfTail(ps, k);
    }
  }

  /** With distinct ids, deleting an id removes at most one profile. */
  lemma RemoveIdKeepsOthers(ps: seq<ConfigProfile>, id: string)
    requires DistinctIds(ps)
    ensures |RemoveId(ps, id)| >= |ps| - 1
  {
    if HasId(ps, id) {
      var k :| 0 <= k < |ps| && ps[k].id == id;
      RemoveIdAt(ps, k);
    } else {
      RemoveAbsentId(ps, id);
    }
  }

  /** Deleting a profile just appended under a fresh id gives back the list it was appended to. */
  lemma {:induction false} AppendThenRemove(ps: seq<ConfigProfile>, p: ConfigProfile)
    requires !HasId(ps, p.id)
    ensures RemoveId(ps + [p], p.id) == ps
  {
    var s := ps + [p];
    if ps == [] {
      assert s[1..] == [];
    } else {
      HasIdCons(ps, p.id);
      assert s[0] == ps[0] && s[1..] == ps[1..] + [p];
      AppendThenRemove(ps[1..], p);
      assert RemoveId(s, p.id) == [ps[0]] + RemoveId(s[1..], p.id);
      assert ps == [ps[0]] + ps[1..];
    }
  }

  const DEFAULT_PROFILE := ConfigProfile("default", "Padrão (MGR)", DEFAULT_CONFIG, DEFAULT_MAPPINGS)

  /**
   * The profile-related state of the application component: the plan, whether
   * the pricing dialog is shown, the saved profiles, the current profile's id
   * and the configuration and mappings being edited.
   */
  class AppState {
    var plan: UserPlan
    var showPricing: bool
    var profiles: seq<ConfigProfile>
    var currentProfileId: string
    var config: GlobalConfig
    var mappings: seq<FieldMapping>

    /** There is always a profile, ids are distinct, and the current id names one of them. */
    ghost predicate Valid()
      reads this
    {
      |profiles| >= 1 && DistinctIds(profiles) && HasId(profiles, currentProfileId)
    }

    /**
     * The start-up effect: load the saved profiles when there are any and
     * select the first, otherwise start from the default profile.
     */
    constructor (plan: UserPlan, saved: seq<ConfigProfile>)
      requires DistinctIds(saved)
      ensures Valid()
      ensures this.plan == plan && !showPricing
      ensures profiles == if saved != [] then saved else [DEFAULT_PROFILE]
      ensures currentProfileId == profiles[0].id && config == profiles[0].config && mappings == profiles[0].mappings
    {
      this.plan := plan;
      showPricing := false;
      var initial := if saved != [] then saved else [DEFAULT_PROFILE];
      profiles := initial;
      currentProfileId := initial[0].id;
      config := initial[0].config;
      mappings := initial[0].mappings;
      new;
      assert profiles[0].id == currentProfileId;
    }

    /**
     * The file cap of `handleFolderSelect`: returns the files handed to the
     * engine; cutting a FREE batch also opens the pricing dialog.
     */
    method FolderSelect<F>(files: seq<F>) returns (toProcess: seq<F>)
      modifies this
      ensures toProcess == FilesToProcess(plan, files)
      ensures showPricing == (old(showPricing) || (plan == Free && |files| > Limits(plan).maxFilesPerBatch))
      ensures plan == old(plan) && profiles == old(profiles) && currentProfileId == old(currentProfileId)
      ensures config == old(config) && mappings == old(mappings)
    {
      var limits := Limits(plan);
      toProcess := files;
      if |toProcess| > limits.maxFilesPerBatch {
        if plan == Free {
          showPricing := true;
          toProcess := toProcess[..limits.maxFilesPerBatch];
        }
      }
    }

    /** `loadProfileData`: make `p` the current profile and edit its configuration and mappings. */
    method LoadProfileData(p: ConfigProfile)
      modifies this
      ensures currentProfileId == p.id && config == p.config && mappings == p.mappings
      ensures profiles == old(profiles) && plan == old(plan) && showPricing == old(showPricing)
    {
      currentProfileId := p.id;
      config := p.config;
      mappings := p.mappings;
    }

    /** `handleProfileChange`: switch to the profile with that id; an unknown id changes nothing. */
    method ProfileChange(id: string)
      requires Valid()
      modifies this
      ensures Valid()
      ensures profiles == old(profiles) && plan == old(plan) && showPricing == old(showPricing)
      ensures !HasId(profiles, id) ==>
                currentProfileId == old(currentProfileId) && config == old(config) && mappings == old(mappings)
      ensures HasId(profiles, id) ==>
                currentProfileId == id &&
                config == FindProfile(profiles, id).value.config &&
                mappings == FindProfile(profiles, id).value.mappings
    {
      var profile := FindProfile(profiles, id);
      if profile.Some? {
        LoadProfileData(profile.value);
      }
    }

    /** `handleSaveProfile`: store the edited configuration and mappings into the current profile only. */
    method SaveProfile()
      requires Valid()
      modifies this
      ensures Valid()
      ensures profiles == SaveInto(old(profiles), currentProfileId, config, mappings)
      ensures currentProfileId == old(currentProfileId) && config == old(config) && mappings == old(mappings)
      ensures plan == old(plan) && showPricing == old(showPricing)
    {
      var updated := SaveInto(profiles, currentProfileId, config, mappings);
      assert DistinctIds(updated) by {
        forall p, q | 0 <= p < q < |updated| ensures updated[p].id != updated[q].id {
          assert updated[p].id == profiles[p].id && updated[q].id == profiles[q].id;
        }
      }
      assert HasId(updated, currentProfileId) by {
        var k :| 0 <= k < |profiles| && profiles[k].id == currentProfileId;
        assert updated[k].id == currentProfileId;
      }
      profiles := updated;
    }

    /**
     * `handleCreateProfile`: refused (the pricing dialog opens) once the plan's
     * profile cap is reached; otherwise a profile holding the edited
     * configuration and mappings is appended and becomes current. `newId` is
     * the timestamp the source uses as id.
     */
    method CreateProfile(name: string, newId: string)
      requires Valid() && !HasId(profiles, newId)
      modifies this
      ensures Valid()
      ensures config == old(config) && mappings == old(mappings) && plan == old(plan)
      ensures |old(profiles)| >= Limits(plan).maxProfiles ==>
                profiles == old(profiles) && currentProfileId == old(currentProfileId) && showPricing
      ensures |old(profiles)| < Limits(plan).maxProfiles ==>
                profiles == old(profiles) + [ConfigProfile(newId, name, config, mappings)] &&
                currentProfileId == newId && showPricing == old(showPricing)
    {
      var limits := Limits(plan);
      if |profiles| >= limits.maxProfiles {
        showPricing := true;
        return;
      }
      var newProfile := ConfigProfile(newId, name, config, mappings);
      var newProfiles := profiles + [newProfile];
      assert DistinctIds(newProfiles) by {
        forall p, q | 0 <= p < q < |newProfiles| ensures newProfiles[p].id != newProfiles[q].id {
          assert newProfiles[p] == profiles[p];
          if q < |profiles| {
            assert newProfiles[q] == profiles[q];
          }
        }
      }
      assert newProfiles[|profiles|].id == newId;
      profiles := newProfiles;
      currentProfileId := newProfile.id;
    }

    /**
     * `handleDeleteProfile`: refused while only one profile exists; otherwise
     * the profiles with that id are removed and, when the current profile was
     * deleted, the first remaining profile is loaded.
     */
    method DeleteProfile(id: string)
      requires Valid()
      modifies this
      ensures Valid()
      ensures plan == old(plan) && showPricing == old(showPricing)
      ensures |old(profiles)| <= 1 ==>
                profiles == old(profiles) && currentProfileId == old(currentProfileId) &&
                config == old(config) && mappings == old(mappings)
      ensures |old(profiles)| > 1 ==> profiles == RemoveId(old(profiles), id)
      ensures |old(profiles)| > 1 && id == old(currentProfileId) ==>
                currentProfileId == profiles[0].id && config == profiles[0].config && mappings == profiles[0].mappings
      ensures |old(profiles)| > 1 && id != old(currentProfileId) ==>
                currentProfileId == old(currentProfileId) && config == old(config) && mappings == old(mappings)
    {
      if |profiles| <= 1 {
        return;
      }
      var newProfiles := RemoveId(profiles, id);
      RemoveIdKeepsOthers(profiles, id);
      RemoveIdDistinct(profiles, id);
      if id != currentProfileId {
        var k :| 0 <= k < |profiles| && profiles[k].id == currentProfileId;
        assert profiles[k] in newProfiles;
        var j :| 0 <= j < |newProfiles| && newProfiles[j] == profiles[k];
        assert newProfiles[j].id == currentProfileId;
      }
      profiles := newProfiles;
      if id == currentProfileId {
        LoadProfileData(newProfiles[0]);
        assert newProfiles[0].id == currentProfileId;
      }
    }
  }

  // ------------------------------------------------------------------
  // Export table
  // ------------------------------------------------------------------

  predicate SortedByColIndex(ms: seq<FieldMapping>)
  {
    forall p, q | 0 <= p < q < |ms| :: ms[p].colIndex <= ms[q].colIndex
  }

  /** Putting a mapping with a column no larger than the first in front keeps the order. */
  lemma ConsSorted(m: FieldMapping, sorted: seq<FieldMapping>)
    requires SortedByColIndex(sorted) && (sorted == [] || m.colIndex <= sorted[0].colIndex)
    ensures SortedByColIndex([m] + sorted)
  {
    var r := [m] + sorted;
    forall p, q | 0 <= p < q < |r| ensures r[p].colIndex <= r[q].colIndex {
      assert r[q] == sorted[q - 1];
      if p > 0 {
        assert r[p] == sorted[p - 1];
      }
    }
  }

  /** Dropping the first mapping keeps the order. */
  lemma SortedTail(sorted: seq<FieldMapping>)
    requires SortedByColIndex(sorted) && sorted != []
    ensures SortedByColIndex(sorted[1..])
  {
    var rest := sorted[1..];
    forall p, q | 0 <= p < q < |rest| ensures rest[p].colIndex <= rest[q].colIndex {
      assert rest[p] == sorted[p + 1] && rest[q] == sorted[q + 1];
    }
  }

  /** Inserts `m` before the first mapping whose column is not smaller. */
  function InsertByColIndex(m: FieldMapping, sorted: seq<FieldMapping>): (r: seq<FieldMapping>)
    requires SortedByColIndex(sorted)
    ensures |r| == |sorted| + 1
    ensures SortedByColIndex(r)
    ensures multiset(r) == multiset(sorted) + multiset{m}
    ensures r[0] == m || (sorted != [] && r[0] == sorted[0])
  {
    if sorted == [] || m.colIndex <= sorted[0].colIndex then
      ConsSorted(m, sorted);
      [m] + sorted
    else
      var rest := sorted[1..];
      SortedTail(sorted);
      var tail := InsertByColIndex(m, rest);
      ConsSorted(sorted[0], tail);
      assert sorted == [sorted[0]] + rest;
      assert multiset([sorted[0]] + tail) == multiset{sorted[0]} + multiset(tail);
      [sorted[0]] + tail
  }

  /** `[...mappings].sort((a, b) => a.colIndex - b.colIndex)`, as a stable insertion sort. */
  function SortByColIndex(ms: seq<FieldMapping>): (r: seq<FieldMapping>)
    ensures SortedByColIndex(r)
    ensures multiset(r) == multiset(ms)
  {
    if ms == [] then []
    else
      assert ms == [ms[0]] + ms[1..];
      InsertByColIndex(ms[0], SortByColIndex(ms[1..]))
  }

  /** `r.data[colIndex] ?? ""`: a missing or null value exports as the empty text. */
  function ExportCell(data: RowData, c: int): (v: Value)
    ensures v != Null
    ensures c in data.values && data.values[c] != Null ==> v == data.values[c]
    ensures c !in data.values || data.values[c] == Null ==> v == Text("")
  {
    if c in data.values && data.values[c] != Null then data.values[c] else Text("")
  }

  datatype ExportTable = ExportTable(headers: seq<string>, dataRows: seq<seq<Value>>)

  /** The header row for mappings already in column order. */
  function HeaderRow(sorted: seq<FieldMapping>): (h: seq<string>)
    ensures |h| == |sorted| + 3
    ensures h[0] == "Arquivo" && h[|sorted| + 1] == "ID Reg" && h[|sorted| + 2] == "Ordem"
    ensures forall j | 0 <= j < |sorted| :: h[j + 1] == sorted[j].fieldName
  {
    ["Arquivo"] + seq(|sorted|, j requires 0 <= j < |sorted| => sorted[j].fieldName) + ["ID Reg", "Ordem"]
  }

  /** One data row: file name, one cell per mapping in column order, register number, order. */
  function DataRow(row: ProcessedRow, sorted: seq<FieldMapping>): (d: seq<Value>)
    ensures |d| == |sorted| + 3
    ensures d[0] == Text(row.fileName) && d[|sorted| + 1] == Number(row.regId as real) && d[|sorted| + 2] == Number(row.order as real)
    ensures forall j | 0 <= j < |sorted| :: d[j + 1] == ExportCell(row.data, sorted[j].colIndex)
  {
    [Text(row.fileName)]
    + seq(|sorted|, j requires 0 <= j < |sorted| => ExportCell(row.data, sorted[j].colIndex))
    + [Number(row.regId as real), Number(row.order as real)]
  }

  /**
   * `getExportData`: a header row `Arquivo`, the field names in column order,
   * `ID Reg`, `Ordem`; then one row per result row, in the same order and of
   * the same width as the header.
   */
  function GetExportData(ms: seq<FieldMapping>, rows: seq<ProcessedRow>): (t: ExportTable)
    ensures |t.headers| == |ms| + 3
    ensures t.headers == HeaderRow(SortByColIndex(ms))
    ensures |t.dataRows| == |rows|
    ensures forall k | 0 <= k < |rows| :: |t.dataRows[k]| == |t.headers|
    ensures forall k | 0 <= k < |rows| :: t.dataRows[k] == DataRow(rows[k], SortByColIndex(ms))
  {
    var sorted := SortByColIndex(ms);
    assert |sorted| == |ms| by { assert |multiset(sorted)| == |multiset(ms)|; }
    ExportTable(HeaderRow(sorted), seq(|rows|, k requires 0 <= k < |rows| => DataRow(rows[k], sorted)))
  }

  /** The data columns of the export come in non-decreasing column order, and every mapping gets one. */
  lemma ExportColumnsOrdered(ms: seq<FieldMapping>)
    ensures var sorted := SortByColIndex(ms);
            && |sorted| == |ms|
            && (forall j, j' | 0 <= j < j' < |ms| :: sorted[j].colIndex <= sorted[j'].colIndex)
            && (forall m | m in ms :: m in sorted)
  {
    var sorted := SortByColIndex(ms);
    assert |multiset(sorted)| == |multiset(ms)|;
    forall m | m in ms ensures m in sorted {
      assert m in multiset(ms);
    }
  }
}
