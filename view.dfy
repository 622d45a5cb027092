/** The pure parts of the client's main view (geoasset-client/src/App.tsx):
    marker styling, the three-way filter, the selected-asset lookup, the
    local append of a confirmed log and the timeline order. */
module View {
  import opened Domain
  import opened Text
  import opened Sequences
  import opened Staleness
  import opened Ordering

  // ---------------------------------------------------------------- styling

  const ActiveColor := "#2ecc71"
  const MaintenanceColor := "#f39c12"
  const OfflineColor := "#e74c3c"
  const DefaultColor := "#3498db"
  const StaleBorderColor := "#f1c40f"
  const FreshBorderColor := "white"

  predicate IsKnownStatus(status: string) {
    status == "Active" || status == "Maintenance" || status == "Offline"
  }

  /** `getStatusColor(status)`: one colour per known status, a neutral colour
      for everything else. */
  function StatusColor(status: string): string {
    if status == "Active" then ActiveColor
    else if status == "Maintenance" then MaintenanceColor
    else if status == "Offline" then OfflineColor
    else DefaultColor
  }

  /** The mapping is total, sends exactly the unknown statuses to the neutral
      colour, and tells the three known statuses apart. */
  lemma StatusColorDistinguishes(s: string, t: string)
    ensures StatusColor(s) == DefaultColor <==> !IsKnownStatus(s)
    ensures IsKnownStatus(s) && IsKnownStatus(t) && StatusColor(s) == StatusColor(t) ==> s == t
    ensures StatusColor(s) in {ActiveColor, MaintenanceColor, OfflineColor, DefaultColor}
  {
  }

  /** The style parameters of one map marker. */
  datatype MarkerStyle = MarkerStyle(
    fill: string,
    borderPx: nat,
    borderColor: string,
    needsInspectionClass: bool)

  /** `createCustomIcon(status, lastUpdated)`, style parameters only. */
  function Marker(status: string, lastUpdated: Option<Timestamp>, now: Timestamp): MarkerStyle {
    var stale := IsStale(lastUpdated, now);
    MarkerStyle(
      StatusColor(status),
      if stale then 3 else 2,
      if stale then StaleBorderColor else FreshBorderColor,
      stale)
  }

  /** The fill is the status colour; the marker carries the thick yellow
      border and the needs-inspection class exactly when the asset is stale,
      and a thin white border otherwise. */
  lemma MarkerHighlightsStale(status: string, lastUpdated: Option<Timestamp>, now: Timestamp)
    ensures Marker(status, lastUpdated, now).fill == StatusColor(status)
    ensures Marker(status, lastUpdated, now).borderColor == StaleBorderColor <==> IsStale(lastUpdated, now)
    ensures Marker(status, lastUpdated, now).needsInspectionClass <==> IsStale(lastUpdated, now)
    ensures Marker(status, lastUpdated, now).borderPx == 3 <==> IsStale(lastUpdated, now)
    ensures !IsStale(lastUpdated, now) ==>
      Marker(status, lastUpdated, now).borderPx == 2 &&
      Marker(status, lastUpdated, now).borderColor == FreshBorderColor
  {
  }

  // ---------------------------------------------------------------- filter

  /** The name matches the search when it contains the trimmed term, both
      folded to lower case. The name itself is not trimmed. */
  predicate NameMatches(name: string, searchTerm: string) {
    Contains(Lower(name), Lower(Trim(searchTerm)))
  }

  /** The predicate passed to `assets.filter`. */
  predicate AssetMatches(a: Asset, searchTerm: string, statusFilter: string, showStaleOnly: bool, now: Timestamp) {
    && NameMatches(a.name, searchTerm)
    && (statusFilter == "All" || a.status == statusFilter)
    && (!showStaleOnly || IsStale(a.lastUpdated, now))
  }

  /** `filteredAssets`: an order-preserving subsequence of `assets` holding
      exactly the assets that match the search, the status filter and the
      stale-only toggle. */
  function FilteredAssets(assets: seq<Asset>, searchTerm: string, statusFilter: string, showStaleOnly: bool, now: Timestamp): (r: seq<Asset>)
    ensures IsSubsequence(r, assets)
    ensures forall i :: 0 <= i < |r| ==>
      && r[i] in assets
      && NameMatches(r[i].name, searchTerm)
      && (statusFilter == "All" || r[i].status == statusFilter)
      && (!showStaleOnly || IsStale(r[i].lastUpdated, now))
    ensures forall i :: 0 <= i < |assets| ==>
      (NameMatches(assets[i].name, searchTerm)
       && (statusFilter == "All" || assets[i].status == statusFilter)
       && (!showStaleOnly || IsStale(assets[i].lastUpdated, now)))
      ==> assets[i] in r
  {
    Filter(assets, a => AssetMatches(a, searchTerm, statusFilter, showStaleOnly, now))
  }

  /** A blank search term matches every name, whatever its case. */
  lemma BlankSearchMatchesAll(name: string, searchTerm: string)
    requires AllSpace(searchTerm)
    ensures NameMatches(name, searchTerm)
  {
    TrimEmptyIffAllSpace(searchTerm);
    assert Lower(Trim(searchTerm)) == [];
    ContainsAt(Lower(name), []);
    assert OccursAt(Lower(name), [], 0);
  }

  /** Searching is case-insensitive on both sides. */
  lemma SearchIgnoresCase(name: string, searchTerm: string)
    ensures NameMatches(Lower(name), searchTerm) <==> NameMatches(name, searchTerm)
    ensures NameMatches(name, Lower(searchTerm)) <==> NameMatches(name, searchTerm)
  {
    LowerIdempotent(name);
    LowerTrimCommute(searchTerm);
    LowerIdempotent(Trim(searchTerm));
  }

  /** Folding ASCII case never turns whitespace into non-whitespace or back,
      so it commutes with trimming. */
  lemma LowerTrimCommute(s: string)
    ensures Trim(Lower(s)) == Lower(Trim(s))
  {
    var ls := Lower(s);
    LowerAt(s);
    forall i | 0 <= i < |s| ensures IsSpace(s[i]) == IsSpace(ls[i]) {
      SpaceSurvivesLower(s[i]);
    }
    SameSpacesSameEnds(s, ls);
    var k := LeadingSpaces(s);
    var t := s[k..];
    var lt := ls[k..];
    forall i | 0 <= i < |t| ensures IsSpace(t[i]) == IsSpace(lt[i]) {
      SpaceSurvivesLower(t[i]);
    }
    SameSpacesSameEnds(t, lt);
    var r := Trim(s);
    var lr := Trim(ls);
    LowerAt(r);
    assert |lr| == |r|;
    forall i | 0 <= i < |r| ensures lr[i] == Lower(r)[i] {
      assert lr[i] == ls[k + i] && r[i] == s[k + i];
    }
  }

  lemma SpaceSurvivesLower(c: char)
    ensures IsSpace(LowerChar(c)) == IsSpace(c)
  {
  }

  /** With a blank search, status "All" and the stale-only toggle off, the
      filter returns the collection unchanged. */
  lemma {:induction false} FilterIdentity(assets: seq<Asset>, searchTerm: string, now: Timestamp)
    requires AllSpace(searchTerm)
    ensures FilteredAssets(assets, searchTerm, "All", false, now) == assets
  {
    forall i | 0 <= i < |assets|
      ensures AssetMatches(assets[i], searchTerm, "All", false, now)
    {
      BlankSearchMatchesAll(assets[i].name, searchTerm);
    }
    FilterKeepsAll(assets, a => AssetMatches(a, searchTerm, "All", false, now));
  }

  // ---------------------------------------------------------------- selection

  /** `assets.find(a => a.id === id)`: the index of the first asset with `id`. */
  function FindById(assets: seq<Asset>, id: int): (r: Option<nat>)
    ensures r.None? <==> forall i :: 0 <= i < |assets| ==> assets[i].id != id
    ensures r.Some? ==>
      && r.value < |assets|
      && assets[r.value].id == id
      && (forall j :: 0 <= j < r.value ==> assets[j].id != id)
  {
    if assets == [] then None
    else if assets[0].id == id then Some(0)
    else match FindById(assets[1..], id)
      case None => None
      case Some(k) => Some(k + 1)
  }

  /** `selectedAsset`: absent when nothing is selected, otherwise the first
      asset of the current collection with the selected id, if any. */
  function SelectedAsset(assets: seq<Asset>, selectedId: Option<int>): (r: Option<Asset>)
    ensures selectedId.None? ==> r.None?
    ensures selectedId.Some? ==>
      (r.None? <==> forall i :: 0 <= i < |assets| ==> assets[i].id != selectedId.value)
    ensures r.Some? ==> r.value in assets && r.value.id == selectedId.value
  {
    match selectedId
    case None => None
    case Some(id) =>
      match FindById(assets, id)
      case None => None
      case Some(k) => Some(assets[k])
  }

  /** With unique ids, the selected asset is the member carrying that id. */
  lemma SelectedIsMember(assets: seq<Asset>, a: Asset)
    requires UniqueIds(assets) && a in assets
    ensures SelectedAsset(assets, Some(a.id)) == Some(a)
  {
    var k :| 0 <= k < |assets| && assets[k] == a;
    var f := FindById(assets, a.id);
    assert assets[f.value].id == assets[k].id;
  }

  // ---------------------------------------------------------------- local append

  /** One asset after a confirmed log is appended to it. */
  function WithLog(a: Asset, log: InspectionLog): Asset {
    a.(inspectionLogs := Some(LogsOrEmpty(a) + [log]))
  }

  /** The success-path update of `assets`: every asset with `id` gains `log`
      at the end of its list (an absent list counts as empty); every other
      asset, the length and the order are unchanged. */
  function AppendLog(assets: seq<Asset>, id: int, log: InspectionLog): (r: seq<Asset>)
    ensures |r| == |assets|
    ensures forall i :: 0 <= i < |assets| && assets[i].id != id ==> r[i] == assets[i]
    ensures forall i :: 0 <= i < |assets| && assets[i].id == id ==>
      && LogsOrEmpty(r[i]) == LogsOrEmpty(assets[i]) + [log]
      && r[i].inspectionLogs.Some?
      && r[i].(inspectionLogs := assets[i].inspectionLogs) == assets[i]
  {
    if assets == [] then []
    else [if assets[0].id == id then WithLog(assets[0], log) else assets[0]] + AppendLog(assets[1..], id, log)
  }

  /** The append keeps every id, watermark and status in place. */
  lemma AppendKeepsFields(assets: seq<Asset>, id: int, log: InspectionLog, i: int)
    requires 0 <= i < |assets|
    ensures AppendLog(assets, id, log)[i].id == assets[i].id
    ensures AppendLog(assets, id, log)[i].lastUpdated == assets[i].lastUpdated
    ensures AppendLog(assets, id, log)[i].status == assets[i].status
    ensures AppendLog(assets, id, log)[i].name == assets[i].name
  {
    var r := AppendLog(assets, id, log);
    if assets[i].id == id {
      assert r[i].(inspectionLogs := assets[i].inspectionLogs) == assets[i];
    }
  }

  /** `find` by id only looks at the ids. */
  lemma {:induction false} FindByIdSeesOnlyIds(assets: seq<Asset>, other: seq<Asset>, id: int)
    requires |assets| == |other|
    requires forall i :: 0 <= i < |assets| ==> assets[i].id == other[i].id
    ensures FindById(assets, id) == FindById(other, id)
  {
    if assets != [] {
      FindByIdSeesOnlyIds(assets[1..], other[1..], id);
    }
  }

  /** After the append the selection still resolves to the same position,
      which now holds the new log at the end of its list. */
  lemma AppendKeepsSelection(assets: seq<Asset>, id: int, log: InspectionLog)
    ensures FindById(AppendLog(assets, id, log), id) == FindById(assets, id)
    ensures SelectedAsset(assets, Some(id)).Some? ==>
      SelectedAsset(AppendLog(assets, id, log), Some(id)) == Some(WithLog(SelectedAsset(assets, Some(id)).value, log))
  {
    var r := AppendLog(assets, id, log);
    forall i | 0 <= i < |assets| ensures assets[i].id == r[i].id {
      AppendKeepsFields(assets, id, log, i);
    }
    FindByIdSeesOnlyIds(assets, r, id);
    var f := FindById(assets, id);
    if f.Some? {
      assert r[f.value] == WithLog(assets[f.value], log);
    }
  }

  // ---------------------------------------------------------------- timeline

  /** The timeline of the detail panel: a sorted copy of the asset's logs,
      newest first; the asset itself is left as it is. */
  function Timeline(a: Asset): (r: seq<InspectionLog>)
    ensures NewestFirst(r)
    ensures multiset(r) == multiset(LogsOrEmpty(a))
  {
    SortByDateDesc(LogsOrEmpty(a))
  }
}
