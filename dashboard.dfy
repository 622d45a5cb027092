/** The dashboard counters (geoasset-client/src/Dashboard.tsx): pure
    reductions over the current asset collection, recomputed on every change. */
module Dashboard {
  import opened Domain
  import opened Sequences
  import opened Staleness
  import View

  /** `assets.length`. */
  function TotalAssets(assets: seq<Asset>): nat {
    |assets|
  }

  /** `assets.filter(a => a.status === 'Active').length`. */
  function ActiveAssets(assets: seq<Asset>): (n: nat)
    ensures n <= TotalAssets(assets)
    ensures n == TotalAssets(assets) <==> forall i :: 0 <= i < |assets| ==> assets[i].status == "Active"
  {
    var p := (a: Asset) => a.status == "Active";
    FilterFull(assets, p);
    |Filter(assets, p)|
  }

  /** `assets.filter(a => isStale(a.lastUpdated)).length`. It is positive
      exactly when some asset is stale. */
  function NeedsInspection(assets: seq<Asset>, now: Timestamp): (n: nat)
    ensures n <= TotalAssets(assets)
    ensures n > 0 <==> exists i :: 0 <= i < |assets| && IsStale(assets[i].lastUpdated, now)
  {
    var p := (a: Asset) => IsStale(a.lastUpdated, now);
    var r := Filter(assets, p);
    assert (exists i :: 0 <= i < |assets| && IsStale(assets[i].lastUpdated, now)) ==> r != [] by {
      if i :| 0 <= i < |assets| && IsStale(assets[i].lastUpdated, now) {
        assert assets[i] in r;
      }
    }
    assert r != [] ==> IsStale(r[0].lastUpdated, now) && r[0] in assets;
    |r|
  }

  /** `assets.reduce((sum, a) => sum + (a.inspectionLogs?.length ?? 0), 0)`. */
  function TotalInspections(assets: seq<Asset>): nat {
    if assets == [] then 0 else |LogsOrEmpty(assets[0])| + TotalInspections(assets[1..])
  }

  /** The four figures the dashboard shows. */
  datatype Metrics = Metrics(totalAssets: nat, activeAssets: nat, needsInspection: nat, totalInspections: nat)

  function ComputeMetrics(assets: seq<Asset>, now: Timestamp): Metrics {
    Metrics(TotalAssets(assets), ActiveAssets(assets), NeedsInspection(assets, now), TotalInspections(assets))
  }

  /** The needs-inspection card shows its alert styling and pulse marker. */
  predicate AlertShown(m: Metrics) {
    m.needsInspection > 0
  }

  /** An empty collection shows four zeros and no alert. */
  lemma EmptyMetrics(now: Timestamp)
    ensures ComputeMetrics([], now) == Metrics(0, 0, 0, 0)
    ensures !AlertShown(ComputeMetrics([], now))
  {
  }

  /** An asset with no watermark is always counted, so it always raises the alert. */
  lemma MissingWatermarkRaisesAlert(assets: seq<Asset>, now: Timestamp, i: int)
    requires 0 <= i < |assets| && assets[i].lastUpdated.None?
    ensures AlertShown(ComputeMetrics(assets, now))
  {
    assert IsStale(assets[i].lastUpdated, now);
  }

  /** As time passes the needs-inspection count never falls. */
  lemma {:induction false} NeedsInspectionGrowsWithTime(assets: seq<Asset>, now: Timestamp, later: Timestamp)
    requires now <= later
    ensures NeedsInspection(assets, now) <= NeedsInspection(assets, later)
  {
    forall i | 0 <= i < |assets|
      ensures IsStale(assets[i].lastUpdated, now) ==> IsStale(assets[i].lastUpdated, later)
    {
      StaleAsTimePasses(assets[i].lastUpdated, now, later);
    }
    FilterLengthMonotone(assets, (a: Asset) => IsStale(a.lastUpdated, now), (a: Asset) => IsStale(a.lastUpdated, later));
  }

  /** The inspection total is additive over concatenation. */
  lemma {:induction false} TotalInspectionsAppend(s: seq<Asset>, t: seq<Asset>)
    ensures TotalInspections(s + t) == TotalInspections(s) + TotalInspections(t)
  {
    if s == [] {
      assert s + t == t;
    } else {
      assert (s + t)[1..] == s[1..] + t;
      TotalInspectionsAppend(s[1..], t);
    }
  }

  /** How many assets carry `id`. */
  function CountWithId(assets: seq<Asset>, id: int): nat {
    |Filter(assets, (a: Asset) => a.id == id)|
  }

  /** The local append raises the inspection total by one per asset carrying
      the id. */
  lemma {:induction false} AppendLogAddsPerMatch(assets: seq<Asset>, id: int, log: InspectionLog)
    ensures TotalInspections(View.AppendLog(assets, id, log)) == TotalInspections(assets) + CountWithId(assets, id)
  {
    if assets != [] {
      var r := View.AppendLog(assets, id, log);
      assert r[1..] == View.AppendLog(assets[1..], id, log);
      AppendLogAddsPerMatch(assets[1..], id, log);
    }
  }

  /** In a collection with unique ids, an id that occurs occurs once. */
  lemma {:induction false} UniqueIdCountsOnce(assets: seq<Asset>, id: int)
    requires UniqueIds(assets)
    requires exists i :: 0 <= i < |assets| && assets[i].id == id
    ensures CountWithId(assets, id) == 1
  {
    if assets[0].id == id {
      assert forall i :: 0 <= i < |assets[1..]| ==> assets[1..][i].id != id by {
        forall i | 0 <= i < |assets[1..]| ensures assets[1..][i].id != id {
          assert assets[1..][i] == assets[i + 1];
        }
      }
    } else {
      var i :| 0 <= i < |assets| && assets[i].id == id;
      assert assets[1..][i - 1].id == id;
      UniqueIdCountsOnce(assets[1..], id);
    }
  }

  /** Appending one confirmed log to the selected asset of a collection with
      unique ids raises the inspection total by exactly one and leaves the
      other three counters as they were. */
  lemma AppendLogMetrics(assets: seq<Asset>, id: int, log: InspectionLog, now: Timestamp)
    requires UniqueIds(assets)
    requires exists i :: 0 <= i < |assets| && assets[i].id == id
    ensures var before := ComputeMetrics(assets, now);
      ComputeMetrics(View.AppendLog(assets, id, log), now) == before.(totalInspections := before.totalInspections + 1)
  {
    var r := View.AppendLog(assets, id, log);
    AppendLogAddsPerMatch(assets, id, log);
    UniqueIdCountsOnce(assets, id);
    forall i | 0 <= i < |assets|
      ensures r[i].status == assets[i].status && r[i].lastUpdated == assets[i].lastUpdated
    {
      View.AppendKeepsFields(assets, id, log, i);
    }
    FilterLengthPointwise(assets, (a: Asset) => a.status == "Active", r, (a: Asset) => a.status == "Active");
    FilterLengthPointwise(assets, (a: Asset) => IsStale(a.lastUpdated, now), r, (a: Asset) => IsStale(a.lastUpdated, now));
  }
}
