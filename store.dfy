/** The API's database (GeoAsset.Api/Data/AppDbContext.cs): the Assets and
    InspectionLogs tables keyed by identity ids, and the mandatory foreign key
    from a log to its asset with cascade delete. */
module Store {
  import opened Domain
  import opened Sequences

  /** A row of the Assets table. */
  datatype AssetRow = AssetRow(
    id: int,
    name: string,
    assetType: string,
    latitude: real,
    longitude: real,
    status: string,
    lastUpdated: Option<Timestamp>)

  /** The keys of `m` in `[lo, hi)`, ascending: the order in which a table is listed. */
  function KeysInRange<V>(m: map<int, V>, lo: int, hi: int): (ks: seq<int>)
    ensures forall i, j :: 0 <= i < j < |ks| ==> ks[i] < ks[j]
    ensures forall i :: 0 <= i < |ks| ==> ks[i] in m && lo <= ks[i] < hi
    ensures forall k :: k in m && lo <= k < hi ==> k in ks
    decreases hi - lo
  {
    if lo >= hi then []
    else if lo in m then [lo] + KeysInRange(m, lo + 1, hi)
    else KeysInRange(m, lo + 1, hi)
  }

  /** Every log refers to an asset that exists. */
  predicate LogsReferenceAssets(assets: map<int, AssetRow>, logs: map<int, InspectionLog>) {
    forall id :: id in logs ==> logs[id].assetId in assets
  }

  /** The log table after its owner `assetId` is deleted: every log of that
      asset is removed, every other log stays as it was. */
  function CascadeDelete(logs: map<int, InspectionLog>, assetId: int): (r: map<int, InspectionLog>)
    ensures forall id :: id in r <==> id in logs && logs[id].assetId != assetId
    ensures forall id :: id in r ==> r[id] == logs[id]
  {
    map id | id in logs && logs[id].assetId != assetId :: logs[id]
  }

  /** Deleting an asset together with its logs keeps every remaining log
      pointing at an existing asset. */
  lemma CascadeKeepsIntegrity(assets: map<int, AssetRow>, logs: map<int, InspectionLog>, assetId: int)
    requires LogsReferenceAssets(assets, logs)
    ensures LogsReferenceAssets(assets - {assetId}, CascadeDelete(logs, assetId))
  {
  }

  /** Without the cascade, deleting an asset that owns a log leaves that log dangling. */
  lemma DeleteWithoutCascadeDangles(assets: map<int, AssetRow>, logs: map<int, InspectionLog>, logId: int)
    requires logId in logs
    ensures !LogsReferenceAssets(assets - {logs[logId].assetId}, logs)
  {
  }

  /** The state behind `AppDbContext`: both tables and their identity counters. */
  class AppDb {
    var assets: map<int, AssetRow>
    var logs: map<int, InspectionLog>
    var nextAssetId: int
    var nextLogId: int

    /** The database's own guarantees: identity keys start at 1 and stay below
        the counter, each row is stored under its own id, and the foreign key
        from a log to its asset holds. */
    ghost predicate Valid()
      reads this
    {
      && 1 <= nextAssetId
      && 1 <= nextLogId
      && (forall id :: id in assets ==> 1 <= id < nextAssetId && assets[id].id == id)
      && (forall id :: id in logs ==> 1 <= id < nextLogId && logs[id].id == id)
      && LogsReferenceAssets(assets, logs)
    }

    /** No asset has a null `LastUpdated`. */
    predicate AllStamped()
      reads this
    {
      forall id :: id in assets ==> assets[id].lastUpdated.Some?
    }

    constructor()
      ensures Valid() && assets == map[] && logs == map[]
      ensures nextAssetId == 1 && nextLogId == 1
    {
      assets := map[];
      logs := map[];
      nextAssetId := 1;
      nextLogId := 1;
    }

    /** `Assets.Add` followed by a save: the row is stored under the next
        identity id, whatever id it carried. */
    method AddAsset(row: AssetRow) returns (stored: AssetRow)
      requires Valid()
      modifies this
      ensures Valid()
      ensures stored == row.(id := old(nextAssetId)) && stored.id !in old(assets)
      ensures assets == old(assets)[stored.id := stored] && logs == old(logs)
      ensures nextAssetId == old(nextAssetId) + 1 && nextLogId == old(nextLogId)
    {
      stored := row.(id := nextAssetId);
      assets := assets[stored.id := stored];
      nextAssetId := nextAssetId + 1;
    }

    /** Saving a modified asset: the row stored under its id is replaced. */
    method UpdateAsset(row: AssetRow)
      requires Valid() && row.id in assets
      modifies this
      ensures Valid()
      ensures assets == old(assets)[row.id := row] && logs == old(logs)
      ensures nextAssetId == old(nextAssetId) && nextLogId == old(nextLogId)
    {
      assets := assets[row.id := row];
    }

    /** `Assets.Remove` followed by a save: the row goes, and the cascade on
        the foreign key removes every log it owns. */
    method RemoveAsset(id: int)
      requires Valid() && id in assets
      modifies this
      ensures Valid()
      ensures assets == old(assets) - {id} && logs == CascadeDelete(old(logs), id)
      ensures nextAssetId == old(nextAssetId) && nextLogId == old(nextLogId)
    {
      CascadeKeepsIntegrity(assets, logs, id);
      assets := assets - {id};
      logs := CascadeDelete(logs, id);
    }

    /** `InspectionLogs.Add` followed by a save: the log is stored under the
        next identity id. The foreign key demands an existing owner. */
    method AddLog(log: InspectionLog) returns (stored: InspectionLog)
      requires Valid() && log.assetId in assets
      modifies this
      ensures Valid()
      ensures stored == log.(id := old(nextLogId)) && stored.id !in old(logs)
      ensures logs == old(logs)[stored.id := stored] && assets == old(assets)
      ensures nextLogId == old(nextLogId) + 1 && nextAssetId == old(nextAssetId)
    {
      stored := log.(id := nextLogId);
      logs := logs[stored.id := stored];
      nextLogId := nextLogId + 1;
    }

    /** Saving a modified log: the row stored under its id is replaced. */
    method UpdateLog(log: InspectionLog)
      requires Valid() && log.id in logs && log.assetId in assets
      modifies this
      ensures Valid()
      ensures logs == old(logs)[log.id := log] && assets == old(assets)
      ensures nextAssetId == old(nextAssetId) && nextLogId == old(nextLogId)
    {
      logs := logs[log.id := log];
    }

    /** `InspectionLogs.Remove` followed by a save. */
    method RemoveLog(id: int)
      requires Valid() && id in logs
      modifies this
      ensures Valid()
      ensures logs == old(logs) - {id} && assets == old(assets)
      ensures nextAssetId == old(nextAssetId) && nextLogId == old(nextLogId)
    {
      logs := logs - {id};
    }

    /** The Assets table in key order: every row exactly once. */
    function AssetRows(): (rows: seq<AssetRow>)
      reads this
      requires Valid()
      ensures forall i :: 0 <= i < |rows| ==> rows[i].id in assets && assets[rows[i].id] == rows[i]
      ensures forall id :: id in assets ==> assets[id] in rows
      ensures forall i, j :: 0 <= i < j < |rows| ==> rows[i].id < rows[j].id
    {
      var ks := KeysInRange(assets, 1, nextAssetId);
      ListingCovers(assets, ks);
      Listing(assets, ks)
    }

    /** The InspectionLogs table in key order: every row exactly once. */
    function LogRows(): (rows: seq<InspectionLog>)
      reads this
      requires Valid()
      ensures forall i :: 0 <= i < |rows| ==> rows[i].id in logs && logs[rows[i].id] == rows[i]
      ensures forall id :: id in logs ==> logs[id] in rows
      ensures forall i, j :: 0 <= i < j < |rows| ==> rows[i].id < rows[j].id
    {
      var ks := KeysInRange(logs, 1, nextLogId);
      ListingCovers(logs, ks);
      Listing(logs, ks)
    }

    /** The logs owned by `assetId`, in key order. */
    function LogsOf(assetId: int): (r: seq<InspectionLog>)
      reads this
      requires Valid()
      ensures forall i :: 0 <= i < |r| ==> r[i].assetId == assetId && r[i].id in logs && logs[r[i].id] == r[i]
      ensures forall id :: id in logs && logs[id].assetId == assetId ==> logs[id] in r
      ensures Distinct(r)
    {
      var rows := LogRows();
      FilterKeepsDistinct(rows, (l: InspectionLog) => l.assetId == assetId);
      Filter(rows, (l: InspectionLog) => l.assetId == assetId)
    }
  }

  /** The rows of `m` stored under the keys `ks`, in that order. */
  function Listing<V>(m: map<int, V>, ks: seq<int>): (rows: seq<V>)
    requires forall i :: 0 <= i < |ks| ==> ks[i] in m
    ensures |rows| == |ks|
    ensures forall i :: 0 <= i < |ks| ==> rows[i] == m[ks[i]]
  {
    seq(|ks|, i requires 0 <= i < |ks| => m[ks[i]])
  }

  /** Listing a table under keys that include all of its keys lists every row. */
  lemma ListingCovers<V>(m: map<int, V>, ks: seq<int>)
    requires forall i :: 0 <= i < |ks| ==> ks[i] in m
    requires forall k :: k in m ==> k in ks
    ensures forall k :: k in m ==> m[k] in Listing(m, ks)
  {
    var rows := Listing(m, ks);
    forall k | k in m ensures m[k] in rows {
      var i :| 0 <= i < |ks| && ks[i] == k;
      assert rows[i] == m[k];
    }
  }
}
