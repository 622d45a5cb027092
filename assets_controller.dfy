/** `AssetsController` (GeoAsset.Api/Controllers/AssetsController.cs): the
    REST endpoints over the Assets table. */
module AssetsApi {
  import opened Domain
  import opened Sequences
  import opened Staleness
  import opened Store
  import opened Http
  import Ordering

  /** The watermark an asset is saved with: a missing `LastUpdated` becomes
      the current time, a present one is kept as sent. */
  function Stamp(lastUpdated: Option<Timestamp>, now: Timestamp): (r: Option<Timestamp>)
    ensures r.Some?
    ensures lastUpdated.Some? ==> r == lastUpdated
    ensures lastUpdated.None? ==> r == Some(now)
  {
    if lastUpdated.None? then Some(now) else lastUpdated
  }

  /** A stamped watermark is never stamped again: saving the row a second
      time, at any later moment, keeps the watermark it got the first time. */
  lemma StampIdempotent(lastUpdated: Option<Timestamp>, now: Timestamp, later: Timestamp)
    ensures Stamp(Stamp(lastUpdated, now), later) == Stamp(lastUpdated, now)
  {
  }

  /** An asset saved without a watermark is fresh at the moment it is saved,
      while one saved with an old watermark keeps whatever staleness it had. */
  lemma StampedNullIsFresh(lastUpdated: Option<Timestamp>, now: Timestamp)
    ensures lastUpdated.None? ==> !IsStale(Stamp(lastUpdated, now), now)
    ensures lastUpdated.Some? ==> IsStale(Stamp(lastUpdated, now), now) == IsStale(lastUpdated, now)
  {
  }

  class AssetsController {
    const context: AppDb

    constructor(context: AppDb)
      ensures this.context == context
    {
      this.context := context;
    }

    /** The JSON body for a stored row: its log collection is loaded when
        `includeInspectionLogs` is set and is the empty list otherwise. */
    function AsResource(row: AssetRow, includeInspectionLogs: bool): (a: Asset)
      reads context
      requires context.Valid()
      ensures a.id == row.id && a.name == row.name && a.assetType == row.assetType
      ensures a.latitude == row.latitude && a.longitude == row.longitude
      ensures a.status == row.status && a.lastUpdated == row.lastUpdated
      ensures a.inspectionLogs.Some? && Distinct(a.inspectionLogs.value)
      ensures includeInspectionLogs ==> forall l :: l in a.inspectionLogs.value <==>
        l.id in context.logs && context.logs[l.id] == l && l.assetId == row.id
      ensures !includeInspectionLogs ==> a.inspectionLogs.value == []
    {
      Asset(row.id, row.name, row.assetType, row.latitude, row.longitude, row.status, row.lastUpdated,
            Some(if includeInspectionLogs then context.LogsOf(row.id) else []))
    }

    /** The JSON bodies of `rows`, in order. */
    function Resources(rows: seq<AssetRow>, includeInspectionLogs: bool): (views: seq<Asset>)
      reads context
      requires context.Valid()
      ensures |views| == |rows|
      ensures forall i :: 0 <= i < |rows| ==> views[i] == AsResource(rows[i], includeInspectionLogs)
    {
      seq(|rows|, i requires 0 <= i < |rows| && context.Valid() reads context =>
        AsResource(rows[i], includeInspectionLogs))
    }

    /** `GET api/Assets`: every stored asset exactly once, ordered by name. */
    function GetAssets(includeInspectionLogs: bool): (r: seq<Asset>)
      reads context
      requires context.Valid()
      ensures Ordering.ByName(r)
      ensures UniqueIds(r)
      ensures forall i :: 0 <= i < |r| ==>
        r[i].id in context.assets && r[i] == AsResource(context.assets[r[i].id], includeInspectionLogs)
      ensures forall id :: id in context.assets ==> AsResource(context.assets[id], includeInspectionLogs) in r
    {
      var rows := context.AssetRows();
      var views := Resources(rows, includeInspectionLogs);
      var r := Ordering.SortByName(views);
      ListingUnique(rows, views, r);
      ListingComplete(rows, views, r, includeInspectionLogs);
      r
    }

    /** The sorted listing holds exactly the stored assets. */
    lemma ListingComplete(rows: seq<AssetRow>, views: seq<Asset>, r: seq<Asset>, includeInspectionLogs: bool)
      requires context.Valid()
      requires forall i :: 0 <= i < |rows| ==> rows[i].id in context.assets && context.assets[rows[i].id] == rows[i]
      requires forall id :: id in context.assets ==> context.assets[id] in rows
      requires |views| == |rows|
      requires forall i :: 0 <= i < |rows| ==> views[i] == AsResource(rows[i], includeInspectionLogs)
      requires multiset(r) == multiset(views)
      ensures forall i :: 0 <= i < |r| ==>
        r[i].id in context.assets && r[i] == AsResource(context.assets[r[i].id], includeInspectionLogs)
      ensures forall id :: id in context.assets ==> AsResource(context.assets[id], includeInspectionLogs) in r
    {
      forall i | 0 <= i < |r|
        ensures r[i].id in context.assets && r[i] == AsResource(context.assets[r[i].id], includeInspectionLogs)
      {
        assert r[i] in multiset(views);
        var k :| 0 <= k < |views| && views[k] == r[i];
        assert rows[k].id in context.assets;
      }
      forall id | id in context.assets ensures AsResource(context.assets[id], includeInspectionLogs) in r {
        var k :| 0 <= k < |rows| && rows[k] == context.assets[id];
        assert views[k] in multiset(r);
      }
    }
    /** `GET api/Assets/{id}`: the stored asset, or NotFound. */
    function GetAsset(id: int, includeInspectionLogs: bool): (r: Response<Asset>)
      reads context
      requires context.Valid()
      ensures r.NotFound? <==> id !in context.assets
      ensures r.Ok? || r.NotFound?
      ensures r.Ok? ==> r.value.id == id && r.value == AsResource(context.assets[id], includeInspectionLogs)
    {
      if id in context.assets then Ok(AsResource(context.assets[id], includeInspectionLogs)) else NotFound
    }

    /** The single-asset read agrees with the listing: it finds exactly the
        listed assets, and returns the listed entry. */
    lemma GetAssetAgreesWithListing(id: int, includeInspectionLogs: bool)
      requires context.Valid()
      ensures GetAsset(id, includeInspectionLogs).Ok? <==>
        exists i :: 0 <= i < |GetAssets(includeInspectionLogs)| && GetAssets(includeInspectionLogs)[i].id == id
      ensures GetAsset(id, includeInspectionLogs).Ok? ==> GetAsset(id, includeInspectionLogs).value in GetAssets(includeInspectionLogs)
    {
      var all := GetAssets(includeInspectionLogs);
      if id in context.assets {
        var k :| 0 <= k < |all| && all[k] == AsResource(context.assets[id], includeInspectionLogs);
        assert all[k].id == id;
      }
    }

    /** `AssetExists`: the `Any` query over the table, which agrees with a
        lookup by key. */
    predicate AssetExists(id: int)
      reads context
      requires context.Valid()
      ensures AssetExists(id) <==> id in context.assets
    {
      var rows := context.AssetRows();
      assert id in context.assets ==> exists i :: 0 <= i < |rows| && rows[i].id == id;
      exists i :: 0 <= i < |rows| && rows[i].id == id
    }

    /** `POST api/Assets`: stores the body under a fresh identity id, with a
        missing watermark replaced by `now`, and answers Created with it. */
    method PostAsset(asset: AssetRow, now: Timestamp) returns (r: Response<Asset>)
      requires context.Valid()
      modifies context
      ensures context.Valid()
      ensures var id := old(context.nextAssetId);
        var row := asset.(id := id, lastUpdated := Stamp(asset.lastUpdated, now));
        && id !in old(context.assets)
        && context.assets == old(context.assets)[id := row]
        && context.logs == old(context.logs)
        && context.nextAssetId == id + 1
        && context.nextLogId == old(context.nextLogId)
        && r == Created(AsResource(row, false))
      ensures old(context.AllStamped()) ==> context.AllStamped()
      ensures r.Created? ==> GetAsset(r.value.id, false) == Ok(r.value)
    {
      var row := context.AddAsset(asset.(lastUpdated := Stamp(asset.lastUpdated, now)));
      r := Created(AsResource(row, false));
    }

    /** `PUT api/Assets/{id}`: a body whose id differs is refused, a missing
        row is NotFound, otherwise the row is replaced by the body (a missing
        watermark becoming `now`) and its logs are left alone. */
    method PutAsset(id: int, asset: AssetRow, now: Timestamp) returns (r: Response<()>)
      requires context.Valid()
      modifies context
      ensures context.Valid()
      ensures context.logs == old(context.logs)
      ensures context.nextAssetId == old(context.nextAssetId) && context.nextLogId == old(context.nextLogId)
      ensures id != asset.id ==> r == BadRequest("") && context.assets == old(context.assets)
      ensures id == asset.id && id !in old(context.assets) ==> r == NotFound && context.assets == old(context.assets)
      ensures id == asset.id && id in old(context.assets) ==>
        && r == NoContent
        && context.assets == old(context.assets)[id := asset.(lastUpdated := Stamp(asset.lastUpdated, now))]
      ensures old(context.AllStamped()) ==> context.AllStamped()
      ensures r.NoContent? ==> GetAsset(id, false) == Ok(AsResource(asset.(lastUpdated := Stamp(asset.lastUpdated, now)), false))
    {
      if id != asset.id {
        return BadRequest("");
      }
      if !AssetExists(id) {
        return NotFound;
      }
      context.UpdateAsset(asset.(lastUpdated := Stamp(asset.lastUpdated, now)));
      r := NoContent;
    }

    /** `DELETE api/Assets/{id}`: NotFound for a missing row; otherwise the row
        goes and the database's cascade removes every log it owns. */
    method DeleteAsset(id: int) returns (r: Response<()>)
      requires context.Valid()
      modifies context
      ensures context.Valid()
      ensures context.nextAssetId == old(context.nextAssetId) && context.nextLogId == old(context.nextLogId)
      ensures id !in old(context.assets) ==>
        r == NotFound && context.assets == old(context.assets) && context.logs == old(context.logs)
      ensures id in old(context.assets) ==>
        && r == NoContent
        && context.assets == old(context.assets) - {id}
        && context.logs == CascadeDelete(old(context.logs), id)
      ensures old(context.AllStamped()) ==> context.AllStamped()
      ensures GetAsset(id, false) == NotFound && context.LogsOf(id) == []
    {
      if id !in context.assets {
        return NotFound;
      }
      context.RemoveAsset(id);
      r := NoContent;
    }
  }

  /** Reordering a listing whose ids strictly increase repeats no id. */
  lemma ListingUnique(rows: seq<AssetRow>, views: seq<Asset>, r: seq<Asset>)
    requires |views| == |rows|
    requires forall i :: 0 <= i < |rows| ==> views[i].id == rows[i].id
    requires forall i, j :: 0 <= i < j < |rows| ==> rows[i].id < rows[j].id
    requires multiset(r) == multiset(views)
    ensures UniqueIds(r)
  {
    assert Distinct(views) by {
      forall i, j | 0 <= i < j < |views| ensures views[i] != views[j] {
        assert views[i].id == rows[i].id < rows[j].id == views[j].id;
      }
    }
    forall i, j | 0 <= i < j < |r| ensures r[i].id != r[j].id {
      assert r[i] in multiset(views) && r[j] in multiset(views);
      var a :| 0 <= a < |views| && views[a] == r[i];
      var b :| 0 <= b < |views| && views[b] == r[j];
      if a == b {
        RepeatCountsTwice(r, i, j);
        DistinctCountsAtMostOnce(views, r[i]);
      }
    }
  }
}
