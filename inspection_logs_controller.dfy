/** `InspectionLogsController` (GeoAsset.Api/Controllers/InspectionLogsController.cs):
    the REST endpoints over the InspectionLogs table, including the rule that
    recording an inspection advances its asset's watermark. */
module InspectionLogsApi {
  import opened Domain
  import opened Sequences
  import opened Staleness
  import opened Store
  import opened Http
  import Ordering

  /** The message of the BadRequest for a log whose asset does not exist. */
  const UnknownAssetMessage := "Asset with the specified AssetId does not exist."

  /** The watermark rule: `if (date > lastUpdated) lastUpdated = date`, with
      C#'s lifted comparison, which is false when `lastUpdated` is null. A
      present watermark becomes the later of itself and the date; an absent
      one stays absent. */
  function RaiseWatermark(lastUpdated: Option<Timestamp>, date: Timestamp): (r: Option<Timestamp>)
    ensures lastUpdated.None? ==> r.None?
    ensures lastUpdated.Some? ==>
      && r.Some?
      && r.value >= lastUpdated.value
      && r.value >= date
      && (r.value == lastUpdated.value || r.value == date)
  {
    if lastUpdated.Some? && date > lastUpdated.value then Some(date) else lastUpdated
  }

  /** Two recorded inspections leave the same watermark in either order. */
  lemma WatermarkOrderIndependent(w: Option<Timestamp>, d1: Timestamp, d2: Timestamp)
    ensures RaiseWatermark(RaiseWatermark(w, d1), d2) == RaiseWatermark(RaiseWatermark(w, d2), d1)
  {
  }

  class InspectionLogsController {
    const context: AppDb

    constructor(context: AppDb)
      ensures this.context == context
    {
      this.context := context;
    }

    /** `GET api/InspectionLogs`: every stored log exactly once. */
    function GetInspectionLogs(): (r: seq<InspectionLog>)
      reads context
      requires context.Valid()
      ensures Distinct(r)
      ensures forall i :: 0 <= i < |r| ==> r[i].id in context.logs && context.logs[r[i].id] == r[i]
      ensures forall id :: id in context.logs ==> context.logs[id] in r
    {
      context.LogRows()
    }

    /** `GET api/InspectionLogs/{id}`: the stored log, or NotFound. */
    function GetInspectionLog(id: int): (r: Response<InspectionLog>)
      reads context
      requires context.Valid()
      ensures r.NotFound? <==> id !in context.logs
      ensures r.Ok? || r.NotFound?
      ensures r.Ok? ==> r.value.id == id && r.value == context.logs[id] && r.value in GetInspectionLogs()
    {
      if id in context.logs then Ok(context.logs[id]) else NotFound
    }

    /** `GET api/InspectionLogs/by-asset/{assetId}`: exactly the logs owned by
        `assetId`, each once, newest inspection first. An unknown asset has an
        empty history rather than NotFound. */
    function GetInspectionLogsByAsset(assetId: int): (r: seq<InspectionLog>)
      reads context
      requires context.Valid()
      ensures Ordering.NewestFirst(r)
      ensures Distinct(r)
      ensures forall i :: 0 <= i < |r| ==>
        r[i].assetId == assetId && r[i].id in context.logs && context.logs[r[i].id] == r[i]
      ensures forall id :: id in context.logs && context.logs[id].assetId == assetId ==> context.logs[id] in r
      ensures assetId !in context.assets ==> r == []
    {
      var owned := context.LogsOf(assetId);
      var r := Ordering.SortByDateDesc(owned);
      SortedHistory(assetId, owned, r);
      r
    }

    /** The facts `GetInspectionLogsByAsset` draws from the history it sorts. */
    lemma SortedHistory(assetId: int, owned: seq<InspectionLog>, r: seq<InspectionLog>)
      requires context.Valid()
      requires owned == context.LogsOf(assetId)
      requires multiset(r) == multiset(owned)
      ensures Distinct(r)
      ensures forall i :: 0 <= i < |r| ==>
        r[i].assetId == assetId && r[i].id in context.logs && context.logs[r[i].id] == r[i]
      ensures forall id :: id in context.logs && context.logs[id].assetId == assetId ==> context.logs[id] in r
      ensures assetId !in context.assets ==> r == []
    {
      PermutationKeepsDistinct(owned, r);
      forall i | 0 <= i < |r|
        ensures r[i].assetId == assetId && r[i].id in context.logs && context.logs[r[i].id] == r[i]
      {
        assert r[i] in multiset(owned);
      }
      forall id | id in context.logs && context.logs[id].assetId == assetId ensures context.logs[id] in r {
        assert context.logs[id] in multiset(owned);
      }
    }

    /** `InspectionLogExists`: the `Any` query over the table, which agrees
        with a lookup by key. */
    predicate InspectionLogExists(id: int)
      reads context
      requires context.Valid()
      ensures InspectionLogExists(id) <==> id in context.logs
    {
      var rows := context.LogRows();
      assert id in context.logs ==> exists i :: 0 <= i < |rows| && rows[i].id == id;
      exists i :: 0 <= i < |rows| && rows[i].id == id
    }

    /** `POST api/InspectionLogs`: a log for an unknown asset is refused with a
        message and nothing changes. Otherwise the log is stored under a fresh
        identity id and its asset's watermark is raised to the inspection date
        when the date is later; a null watermark stays null, because C#'s
        lifted `>` is false against null. */
    method PostInspectionLog(inspectionLog: InspectionLog) returns (r: Response<InspectionLog>)
      requires context.Valid()
      modifies context
      ensures context.Valid()
      ensures context.nextAssetId == old(context.nextAssetId)
      ensures inspectionLog.assetId !in old(context.assets) ==>
        && r == BadRequest(UnknownAssetMessage)
        && context.assets == old(context.assets)
        && context.logs == old(context.logs)
        && context.nextLogId == old(context.nextLogId)
      ensures inspectionLog.assetId in old(context.assets) ==>
        var id := old(context.nextLogId);
        var log := inspectionLog.(id := id);
        var owner := old(context.assets)[inspectionLog.assetId];
        && id !in old(context.logs)
        && r == Created(log)
        && context.logs == old(context.logs)[id := log]
        && context.nextLogId == id + 1
        && context.assets == old(context.assets)[owner.id := owner.(lastUpdated := RaiseWatermark(owner.lastUpdated, log.inspectionDate))]
      ensures r.Created? ==>
        && GetInspectionLog(r.value.id) == Ok(r.value)
        && r.value in GetInspectionLogsByAsset(r.value.assetId)
      ensures old(context.AllStamped()) ==> context.AllStamped()
    {
      if inspectionLog.assetId !in context.assets {
        return BadRequest(UnknownAssetMessage);
      }
      var owner := context.assets[inspectionLog.assetId];
      var log := context.AddLog(inspectionLog);
      context.UpdateAsset(owner.(lastUpdated := RaiseWatermark(owner.lastUpdated, log.inspectionDate)));
      r := Created(log);
    }

    /** `PUT api/InspectionLogs/{id}`: a body whose id differs is refused, then
        a body naming an unknown asset, then a missing row is NotFound;
        otherwise the row is replaced by the body. The owner's watermark is
        not touched. */
    method PutInspectionLog(id: int, inspectionLog: InspectionLog) returns (r: Response<()>)
      requires context.Valid()
      modifies context
      ensures context.Valid()
      ensures context.assets == old(context.assets)
      ensures context.nextAssetId == old(context.nextAssetId) && context.nextLogId == old(context.nextLogId)
      ensures id != inspectionLog.id ==> r == BadRequest("") && context.logs == old(context.logs)
      ensures id == inspectionLog.id && inspectionLog.assetId !in old(context.assets) ==>
        r == BadRequest(UnknownAssetMessage) && context.logs == old(context.logs)
      ensures id == inspectionLog.id && inspectionLog.assetId in old(context.assets) && id !in old(context.logs) ==>
        r == NotFound && context.logs == old(context.logs)
      ensures id == inspectionLog.id && inspectionLog.assetId in old(context.assets) && id in old(context.logs) ==>
        r == NoContent && context.logs == old(context.logs)[id := inspectionLog]
      ensures r.NoContent? ==> GetInspectionLog(id) == Ok(inspectionLog)
    {
      if id != inspectionLog.id {
        return BadRequest("");
      }
      if inspectionLog.assetId !in context.assets {
        return BadRequest(UnknownAssetMessage);
      }
      if !InspectionLogExists(id) {
        return NotFound;
      }
      context.UpdateLog(inspectionLog);
      r := NoContent;
    }

    /** `DELETE api/InspectionLogs/{id}`: NotFound for a missing row;
        otherwise the row goes. The owner's watermark is not lowered. */
    method DeleteInspectionLog(id: int) returns (r: Response<()>)
      requires context.Valid()
      modifies context
      ensures context.Valid()
      ensures context.assets == old(context.assets)
      ensures context.nextAssetId == old(context.nextAssetId) && context.nextLogId == old(context.nextLogId)
      ensures id !in old(context.logs) ==> r == NotFound && context.logs == old(context.logs)
      ensures id in old(context.logs) ==> r == NoContent && context.logs == old(context.logs) - {id}
      ensures GetInspectionLog(id) == NotFound
    {
      if id !in context.logs {
        return NotFound;
      }
      context.RemoveLog(id);
      r := NoContent;
    }
  }

  /** Recording an inspection never makes a fresh asset stale. */
  lemma RecordingNeverStales(lastUpdated: Option<Timestamp>, date: Timestamp, now: Timestamp)
    ensures !IsStale(lastUpdated, now) ==> !IsStale(RaiseWatermark(lastUpdated, date), now)
  {
    if lastUpdated.Some? {
      StaleAntitoneInWatermark(lastUpdated.value, RaiseWatermark(lastUpdated, date).value, now);
    }
  }

  /** Recording an inspection dated within the last thirty days refreshes an
      asset that has a watermark... */
  lemma RecentInspectionRefreshes(lastUpdated: Option<Timestamp>, date: Timestamp, now: Timestamp)
    requires lastUpdated.Some? && date >= Cutoff(now)
    ensures !IsStale(RaiseWatermark(lastUpdated, date), now)
  {
  }

  /** ...but never one whose watermark is null: it stays stale whatever is recorded. */
  lemma NullWatermarkStaysStale(date: Timestamp, now: Timestamp)
    ensures RaiseWatermark(None, date) == None
    ensures IsStale(RaiseWatermark(None, date), now)
  {
  }
}
