/** The entities shared by the API and the browser client: an asset and the
    inspection logs it owns. */
module Domain {

  datatype Option<+T> = None | Some(value: T)

  /** An instant, in milliseconds since the Unix epoch. Dates typed into the
      client form and `DateTime` values on the server are both read as one. */
  type Timestamp = int

  /** One inspection of one asset. `assetId` is a mandatory reference to the
      owning asset. */
  datatype InspectionLog = InspectionLog(
    id: int,
    assetId: int,
    inspectionDate: Timestamp,
    inspectorName: string,
    notes: string)

  /** An asset as the API serialises it and the client holds it. The client
      treats both the watermark `lastUpdated` and the nested log list as
      optional. */
  datatype Asset = Asset(
    id: int,
    name: string,
    assetType: string,
    latitude: real,
    longitude: real,
    status: string,
    lastUpdated: Option<Timestamp>,
    inspectionLogs: Option<seq<InspectionLog>>)

  /** The asset's logs, an absent list read as empty (`a.inspectionLogs ?? []`). */
  function LogsOrEmpty(a: Asset): seq<InspectionLog> {
    match a.inspectionLogs
    case None => []
    case Some(logs) => logs
  }

  /** No two assets of the collection share an id, as in any list the API returns. */
  predicate UniqueIds(assets: seq<Asset>) {
    forall i, j :: 0 <= i < j < |assets| ==> assets[i].id != assets[j].id
  }
}
