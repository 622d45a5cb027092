/** The React state of the client's main view (geoasset-client/src/App.tsx)
    and the handlers that update it: selection from the list, the map and the
    close button, and the quick-add inspection form. */
module App {
  import opened Domain
  import opened Text
  import opened View

  /** The quick-add form's fields; the date is the day as entered. */
  datatype LogForm = LogForm(inspectorName: string, notes: string, inspectionDate: Timestamp)

  /** The form's initial and reset value: empty text and today's date. */
  function EmptyForm(today: Timestamp): LogForm {
    LogForm("", "", today)
  }

  /** The body posted to create an inspection log. */
  datatype LogPayload = LogPayload(assetId: int, inspectorName: string, notes: string, inspectionDate: Timestamp)

  /** The server's answer to the post: the stored log, or a failure carrying
      the `message` field of the error body when there is one. */
  datatype PostReply = Confirmed(log: InspectionLog) | Failed(message: Option<string>)

  /** The map recentering command issued when an asset is selected from the list. */
  datatype FlyTo = FlyTo(latitude: real, longitude: real, zoom: int)

  const SelectZoom: int := 15
  const FallbackError := "Failed to add inspection log."

  /** The message shown after a failed post: the server's message when it is
      present and non-empty, the generic fallback otherwise. */
  function FailureMessage(message: Option<string>): (r: string)
    ensures r != ""
    ensures message.Some? && message.value != "" ==> r == message.value
    ensures message.None? || message.value == "" ==> r == FallbackError
  {
    if message.Some? && message.value != "" then message.value else FallbackError
  }

  class AppState {
    var assets: seq<Asset>
    var selectedAssetId: Option<int>
    var addLogForm: LogForm
    var addLogSubmitting: bool
    var addLogError: Option<string>

    constructor(today: Timestamp)
      ensures assets == [] && selectedAssetId == None
      ensures addLogForm == EmptyForm(today) && !addLogSubmitting && addLogError == None
      ensures SelectedAsset() == None
    {
      assets := [];
      selectedAssetId := None;
      addLogForm := EmptyForm(today);
      addLogSubmitting := false;
      addLogError := None;
    }

    /** The derived `selectedAsset`, resolved against the current collection. */
    function SelectedAsset(): Option<Asset>
      reads this
    {
      View.SelectedAsset(assets, selectedAssetId)
    }

    /** The initial load stores the fetched collection. */
    method LoadAssets(data: seq<Asset>)
      modifies this`assets
      ensures assets == data
    {
      assets := data;
    }

    /** `handleSelectAsset`: selects the asset and recenters the map on it. */
    method SelectAsset(asset: Asset) returns (cmd: FlyTo)
      modifies this`selectedAssetId
      ensures selectedAssetId == Some(asset.id)
      ensures cmd == FlyTo(asset.latitude, asset.longitude, SelectZoom)
      ensures asset in assets && UniqueIds(assets) ==> SelectedAsset() == Some(asset)
    {
      selectedAssetId := Some(asset.id);
      cmd := FlyTo(asset.latitude, asset.longitude, SelectZoom);
      if asset in assets && UniqueIds(assets) {
        SelectedIsMember(assets, asset);
      }
    }

    /** A pointer click on a list item. */
    method ListItemClick(asset: Asset) returns (cmd: FlyTo)
      modifies this`selectedAssetId
      ensures selectedAssetId == Some(asset.id)
      ensures cmd == FlyTo(asset.latitude, asset.longitude, SelectZoom)
    {
      cmd := SelectAsset(asset);
    }

    /** A key press on a focused list item: Enter and Space select exactly as
      a click does, every other key does nothing. */
    method ListItemKeyDown(asset: Asset, key: string) returns (cmd: Option<FlyTo>)
      modifies this`selectedAssetId
      ensures key == "Enter" || key == " " ==>
        selectedAssetId == Some(asset.id) && cmd == Some(FlyTo(asset.latitude, asset.longitude, SelectZoom))
      ensures key != "Enter" && key != " " ==> selectedAssetId == old(selectedAssetId) && cmd == None
    {
      if key == "Enter" || key == " " {
        var c := SelectAsset(asset);
        cmd := Some(c);
      } else {
        cmd := None;
      }
    }

    /** A click on a map marker selects the asset without recentering the map. */
    method MarkerClick(asset: Asset)
      modifies this`selectedAssetId
      ensures selectedAssetId == Some(asset.id)
      ensures asset in assets && UniqueIds(assets) ==> SelectedAsset() == Some(asset)
    {
      selectedAssetId := Some(asset.id);
      if asset in assets && UniqueIds(assets) {
        SelectedIsMember(assets, asset);
      }
    }

    /** The detail panel's close button: from any state, nothing is selected. */
    method CloseDetail()
      modifies this`selectedAssetId
      ensures selectedAssetId == None && SelectedAsset() == None
    {
      selectedAssetId := None;
    }

    /** The first half of `handleAddLogSubmit`, up to the post. With no
      selected asset nothing happens; otherwise the error is cleared, the form
      is disabled and the payload for the selected asset is built from the
      trimmed name and notes and the date as entered. */
    method BeginAddLog() returns (payload: Option<LogPayload>)
      modifies this`addLogSubmitting, this`addLogError
      ensures old(SelectedAsset()).None? ==>
        payload.None? && addLogSubmitting == old(addLogSubmitting) && addLogError == old(addLogError)
      ensures old(SelectedAsset()).Some? ==>
        && payload == Some(LogPayload(old(SelectedAsset()).value.id,
                                      Trim(addLogForm.inspectorName),
                                      Trim(addLogForm.notes),
                                      addLogForm.inspectionDate))
        && addLogSubmitting
        && addLogError.None?
    {
      var selected := SelectedAsset();
      if selected.None? {
        return None;
      }
      addLogError := None;
      addLogSubmitting := true;
      payload := Some(LogPayload(selected.value.id, Trim(addLogForm.inspectorName), Trim(addLogForm.notes), addLogForm.inspectionDate));
    }

    /** The second half of `handleAddLogSubmit`, once the server has answered
      the post for `assetId`. On confirmation the returned log is appended to
      every asset with that id and the form is reset; on failure the error is
      shown and the collection and form are left for a retry. Either way the
      form is enabled again. The watermark `lastUpdated` is not advanced
      locally. */
    method CompleteAddLog(assetId: int, reply: PostReply, today: Timestamp)
      modifies this`assets, this`addLogForm, this`addLogSubmitting, this`addLogError
      ensures !addLogSubmitting
      ensures reply.Confirmed? ==>
        && assets == AppendLog(old(assets), assetId, reply.log)
        && addLogForm == EmptyForm(today)
        && addLogError == old(addLogError)
      ensures reply.Failed? ==>
        && assets == old(assets)
        && addLogForm == old(addLogForm)
        && addLogError == Some(FailureMessage(reply.message))
    {
      match reply {
        case Confirmed(log) =>
          assets := AppendLog(assets, assetId, log);
          addLogForm := EmptyForm(today);
        case Failed(message) =>
          addLogError := Some(FailureMessage(message));
      }
      addLogSubmitting := false;
    }

    /** `handleAddLogSubmit` run to completion against the server's `reply`. */
    method HandleAddLogSubmit(reply: PostReply, today: Timestamp) returns (payload: Option<LogPayload>)
      modifies this`assets, this`addLogForm, this`addLogSubmitting, this`addLogError
      ensures selectedAssetId == old(selectedAssetId)
      ensures old(SelectedAsset()).None? ==>
        && payload.None?
        && assets == old(assets) && addLogForm == old(addLogForm)
        && addLogSubmitting == old(addLogSubmitting) && addLogError == old(addLogError)
      ensures old(SelectedAsset()).Some? ==>
        var target := old(SelectedAsset()).value;
        && payload == Some(LogPayload(target.id, Trim(old(addLogForm).inspectorName),
                                      Trim(old(addLogForm).notes), old(addLogForm).inspectionDate))
        && !addLogSubmitting
        && (reply.Confirmed? ==>
              && assets == AppendLog(old(assets), target.id, reply.log)
              && addLogForm == EmptyForm(today)
              && addLogError == None
              && SelectedAsset() == Some(WithLog(target, reply.log)))
        && (reply.Failed? ==>
              && assets == old(assets)
              && addLogForm == old(addLogForm)
              && addLogError == Some(FailureMessage(reply.message)))
    {
      payload := BeginAddLog();
      if payload.Some? {
        if reply.Confirmed? {
          AppendKeepsSelection(assets, payload.value.assetId, reply.log);
        }
        CompleteAddLog(payload.value.assetId, reply, today);
      }
    }
  }
}
