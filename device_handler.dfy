/** The device endpoints of the HTTP server: `GET /api/device/info` reports
    the device-info section and `PATCH /api/device/info` renames the device
    with one store update. */
module DeviceHandler {
  import opened ConfigStore
  import opened Json

  const DEVICE_NAME_MAX_LEN: nat := 32

  const RENAME_OK: string := "device name updated"

  /** The body of `patchDeviceInfoHandler` between parsing and the store
      call: `device_name` must be a string shorter than
      `DEVICE_NAME_MAX_LEN` and becomes the new name as it is; the firmware
      version is carried over. A missing name is refused; an empty one is
      not. */
  function MergeDeviceInfo(current: DeviceInfo, doc: Json): (r: Merge<DeviceInfo>)
    ensures r.Accept? <==>
      Member(doc, "device_name").Some? && Member(doc, "device_name").value.JString? &&
      |Member(doc, "device_name").value.s| < DEVICE_NAME_MAX_LEN
    ensures r.Accept? ==>
      Member(doc, "device_name") == Some(JString(r.value.deviceName)) &&
      r.value.firmwareVersion == current.firmwareVersion
    ensures r.Reject? ==> r.message == "Invalid device_name"
  {
    match Member(doc, "device_name")
    case Some(JString(name)) =>
      if |name| < DEVICE_NAME_MAX_LEN then Accept(current.(deviceName := name))
      else Reject("Invalid device_name")
    case _ => Reject("Invalid device_name")
  }

  /** The whole PATCH handler as a function of the current device info and
      the received body. */
  function DeviceInfoRequest(current: DeviceInfo, body: Body): (r: Merge<DeviceInfo>)
    ensures body == NoData ==> r == Reject("No data")
    ensures body == Unparsable ==> r == Reject("Invalid JSON")
    ensures body.Parsed? ==> r == MergeDeviceInfo(current, body.doc)
  {
    match body
    case NoData => Reject("No data")
    case Unparsable => Reject("Invalid JSON")
    case Parsed(doc) => MergeDeviceInfo(current, doc)
  }

  /** Renaming twice to the same name is the same as renaming once. */
  lemma {:induction false} MergeDeviceInfoIdempotent(current: DeviceInfo, doc: Json)
    requires MergeDeviceInfo(current, doc).Accept?
    ensures MergeDeviceInfo(MergeDeviceInfo(current, doc).value, doc) == MergeDeviceInfo(current, doc)
  {
  }

  /** A rename to the empty string is accepted; the stored config is then
      invalid, so a store built over the saved backend discards every saved
      setting and starts from the defaults. */
  lemma {:induction false} EmptyNameResetsOnRestart(c: DeviceConfig, blobs: map<NvsKey, Blob>)
    ensures var r := MergeDeviceInfo(c.info, JObject(map["device_name" := JString("")]));
      r.Accept? &&
      InitialConfig(AfterSave(blobs, c.(info := r.value), NVS_OK), ESP_OK) == Defaults()
  {
    var r := MergeDeviceInfo(c.info, JObject(map["device_name" := JString("")]));
    SaveThenLoad(blobs, c.(info := r.value), NVS_OK);
  }

  /** `infoHandler`'s response: the name and firmware version as stored. */
  function DeviceInfoJson(info: DeviceInfo): (doc: Json)
    ensures doc.JObject? && doc.members.Keys == {"device_name", "firmware_version"}
  {
    JObject(map[
      "device_name" := JString(info.deviceName),
      "firmware_version" := JString(info.firmwareVersion)])
  }

  /** Reads device info back out of an info response. */
  function DeviceInfoFromJson(doc: Json): Option<DeviceInfo>
  {
    match (Member(doc, "device_name"), Member(doc, "firmware_version"))
    case (Some(JString(name)), Some(JString(version))) =>
      if |name| < 32 && |version| < 16 then Some(DeviceInfo(name, version)) else None
    case _ => None
  }

  /** The info response reports both fields exactly as stored. */
  lemma {:induction false} DeviceInfoRoundTrip(info: DeviceInfo)
    ensures DeviceInfoFromJson(DeviceInfoJson(info)) == Some(info)
  {
    var doc := DeviceInfoJson(info);
    assert Member(doc, "device_name") == Some(JString(info.deviceName));
    assert Member(doc, "firmware_version") == Some(JString(info.firmwareVersion));
  }

  /** `PATCH /api/device/info`: a refused request never reaches the store;
      an accepted one performs exactly one `updateDeviceInfo` with the
      renamed section. */
  method PatchDeviceInfo(store: ConfigManager, body: Body, io: NvsIo) returns (response: Response)
    modifies store`config, store`notified, store.nvs
    ensures match DeviceInfoRequest(old(store.config.info), body)
      case Reject(message) =>
        response == BadRequest(message) && store.config == old(store.config) &&
        store.nvs.blobs == old(store.nvs.blobs) && store.notified == old(store.notified)
      case Accept(info) =>
        response == Ok(StatusBody(RENAME_OK)) &&
        store.config == old(store.config).(info := info) &&
        store.nvs.blobs == AfterSave(old(store.nvs.blobs), store.config, io) &&
        store.notified == old(store.notified) +
          (if SaveStatus(io) == ESP_OK
           then Notifications(Deliveries(store.infoObservers), InfoSection(info)) else [])
  {
    match body {
      case NoData =>
        response := BadRequest("No data");
      case Unparsable =>
        response := BadRequest("Invalid JSON");
      case Parsed(doc) =>
        var current := store.GetDeviceInfo();
        var merged := MergeDeviceInfo(current, doc);
        match merged {
          case Reject(message) =>
            response := BadRequest(message);
          case Accept(info) =>
            store.UpdateDeviceInfo(info, io);
            response := Ok(StatusBody(RENAME_OK));
        }
    }
  }

  /** `GET /api/device/info`. */
  method GetDeviceInfo(store: ConfigManager) returns (response: Response)
    ensures response.Ok? && DeviceInfoFromJson(response.body) == Some(store.config.info)
  {
    var info := store.GetDeviceInfo();
    response := Ok(DeviceInfoJson(info));
    DeviceInfoRoundTrip(info);
  }
}
