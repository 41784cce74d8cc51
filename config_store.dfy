/** The configuration store: one `DeviceConfig` held in memory, persisted as
    one blob in the NVS key/value backend, reset to built-in defaults when the
    stored copy is missing or invalid, and pushed to registered observers
    after every successful save of a section update.

    The mutex of the source is left out: every operation is one atomic step.
    The NVS library is a map from namespace/key to blob; the result codes it
    reports for a call are parameters, so every failure path can be taken. */
module ConfigStore {

  // ---------------------------------------------------------------------
  // Data model

  /** A NUL-terminated `char[N]` holds at most N - 1 bytes; a string here
      is the text before the terminator, one `char` per byte of its UTF-8
      encoding, so `|s|` is `strlen(s)`. */
  type Chars16 = s: string | |s| < 16
  type Chars18 = s: string | |s| < 18
  type Chars32 = s: string | |s| < 32
  type Chars64 = s: string | |s| < 64

  datatype DeviceInfo = DeviceInfo(deviceName: Chars32, firmwareVersion: Chars16)

  /** User settings of the access point and station, followed by the
      runtime status of the radio (station SSID, BSSID, IP and MAC). */
  datatype NetworkConfig = NetworkConfig(
    apSsid: Chars32,
    apPassword: Chars64,
    apEnabled: bool,
    staEnabled: bool,
    ssid: Chars32,
    bssid: Chars18,
    ipAddress: Chars16,
    macAddress: Chars18)

  /** The unit of persistence: both sections together. */
  datatype DeviceConfig = DeviceConfig(info: DeviceInfo, network: NetworkConfig)

  /** A config is valid iff the device name, the firmware version and the AP
      SSID are all non-empty; no other field is checked. */
  predicate ConfigValid(c: DeviceConfig)
  {
    |c.info.deviceName| > 0 && |c.info.firmwareVersion| > 0 && |c.network.apSsid| > 0
  }

  /** The built-in configuration `setDefaults` installs. */
  function Defaults(): (c: DeviceConfig)
    ensures ConfigValid(c)
  {
    DeviceConfig(
      DeviceInfo("esp32-project", "0.001"),
      NetworkConfig("ESP32_default_AP", "", true, false, "", "", "", ""))
  }

  /** The all-zero structure a fresh store starts from. */
  function ZeroConfig(): DeviceConfig
  {
    DeviceConfig(DeviceInfo("", ""), NetworkConfig("", "", false, false, "", "", "", ""))
  }

  /** Validity depends on the three required strings and nothing else. */
  lemma ValidityReadsRequiredFieldsOnly(c: DeviceConfig, d: DeviceConfig)
    requires c.info.deviceName == d.info.deviceName
    requires c.info.firmwareVersion == d.info.firmwareVersion
    requires c.network.apSsid == d.network.apSsid
    ensures ConfigValid(c) == ConfigValid(d)
  {
  }

  /** Clearing any one required string makes a config invalid; giving it back
      a non-empty value, the others being non-empty, makes it valid again. */
  lemma RequiredFieldsDecideValidity(c: DeviceConfig, name: Chars32, version: Chars16, apSsid: Chars32)
    ensures !ConfigValid(c.(info := c.info.(deviceName := "")))
    ensures !ConfigValid(c.(info := c.info.(firmwareVersion := "")))
    ensures !ConfigValid(c.(network := c.network.(apSsid := "")))
    ensures ConfigValid(c.(info := c.info.(deviceName := name))) <==>
            |name| > 0 && |c.info.firmwareVersion| > 0 && |c.network.apSsid| > 0
    ensures ConfigValid(c.(info := c.info.(firmwareVersion := version))) <==>
            |c.info.deviceName| > 0 && |version| > 0 && |c.network.apSsid| > 0
    ensures ConfigValid(c.(network := c.network.(apSsid := apSsid))) <==>
            |c.info.deviceName| > 0 && |c.info.firmwareVersion| > 0 && |apSsid| > 0
  {
  }

  // ---------------------------------------------------------------------
  // The NVS backend

  /** `esp_err_t`: zero is success, anything else an error code. */
  type EspErr = int
  const ESP_OK: EspErr := 0
  const ESP_ERR_NVS_NOT_FOUND: EspErr := 0x1102
  const ESP_ERR_NVS_INVALID_LENGTH: EspErr := 0x110c

  datatype NvsKey = NvsKey(namespace: string, key: string)

  /** The one namespace/key pair the store uses. */
  const CONFIG_KEY: NvsKey := NvsKey("storage", "dev_config")

  /** A stored blob: a whole config, or bytes of some other shape (such as a
      blob of the wrong size written by another program). */
  datatype Blob = ConfigBlob(config: DeviceConfig) | ForeignBlob(size: nat)

  /** The result codes the NVS library reports during one save: opening the
      namespace, writing the blob, committing. */
  datatype NvsIo = NvsIo(open: EspErr, write: EspErr, commit: EspErr)

  const NVS_OK: NvsIo := NvsIo(ESP_OK, ESP_OK, ESP_OK)

  /** The status `saveToNVS` returns: the error of the first step that
      failed, with no retry; success only when all three steps succeed. */
  function SaveStatus(io: NvsIo): (err: EspErr)
    ensures err == ESP_OK <==> io == NVS_OK
    ensures io.open != ESP_OK ==> err == io.open
    ensures io.open == ESP_OK && io.write != ESP_OK ==> err == io.write
    ensures io.open == ESP_OK && io.write == ESP_OK ==> err == io.commit
  {
    if io.open != ESP_OK then io.open
    else if io.write != ESP_OK then io.write
    else io.commit
  }

  /** The backend after saving `c`: the blob is replaced by the whole config
      when the save succeeds and left alone otherwise. */
  function AfterSave(blobs: map<NvsKey, Blob>, c: DeviceConfig, io: NvsIo): (after: map<NvsKey, Blob>)
    ensures SaveStatus(io) == ESP_OK ==> CONFIG_KEY in after && after[CONFIG_KEY] == ConfigBlob(c)
    ensures SaveStatus(io) != ESP_OK ==> after == blobs
    ensures forall k | k != CONFIG_KEY :: (k in after <==> k in blobs) && (k in blobs ==> after[k] == blobs[k])
  {
    if SaveStatus(io) == ESP_OK then blobs[CONFIG_KEY := ConfigBlob(c)] else blobs
  }

  datatype LoadResult = Loaded(config: DeviceConfig) | LoadFailed(err: EspErr)

  /** What `loadFromNVS` finds when opening the namespace reports `open`. */
  function Load(blobs: map<NvsKey, Blob>, open: EspErr): (r: LoadResult)
    ensures r.LoadFailed? ==> r.err != ESP_OK
    ensures r.Loaded? <==> open == ESP_OK && CONFIG_KEY in blobs && blobs[CONFIG_KEY].ConfigBlob?
    ensures r.Loaded? ==> r.config == blobs[CONFIG_KEY].config
  {
    if open != ESP_OK then LoadFailed(open)
    else if CONFIG_KEY !in blobs then LoadFailed(ESP_ERR_NVS_NOT_FOUND)
    else match blobs[CONFIG_KEY]
      case ConfigBlob(c) => Loaded(c)
      case ForeignBlob(_) => LoadFailed(ESP_ERR_NVS_INVALID_LENGTH)
  }

  /** A successful save followed by a load from the same backend gives back
      the saved config, whatever the backend held before. */
  lemma {:induction false} SaveThenLoad(blobs: map<NvsKey, Blob>, c: DeviceConfig, io: NvsIo)
    requires SaveStatus(io) == ESP_OK
    ensures Load(AfterSave(blobs, c, io), ESP_OK) == Loaded(c)
  {
  }

  /** The configuration a store holds right after construction over a backend
      holding `blobs`: the stored config if it loads and is valid, otherwise
      the defaults. */
  function InitialConfig(blobs: map<NvsKey, Blob>, open: EspErr): (c: DeviceConfig)
    ensures ConfigValid(c)
    ensures Load(blobs, open).Loaded? && ConfigValid(Load(blobs, open).config) ==>
            c == Load(blobs, open).config
    ensures Load(blobs, open).LoadFailed? || !ConfigValid(Load(blobs, open).config) ==>
            c == Defaults()
  {
    match Load(blobs, open)
    case Loaded(c) => if ConfigValid(c) then c else Defaults()
    case LoadFailed(_) => Defaults()
  }

  // ---------------------------------------------------------------------
  // Observers and notifications

  type ObserverId = nat

  /** A registered `std::function`; it may be empty, and empty ones are
      skipped when notifying. */
  datatype Observer = NoCallback | Callback(id: ObserverId)

  /** The value an observer is invoked with. */
  datatype Section = InfoSection(info: DeviceInfo) | NetworkSection(network: NetworkConfig)

  /** One observer invocation. */
  datatype Notification = Notification(observer: ObserverId, value: Section)

  /** The observers that a notification pass over `obs` invokes, in the
      order they are invoked; each registered callback once per registration. */
  function Deliveries(obs: seq<Observer>): (ids: seq<ObserverId>)
    ensures |ids| <= |obs|
  {
    if obs == [] then []
    else
      var n := |obs| - 1;
      match obs[n]
      case NoCallback => Deliveries(obs[..n])
      case Callback(id) => Deliveries(obs[..n]) + [id]
  }

  /** Each callback is invoked as many times as it is registered, and an
      empty registration invokes nothing. */
  lemma {:induction false} DeliveriesCount(obs: seq<Observer>, id: ObserverId)
    ensures multiset(Deliveries(obs))[id] == multiset(obs)[Callback(id)]
  {
    if obs != [] {
      var n := |obs| - 1;
      assert obs == obs[..n] + [obs[n]];
      DeliveriesCount(obs[..n], id);
    }
  }

  /** Splitting the observer list splits the deliveries: callbacks earlier in
      the list are invoked earlier. */
  lemma {:induction false} DeliveriesAppend(a: seq<Observer>, b: seq<Observer>)
    ensures Deliveries(a + b) == Deliveries(a) + Deliveries(b)
    decreases |b|
  {
    if b == [] {
      assert a + b == a;
    } else {
      var n := |b| - 1;
      var ab := a + b;
      assert ab[..|ab| - 1] == a + b[..n];
      assert ab[|ab| - 1] == b[n];
      DeliveriesAppend(a, b[..n]);
    }
  }

  /** Two callbacks registered in the order `x` then `y` are invoked in that
      order, each once, with whatever lies between them invoked in between. */
  lemma {:induction false} DeliveredInRegistrationOrder(
    a: seq<Observer>, x: ObserverId, b: seq<Observer>, y: ObserverId, c: seq<Observer>)
    ensures Deliveries(a + [Callback(x)] + b + [Callback(y)] + c) ==
            Deliveries(a) + [x] + Deliveries(b) + [y] + Deliveries(c)
  {
    DeliveriesAppend(a + [Callback(x)] + b + [Callback(y)], c);
    DeliveriesAppend(a + [Callback(x)] + b, [Callback(y)]);
    DeliveriesAppend(a + [Callback(x)], b);
    DeliveriesAppend(a, [Callback(x)]);
    assert Deliveries([Callback(y)]) == [y] by {
      assert [Callback(y)][..0] == [];
    }
    assert Deliveries([Callback(x)]) == [x] by {
      assert [Callback(x)][..0] == [];
    }
  }

  /** The invocations of `ids`, in order, each with `value`. */
  function Notifications(ids: seq<ObserverId>, value: Section): (ns: seq<Notification>)
    ensures |ns| == |ids|
    ensures forall k | 0 <= k < |ids| :: ns[k] == Notification(ids[k], value)
  {
    seq(|ids|, k requires 0 <= k < |ids| => Notification(ids[k], value))
  }

  // ---------------------------------------------------------------------
  // The store

  /** The persistence backend: blobs by namespace and key. */
  class Nvs {
    var blobs: map<NvsKey, Blob>

    constructor (initial: map<NvsKey, Blob>)
      ensures blobs == initial
    {
      blobs := initial;
    }
  }

  class ConfigManager {
    var config: DeviceConfig
    var networkObservers: seq<Observer>
    var infoObservers: seq<Observer>
    const nvs: Nvs
    /** Every observer invocation so far, oldest first. */
    ghost var notified: seq<Notification>

    /** Loads the stored config; when the load fails or what it finds is
        invalid, installs the defaults and tries once to save them (a failure
        of that save is ignored). */
    constructor (backend: Nvs, loadOpen: EspErr, saveIo: NvsIo)
      modifies backend
      ensures nvs == backend
      ensures config == InitialConfig(old(backend.blobs), loadOpen)
      ensures ConfigValid(config)
      ensures var r := Load(old(backend.blobs), loadOpen);
        if r.Loaded? && ConfigValid(r.config) then backend.blobs == old(backend.blobs)
        else backend.blobs == AfterSave(old(backend.blobs), Defaults(), saveIo)
      ensures networkObservers == [] && infoObservers == [] && notified == []
    {
      config := ZeroConfig();
      networkObservers := [];
      infoObservers := [];
      nvs := backend;
      notified := [];
      new;
      var err := LoadFromNvs(loadOpen);
      var useDefaults := err != ESP_OK;
      if !useDefaults {
        var valid := IsValid();
        useDefaults := !valid;
      }
      if useDefaults {
        SetDefaults();
        var ignored := SaveToNvs(saveIo);
      }
    }

    method GetDeviceInfo() returns (info: DeviceInfo)
      ensures info == config.info
    {
      info := config.info;
    }

    method GetNetworkConfig() returns (network: NetworkConfig)
      ensures network == config.network
    {
      network := config.network;
    }

    method GetConfig() returns (c: DeviceConfig)
      ensures c == config
    {
      c := config;
    }

    /** Replaces the device-info section, then saves the whole config; only
        when the save succeeds is every info observer invoked with the new
        section. The in-memory update stands whether or not the save does. */
    method UpdateDeviceInfo(info: DeviceInfo, io: NvsIo)
      modifies this`config, this`notified, nvs
      ensures config == old(config).(info := info)
      ensures nvs.blobs == AfterSave(old(nvs.blobs), config, io)
      ensures notified == old(notified) +
        (if SaveStatus(io) == ESP_OK then Notifications(Deliveries(infoObservers), InfoSection(info)) else [])
    {
      config := config.(info := info);
      var err := SaveToNvs(io);
      if err == ESP_OK {
        var snapshot := config.info;
        var observers := infoObservers;
        Notify(observers, InfoSection(snapshot));
      }
    }

    /** Replaces the network section, then saves the whole config; only when
        the save succeeds is every network observer invoked with the new
        section. */
    method UpdateNetworkConfig(network: NetworkConfig, io: NvsIo)
      modifies this`config, this`notified, nvs
      ensures config == old(config).(network := network)
      ensures nvs.blobs == AfterSave(old(nvs.blobs), config, io)
      ensures notified == old(notified) +
        (if SaveStatus(io) == ESP_OK then Notifications(Deliveries(networkObservers), NetworkSection(network)) else [])
    {
      config := config.(network := network);
      var err := SaveToNvs(io);
      if err == ESP_OK {
        var snapshot := config.network;
        var observers := networkObservers;
        Notify(observers, NetworkSection(snapshot));
      }
    }

    /** Replaces the whole config and tries once to save it; no observer is
        invoked. */
    method UpdateConfig(c: DeviceConfig, io: NvsIo)
      modifies this`config, nvs
      ensures config == c
      ensures nvs.blobs == AfterSave(old(nvs.blobs), c, io)
    {
      config := c;
      var ignored := SaveToNvs(io);
    }

    /** Invokes each non-empty callback of `observers` once, in list order. */
    method Notify(observers: seq<Observer>, value: Section)
      modifies this`notified
      ensures notified == old(notified) + Notifications(Deliveries(observers), value)
    {
      var i := 0;
      while i < |observers|
        invariant 0 <= i <= |observers|
        invariant notified == old(notified) + Notifications(Deliveries(observers[..i]), value)
      {
        assert observers[..i + 1][..i] == observers[..i];
        var ids := Deliveries(observers[..i]);
        match observers[i] {
          case NoCallback =>
          case Callback(id) =>
            assert Notifications(ids + [id], value) == Notifications(ids, value) + [Notification(id, value)];
            notified := notified + [Notification(id, value)];
        }
        i := i + 1;
      }
      assert observers[..i] == observers;
    }

    /** Writes the whole config as one blob under the store's key and commits;
        returns the error of the first step that fails. The in-memory config
        is not touched. */
    method SaveToNvs(io: NvsIo) returns (err: EspErr)
      modifies nvs
      ensures err == SaveStatus(io)
      ensures nvs.blobs == AfterSave(old(nvs.blobs), config, io)
    {
      err := io.open;
      if err != ESP_OK {
        return;
      }
      err := io.write;
      if err == ESP_OK {
        err := io.commit;
        if err == ESP_OK {
          nvs.blobs := nvs.blobs[CONFIG_KEY := ConfigBlob(config)];
        }
      }
    }

    /** Reads the blob under the store's key straight into the in-memory
        config; on failure the config is left as it was. */
    method LoadFromNvs(open: EspErr) returns (err: EspErr)
      modifies this`config
      ensures Load(nvs.blobs, open).Loaded? ==> err == ESP_OK && config == Load(nvs.blobs, open).config
      ensures Load(nvs.blobs, open).LoadFailed? ==> err == Load(nvs.blobs, open).err && config == old(config)
    {
      err := open;
      if err != ESP_OK {
        return;
      }
      if CONFIG_KEY !in nvs.blobs {
        err := ESP_ERR_NVS_NOT_FOUND;
        return;
      }
      match nvs.blobs[CONFIG_KEY]
      case ConfigBlob(c) =>
        config := c;
      case ForeignBlob(_) =>
        err := ESP_ERR_NVS_INVALID_LENGTH;
    }

    /** Overwrites the whole config with the defaults; does not save. */
    method SetDefaults()
      modifies this`config
      ensures config == Defaults()
    {
      config := Defaults();
    }

    method IsValid() returns (valid: bool)
      ensures valid <==> ConfigValid(config)
    {
      valid := |config.info.deviceName| != 0 && |config.info.firmwareVersion| != 0
               && |config.network.apSsid| != 0;
    }

    /** Appends `obs` to the network observers. */
    method RegisterNetworkObserver(obs: Observer)
      modifies this`networkObservers
      ensures networkObservers == old(networkObservers) + [obs]
    {
      networkObservers := networkObservers + [obs];
    }

    /** Appends `obs` to the device-info observers. */
    method RegisterDeviceInfoObserver(obs: Observer)
      modifies this`infoObservers
      ensures infoObservers == old(infoObservers) + [obs]
    {
      infoObservers := infoObservers + [obs];
    }
  }

  // ---------------------------------------------------------------------
  // Whole-store scenarios

  /** A config written with `updateConfig` and saved is what a store built
      afterwards over the same backend starts with, provided it is valid. */
  method SaveAndRestart(stored: map<NvsKey, Blob>, c: DeviceConfig) returns (restored: DeviceConfig)
    requires ConfigValid(c)
    ensures restored == c
  {
    var backend := new Nvs(stored);
    var first := new ConfigManager(backend, ESP_OK, NVS_OK);
    first.UpdateConfig(c, NVS_OK);
    var second := new ConfigManager(backend, ESP_OK, NVS_OK);
    restored := second.GetConfig();
  }

  /** A store built over a backend whose config key holds a blob of another
      shape, or nothing, starts from the defaults. */
  method StartWithoutUsableBlob(stored: map<NvsKey, Blob>, saveIo: NvsIo) returns (info: DeviceInfo)
    requires CONFIG_KEY !in stored || stored[CONFIG_KEY].ForeignBlob?
    ensures info == Defaults().info
    ensures info.deviceName == "esp32-project"
  {
    var backend := new Nvs(stored);
    var store := new ConfigManager(backend, ESP_OK, saveIo);
    info := store.GetDeviceInfo();
  }

  /** After an update of one section, reading it back gives the new value
      and the other section is unchanged, whether or not the save worked. */
  method UpdateThenRead(store: ConfigManager, info: DeviceInfo, network: NetworkConfig, io: NvsIo)
    returns (readInfo: DeviceInfo, readNetwork: NetworkConfig)
    modifies store, store.nvs
    ensures readInfo == info && readNetwork == network
  {
    store.UpdateDeviceInfo(info, io);
    readInfo := store.GetDeviceInfo();
    var before := store.config.info;
    store.UpdateNetworkConfig(network, io);
    readNetwork := store.GetNetworkConfig();
    assert store.config.info == before;
  }
}
