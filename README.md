# ESP32 device configuration, access point and DS18B20 driver — a Dafny model

This project models the core of an ESP32 firmware. The core has five parts:

- **`ConfigStore`**. The configuration store holds one `DeviceConfig`: device
  info plus the network section. It persists the config as one NVS blob under
  namespace `storage`, key `dev_config`. At construction it falls back to
  built-in defaults when the blob is missing, has another shape or is not
  valid. Its updates first write the section, then save it, then notify the
  registered observers in registration order. Observers are notified only
  when the save succeeds.
- **`WifiManager`**. The Wi-Fi manager registers itself as a network observer.
  It restarts the access point only when a notification carries an AP SSID or
  password that differs from the one it last applied. The network is open
  exactly when the password is empty.
- **`NetworkHandler` and `DeviceHandler`**. These are the HTTP handlers that
  merge a JSON request into the current section (`POST /api/network/ap/set`,
  `PATCH /api/device/info`). Each validates the request first, then performs
  exactly one store update. They also project sections into JSON responses
  (`GET /api/network/status`, `GET /api/device/info`).
- **`Ds18b20`**. The DS18B20 1-Wire driver: bytes are sent and received
  least-significant bit first, and a temperature is read as a 16-bit
  two's-complement value in sixteenths of a degree. It returns the sentinel
  reading -1000 °C when no sensor answers the reset pulse.
- **`Json`**. This module holds the parsed JSON values the handlers work on.

Strings are sequences of `char`, and each `char` stands for one byte of the
UTF-8 text. So `|s|` is `strlen(s)`, and a `JString` holds cJSON's
`valuestring` bytes. A fixed-size C string `char[N]` is a string of fewer
than `N` bytes (`Chars16`, `Chars18`, `Chars32`, `Chars64`).

The NVS partition is the class `Nvs`, which maps keys to blobs. The outcomes
of opening the namespace, writing the blob and committing are parameters
(`NvsIo`, `open`). What `nvs_get_blob` finds is computed from the map.

Wi-Fi driver calls are recorded in the ghost trace `WiFiManager.radio`.
1-Wire bus slots are recorded in the field `DS18B20.trace`. Each 1-Wire read
samples the next level of a given line stream, `DS18B20.levels`. Observer
invocations are recorded in the ghost log `ConfigManager.notified`.

`updateDeviceInfo`, `updateNetworkConfig` and `updateConfig` return `void`.
So a failed save is invisible to the caller, and the HTTP handlers still
answer 200.

## Model

| member | source | states |
|---|---|---|
| ConfigStore.Defaults | components/config_manager/src/config_manager.cpp:156-171 | the built-in config ("esp32-project", "0.001", AP "ESP32_default_AP", AP on, station off) is itself valid |
| ConfigStore.ValidityReadsRequiredFieldsOnly | components/config_manager/src/config_manager.cpp:173-180 | validity depends only on device name, firmware version and AP SSID |
| ConfigStore.RequiredFieldsDecideValidity | components/config_manager/src/config_manager.cpp:173-180 | clearing any one required string invalidates a config; each required string decides validity together with the other two being non-empty |
| ConfigStore.SaveStatus | components/config_manager/src/config_manager.cpp:105-130 | a save reports success iff open, write and commit all succeed, otherwise the first failing step's error |
| ConfigStore.Load | components/config_manager/src/config_manager.cpp:132-154 | a load succeeds iff the namespace opens and the key holds a config-shaped blob, and then yields exactly that config; a failure never reports ESP_OK |
| ConfigStore.AfterSave | components/config_manager/src/config_manager.cpp:116-119 | a successful save replaces the config key's blob by the whole config; a failed one leaves the partition as it was; no other key changes |
| ConfigStore.SaveThenLoad | components/config_manager/src/config_manager.cpp:105-154 | after a successful save, a load returns the saved config whatever the partition held before |
| ConfigStore.InitialConfig | components/config_manager/src/config_manager.cpp:18-28 | the starting config is always valid: the stored config when it loads and is valid, the defaults otherwise |
| ConfigStore.Deliveries | components/config_manager/src/config_manager.cpp:84-86 | a notification pass invokes no more callbacks than are registered |
| ConfigStore.DeliveriesCount | components/config_manager/src/config_manager.cpp:55-57 | every callback is invoked once per registration and empty registrations invoke nothing |
| ConfigStore.DeliveriesAppend | components/config_manager/src/config_manager.cpp:84-86 | callbacks registered earlier are invoked earlier: the invocations of a concatenated list are those of its parts, in order |
| ConfigStore.DeliveredInRegistrationOrder | components/config_manager/src/config_manager.cpp:183-191 | two callbacks registered in order x then y are invoked in that order, each once |
| ConfigStore.Notifications | components/config_manager/src/config_manager.cpp:55-57 | each invoked callback receives the same snapshot of the updated section |
| ConfigStore.ConfigManager.constructor | components/config_manager/src/config_manager.cpp:18-28 | the store starts from the loaded config when valid, otherwise from the defaults, which it then saves; there are no observers yet |
| ConfigStore.ConfigManager.GetDeviceInfo | components/config_manager/src/config_manager.cpp:30-33 | returns the current device info |
| ConfigStore.ConfigManager.GetNetworkConfig | components/config_manager/src/config_manager.cpp:61-64 | returns the current network section |
| ConfigStore.ConfigManager.GetConfig | components/config_manager/src/config_manager.cpp:91-94 | returns the whole current config |
| ConfigStore.ConfigManager.UpdateDeviceInfo | components/config_manager/src/config_manager.cpp:35-59 | replaces the info section, saves the whole config, and only on a successful save notifies the info observers in order |
| ConfigStore.ConfigManager.UpdateNetworkConfig | components/config_manager/src/config_manager.cpp:66-89 | replaces the network section, saves, and only on a successful save notifies the network observers in order |
| ConfigStore.ConfigManager.UpdateConfig | components/config_manager/src/config_manager.cpp:96-103 | replaces the whole config and saves it, notifying nobody |
| ConfigStore.ConfigManager.Notify | components/config_manager/src/config_manager.cpp:84-86 | appends one invocation per non-empty registered callback, in registration order |
| ConfigStore.ConfigManager.SaveToNvs | components/config_manager/src/config_manager.cpp:105-130 | the blob becomes the current config exactly when all steps succeed; the status is that of the first failing step |
| ConfigStore.ConfigManager.LoadFromNvs | components/config_manager/src/config_manager.cpp:132-154 | on success the config becomes the stored one, and on failure it is untouched and the error is returned |
| ConfigStore.ConfigManager.SetDefaults | components/config_manager/src/config_manager.cpp:156-171 | the config becomes the built-in defaults |
| ConfigStore.ConfigManager.IsValid | components/config_manager/src/config_manager.cpp:173-180 | true iff the three required strings are non-empty |
| ConfigStore.ConfigManager.RegisterNetworkObserver | components/config_manager/src/config_manager.cpp:183-186 | appends the callback to the network observers |
| ConfigStore.ConfigManager.RegisterDeviceInfoObserver | components/config_manager/src/config_manager.cpp:188-191 | appends the callback to the info observers |
| ConfigStore.SaveAndRestart | components/config_manager/test/main/test_config_manager.cpp:125-148 | a valid config written and saved is exactly what a store rebuilt over the same partition starts with |
| ConfigStore.StartWithoutUsableBlob | components/config_manager/test/main/test_config_manager.cpp:181-194 | with no blob, or a blob of another size, a new store reports the default device name |
| ConfigStore.UpdateThenRead | components/config_manager/test/main/test_config_manager.cpp:55-100 | a section read back after its update is the new value, whether or not the save worked |
| WifiManager.ApConfigFor | components/wifi_manager/src/wifi_manager.cpp:69-74 | the AP is WPA/WPA2-PSK iff the password is non-empty, allows 4 stations and carries the SSID with its length |
| WifiManager.Reconcile | components/wifi_manager/src/wifi_manager.cpp:101-121 | after a notification the manager remembers its AP SSID and password; it calls the driver iff that pair differs from the remembered one; and then it ends with a start, leaving the AP running after at most four driver calls |
| WifiManager.ReconcileAll | components/wifi_manager/src/wifi_manager.cpp:101-121 | a run of notifications delivered in order costs at most four driver calls per notification |
| WifiManager.ReconcileApplies | components/wifi_manager/src/wifi_manager.cpp:101-121 | after a notification the manager remembers its SSID and password; a changed pair stops a running AP once and starts it once, while an unchanged pair does nothing |
| WifiManager.ReconcileIdempotent | components/wifi_manager/src/wifi_manager.cpp:101-121 | a repeated notification makes no driver call |
| WifiManager.ReconcileIgnoresOtherFields | components/wifi_manager/src/wifi_manager.cpp:107-108 | notifications that agree on AP SSID and password have the same effect |
| WifiManager.ReconcileAllFollowsLast | components/wifi_manager/src/wifi_manager.cpp:101-121 | after any run of notifications the remembered SSID and password are the last one's |
| WifiManager.ReconcileAllEndsRunning | components/wifi_manager/src/wifi_manager.cpp:101-121 | a run that calls the driver at all ends with a start and leaves the AP running |
| WifiManager.ReconcileAllQuiet | components/wifi_manager/src/wifi_manager.cpp:101-121 | a run that makes no driver call leaves the manager's state as it was |
| WifiManager.WiFiManager.constructor | components/wifi_manager/src/wifi_manager.cpp:8-17 | a new manager remembers an empty SSID and password, the AP is down and the manager is not initialised |
| WifiManager.WiFiManager.Init | components/wifi_manager/src/wifi_manager.cpp:26-52 | the first call sets up the driver, registers one network observer and applies the store's network section; later calls change nothing |
| WifiManager.WiFiManager.StartAP | components/wifi_manager/src/wifi_manager.cpp:55-82 | a stopped AP is configured with the remembered SSID and password and started; a running one is left alone |
| WifiManager.WiFiManager.StopAP | components/wifi_manager/src/wifi_manager.cpp:85-98 | the AP is marked stopped, and the driver is stopped only if it ran |
| WifiManager.WiFiManager.UpdateNetworkConfig | components/wifi_manager/src/wifi_manager.cpp:101-121 | the manager's state and driver calls are those the reconciliation prescribes |
| NetworkHandler.Truncate | components/http_server/src/handlers/network_handler.cpp:37-38 | the result is the longest prefix of at most n bytes |
| NetworkHandler.NewApSsid | components/http_server/src/handlers/network_handler.cpp:21-29 | a missing ap_ssid keeps the SSID; a string shorter than 32 replaces it as it is; anything else is refused with "Invalid ap_ssid" |
| NetworkHandler.NewApPassword | components/http_server/src/handlers/network_handler.cpp:31-46 | a missing ap_password keeps the password; null clears it; any string is kept up to 63 bytes; any other value is refused |
| NetworkHandler.NewApEnabled | components/http_server/src/handlers/network_handler.cpp:48-51 | a JSON boolean `ap_enabled` sets the flag; a missing member or any other value keeps it |
| NetworkHandler.MergeApConfig | components/http_server/src/handlers/network_handler.cpp:19-53 | the request is refused iff the SSID or password rule refuses it, the SSID error taking precedence; otherwise the AP fields follow the rules and every other field is kept |
| NetworkHandler.ApConfigRequest | components/http_server/src/handlers/network_handler.cpp:10-17 | an empty body is refused with "No data" and an unparsable one with "Invalid JSON" |
| NetworkHandler.NoMembersKeepsConfig | components/http_server/src/handlers/network_handler.cpp:19-53 | a non-object body, or an object without `ap_ssid`, `ap_password` and `ap_enabled` whatever else it holds, is accepted and writes the section back unchanged |
| NetworkHandler.MergeApConfigIdempotent | components/http_server/src/handlers/network_handler.cpp:19-53 | an accepted request applied twice has the effect of applying it once |
| NetworkHandler.LongPasswordTruncated | components/http_server/src/handlers/network_handler.cpp:37-38 | an over-long password is accepted and cut to 63 bytes |
| NetworkHandler.EmptyApSsidAccepted | components/http_server/src/handlers/network_handler.cpp:23 | an empty ap_ssid is accepted even though the config it stores is invalid |
| NetworkHandler.NetworkStatus | components/http_server/src/handlers/network_handler.cpp:103-111 | the status response is an object with exactly the eight network members |
| NetworkHandler.NetworkStatusRoundTrip | components/http_server/src/handlers/network_handler.cpp:100-111 | the status response carries every network field exactly as stored |
| NetworkHandler.PostStatusBackIsNoOp | components/http_server/src/handlers/network_handler.cpp:19-53 | posting a status response back to the AP endpoint is accepted and changes nothing |
| NetworkHandler.PostApConfig | components/http_server/src/handlers/network_handler.cpp:10-67 | a refused request leaves store, partition and observers untouched; an accepted one performs one network update and answers 200 whatever the save did |
| NetworkHandler.GetNetworkStatus | components/http_server/src/handlers/network_handler.cpp:100-121 | the response decodes to the store's current network section |
| DeviceHandler.MergeDeviceInfo | components/http_server/src/handlers/device_handler.cpp:37-46 | a rename is accepted iff device_name is a string shorter than 32; the new name is that string and the firmware version is kept |
| DeviceHandler.DeviceInfoRequest | components/http_server/src/handlers/device_handler.cpp:28-35 | an empty body is refused with "No data" and an unparsable one with "Invalid JSON" |
| DeviceHandler.MergeDeviceInfoIdempotent | components/http_server/src/handlers/device_handler.cpp:43-46 | renaming twice to the same name is renaming once |
| DeviceHandler.EmptyNameResetsOnRestart | components/http_server/src/handlers/device_handler.cpp:38 | an empty name is accepted and saved, and a store rebuilt over that partition starts from the defaults |
| DeviceHandler.DeviceInfoJson | components/http_server/src/handlers/device_handler.cpp:13-15 | the info response is an object with exactly `device_name` and `firmware_version` |
| DeviceHandler.DeviceInfoRoundTrip | components/http_server/src/handlers/device_handler.cpp:10-15 | the info response carries both fields exactly as stored |
| DeviceHandler.PatchDeviceInfo | components/http_server/src/handlers/device_handler.cpp:28-60 | a refused request never reaches the store; an accepted one performs one info update and answers 200 |
| DeviceHandler.GetDeviceInfo | components/http_server/src/handlers/device_handler.cpp:10-25 | the response decodes to the store's current device info |
| Ds18b20.BitsOf | components/ds18b20/src/ds18b20.cpp:39-44 | a byte is sent as its 8 bits, least significant first |
| Ds18b20.ByteOf | components/ds18b20/src/ds18b20.cpp:46-52 | bit i of an assembled byte is the i-th bit received; bits not received are 0 |
| Ds18b20.ByteOfBitsOf | components/ds18b20/src/ds18b20.cpp:39-52 | reading back the bits a byte was written as gives the byte |
| Ds18b20.BitsOfByteOf | components/ds18b20/src/ds18b20.cpp:39-52 | writing an assembled byte sends exactly the 8 bits it was assembled from |
| Ds18b20.Int16 | components/ds18b20/src/ds18b20.cpp:74-75 | MSB and LSB form a 16-bit two's-complement value: negative iff the MSB's top bit is set, congruent to 256*MSB+LSB modulo 65536 |
| Ds18b20.TemperatureFrom | components/ds18b20/src/ds18b20.cpp:58-75 | a reading, the sentinel included, always fits a 16-bit two's-complement value |
| Ds18b20.PresentSensorRead | components/ds18b20/src/ds18b20.cpp:58-75 | with both presence pulses seen, the reading is the first two scratchpad bytes, LSB first |
| Ds18b20.AbsentSensorRead | components/ds18b20/src/ds18b20.cpp:59-66 | with no presence pulse at the first reset, or at the second one, the reading is the -1000 °C sentinel |
| Ds18b20.SentinelIsAReading | components/ds18b20/src/ds18b20.cpp:59-75 | the sentinel is also a value a present sensor can report (bytes 0x80, 0xC1) |
| Ds18b20.DS18B20.constructor | components/ds18b20/src/ds18b20.cpp:7-10 | a new driver has issued nothing on the bus |
| Ds18b20.DS18B20.SampleLine | components/ds18b20/src/ds18b20.cpp:34 | one sample returns the next level of the line (high once the stream is used up) and consumes it, issuing nothing on the bus |
| Ds18b20.DS18B20.Reset | components/ds18b20/src/ds18b20.cpp:12-20 | issues a reset pulse and reports presence iff the sampled level is low |
| Ds18b20.DS18B20.WriteBit | components/ds18b20/src/ds18b20.cpp:22-27 | issues one write slot carrying the bit |
| Ds18b20.DS18B20.ReadBit | components/ds18b20/src/ds18b20.cpp:29-37 | issues one read slot and returns the sampled level |
| Ds18b20.DS18B20.WriteByte | components/ds18b20/src/ds18b20.cpp:39-44 | issues 8 write slots with the byte's bits, least significant first |
| Ds18b20.DS18B20.ReadByte | components/ds18b20/src/ds18b20.cpp:46-52 | issues 8 read slots and returns the byte assembled from the 8 sampled levels |
| Ds18b20.DS18B20.Init | components/ds18b20/src/ds18b20.cpp:54-56 | one reset pulse, reporting presence |
| Ds18b20.DS18B20.ReadTemperature | components/ds18b20/src/ds18b20.cpp:58-76 | the reading is the line's decoded temperature; the bus sees reset, skip-ROM, convert, wait, reset, skip-ROM, read-scratchpad and two bytes read, and stops at the first missing presence pulse |

## Left out

- Mutexes and `lock_guard`: the model is sequential. The snapshot copies taken under the lock before notifying are the values the model passes.
- The singleton accessor `getInstance`: stores are built explicitly.
- NVS library internals: the outcomes of open, write and commit are parameters. A blob whose size differs from `DeviceConfig` is a foreign blob, and load is modelled as refusing it with `ESP_ERR_NVS_INVALID_LENGTH`. How the library treats a stored blob shorter than the buffer is not modelled. A commit that fails after a successful write is modelled as leaving the partition unchanged.
- NUL-free strings: a fixed-size C string is any byte string shorter than its buffer; embedded NUL bytes are not excluded.
- UTF-8: a `char` stands for one byte of the UTF-8 text, so strings are not decoded into code points. Length checks (`strlen`) and truncation (`strncpy`) count bytes.
- Wi-Fi driver and network-interface errors: the source aborts on them (`ESP_ERROR_CHECK`), so the model assumes every call succeeds. The Wi-Fi event callback `onWiFiEvent` and `logApIp` only log, and the destructor only deletes the mutex; all three are left out.
- WifiManager.WiFiManager.constructor: the header declaring `_ap_running` is not part of this model, so the flag is taken to start false. The SSID and password buffers are taken as 32 and 64 bytes.
- WifiManager.WiFiManager.Init: the once-only flag is a function-local static, so it is shared by every `WiFiManager`. The model keeps one `initialized` flag per manager, which agrees with the source only while there is a single manager, as in the firmware.
- Observer dispatch: the store records which callbacks it invokes and with what. Running a registered `WiFiManager` from that log is not composed in the model.
- JSON parsing: `cJSON_Parse` and `cJSON_GetObjectItem` are abstracted into `Json.Body` and `Json.Member`. Case-insensitive key lookup and duplicate keys are not modelled.
- Receive buffers: `httpd_req_recv` truncation to the handlers' fixed buffers is not modelled. A body is either absent, unparsable, or a parsed document.
- The station connect and disconnect handlers, endpoint registration, the root handler, the HTTP server and `main`: they are outside the modelled core.
- Timing: delays and the `esp_rom_delay_us` slot timings are left out. `ConversionWait` stands for the 750 ms conversion delay.
- Ds18b20.DS18B20.ReadTemperature: it returns the raw value in sixteenths of a degree instead of the float `raw / 16.0`. The sentinel is -16000 sixteenths, which is -1000 °C.
- Sensor manager: it only polls the driver and is not part of this model.
- Logging: `ESP_LOGx` output is left out.
