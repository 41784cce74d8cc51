/** The network endpoints of the HTTP server: `POST /api/network/ap/set`
    validates a JSON body and merges it into the current network section
    before one store update, and `GET /api/network/status` reports the
    network section. */
module NetworkHandler {
  import opened ConfigStore
  import opened Json

  const SSID_MAX_LEN: nat := 32
  const PASSWORD_MAX_LEN: nat := 64

  const AP_SET_OK: string := "AP config updated"

  function Min(a: nat, b: nat): nat
  {
    if a <= b then a else b
  }

  /** `strncpy(dst, s, n)` followed by `dst[n] = '\0'`: the first `n`
      bytes of `s`, or all of them when there are fewer. */
  function Truncate(s: string, n: nat): (t: string)
    ensures |t| == Min(|s|, n)
    ensures t == s[..|t|]
    ensures |s| <= n ==> t == s
  {
    if |s| <= n then s else s[..n]
  }

  /** The `ap_ssid` rule: a missing member keeps the current SSID; a string
      shorter than `SSID_MAX_LEN` replaces it as it is; anything else is
      refused. An empty string is accepted. */
  function NewApSsid(current: Chars32, v: Option<JsonValue>): (r: Merge<Chars32>)
    ensures v.None? ==> r == Accept(current)
    ensures v.Some? ==> (r.Accept? <==> v.value.JString? && |v.value.s| < SSID_MAX_LEN)
    ensures v.Some? && r.Accept? ==> v.value == JString(r.value)
    ensures r.Reject? ==> r.message == "Invalid ap_ssid"
  {
    match v
    case None => Accept(current)
    case Some(JString(s)) => if |s| < SSID_MAX_LEN then Accept(s) else Reject("Invalid ap_ssid")
    case Some(_) => Reject("Invalid ap_ssid")
  }

  /** The `ap_password` rule: a missing member keeps the current password;
      null or the empty string clears it; any other string is kept up to
      `PASSWORD_MAX_LEN - 1` bytes and never refused for its length;
      any other value is refused. */
  function NewApPassword(current: Chars64, v: Option<JsonValue>): (r: Merge<Chars64>)
    ensures v.None? ==> r == Accept(current)
    ensures v == Some(JNull) ==> r == Accept("")
    ensures v.Some? && v.value.JString? ==> r == Accept(Truncate(v.value.s, PASSWORD_MAX_LEN - 1))
    ensures r.Reject? <==> v.Some? && !v.value.JString? && !v.value.JNull?
    ensures r.Reject? ==> r.message == "Invalid ap_password"
  {
    match v
    case None => Accept(current)
    case Some(JString(s)) =>
      if |s| == 0 then Accept("") else Accept(Truncate(s, PASSWORD_MAX_LEN - 1))
    case Some(JNull) => Accept("")
    case Some(_) => Reject("Invalid ap_password")
  }

  /** The `ap_enabled` rule: only a JSON boolean changes the flag. */
  function NewApEnabled(current: bool, v: Option<JsonValue>): (enabled: bool)
    ensures v.Some? && v.value.JBool? ==> enabled == v.value.b
    ensures v.None? || !v.value.JBool? ==> enabled == current
  {
    match v
    case Some(JBool(b)) => b
    case _ => current
  }

  /** The body of `postApConfigHandler` between parsing and the store call:
      the AP settings of `doc` merged into `current`, or the first rule it
      breaks (SSID before password). The station flag and the runtime
      status are always carried over. */
  function MergeApConfig(current: NetworkConfig, doc: Json): (r: Merge<NetworkConfig>)
    ensures r.Reject? <==>
      NewApSsid(current.apSsid, Member(doc, "ap_ssid")).Reject? ||
      NewApPassword(current.apPassword, Member(doc, "ap_password")).Reject?
    ensures NewApSsid(current.apSsid, Member(doc, "ap_ssid")).Reject? ==> r == Reject("Invalid ap_ssid")
    ensures r.Accept? ==>
      r.value.apSsid == NewApSsid(current.apSsid, Member(doc, "ap_ssid")).value &&
      r.value.apPassword == NewApPassword(current.apPassword, Member(doc, "ap_password")).value &&
      r.value.apEnabled == NewApEnabled(current.apEnabled, Member(doc, "ap_enabled"))
    ensures r.Accept? ==>
      r.value.staEnabled == current.staEnabled && r.value.ssid == current.ssid &&
      r.value.bssid == current.bssid && r.value.ipAddress == current.ipAddress &&
      r.value.macAddress == current.macAddress
  {
    var network := current;
    var ssid := NewApSsid(network.apSsid, Member(doc, "ap_ssid"));
    if ssid.Reject? then Reject(ssid.message)
    else
      var network := network.(apSsid := ssid.value);
      var password := NewApPassword(network.apPassword, Member(doc, "ap_password"));
      if password.Reject? then Reject(password.message)
      else
        var network := network.(apPassword := password.value);
        Accept(network.(apEnabled := NewApEnabled(network.apEnabled, Member(doc, "ap_enabled"))))
  }

  /** The whole POST handler as a function of the current network section
      and the received body. */
  function ApConfigRequest(current: NetworkConfig, body: Body): (r: Merge<NetworkConfig>)
    ensures body == NoData ==> r == Reject("No data")
    ensures body == Unparsable ==> r == Reject("Invalid JSON")
    ensures body.Parsed? ==> r == MergeApConfig(current, body.doc)
  {
    match body
    case NoData => Reject("No data")
    case Unparsable => Reject("Invalid JSON")
    case Parsed(doc) => MergeApConfig(current, doc)
  }

  /** A parsed body that is not an object, or an object with none of the
      members `ap_ssid`, `ap_password` and `ap_enabled` (whatever else it
      holds), is accepted and writes the current section back unchanged. */
  lemma {:induction false} NoMembersKeepsConfig(current: NetworkConfig, members: map<string, JsonValue>)
    requires "ap_ssid" !in members && "ap_password" !in members && "ap_enabled" !in members
    ensures MergeApConfig(current, JNonObject) == Accept(current)
    ensures MergeApConfig(current, JObject(members)) == Accept(current)
  {
  }

  /** Sending the same request again changes nothing more. */
  lemma {:induction false} MergeApConfigIdempotent(current: NetworkConfig, doc: Json)
    requires MergeApConfig(current, doc).Accept?
    ensures MergeApConfig(MergeApConfig(current, doc).value, doc) == MergeApConfig(current, doc)
  {
    var next := MergeApConfig(current, doc).value;
    var p := Member(doc, "ap_password");
    if p.Some? && p.value.JString? {
      var t := Truncate(p.value.s, PASSWORD_MAX_LEN - 1);
      assert next.apPassword == t;
    }
  }

  /** A password of any length is accepted and cut to
      `PASSWORD_MAX_LEN - 1` bytes. */
  lemma {:induction false} LongPasswordTruncated(current: NetworkConfig, s: string)
    requires |s| >= PASSWORD_MAX_LEN
    ensures MergeApConfig(current, JObject(map["ap_password" := JString(s)])) ==
            Accept(current.(apPassword := s[..PASSWORD_MAX_LEN - 1]))
  {
    var doc := JObject(map["ap_password" := JString(s)]);
    assert Member(doc, "ap_ssid") == None;
    assert Member(doc, "ap_enabled") == None;
  }

  /** Only the upper bound of the SSID is checked: a request with an empty
      `ap_ssid` is accepted, and the config it stores is not valid. */
  lemma {:induction false} EmptyApSsidAccepted(c: DeviceConfig)
    ensures var r := MergeApConfig(c.network, JObject(map["ap_ssid" := JString("")]));
      r.Accept? && r.value.apSsid == "" && !ConfigValid(c.(network := r.value))
  {
    var doc := JObject(map["ap_ssid" := JString("")]);
    assert Member(doc, "ap_password") == None;
  }

  /** `networkStatusHandler`'s response: every field of the network section
      under its own name. */
  function NetworkStatus(n: NetworkConfig): (doc: Json)
    ensures doc.JObject?
    ensures doc.members.Keys ==
      {"ap_ssid", "ap_enabled", "ap_password", "sta_enabled", "ssid", "bssid", "ip_address", "mac_address"}
  {
    JObject(map[
      "ap_ssid" := JString(n.apSsid),
      "ap_enabled" := JBool(n.apEnabled),
      "ap_password" := JString(n.apPassword),
      "sta_enabled" := JBool(n.staEnabled),
      "ssid" := JString(n.ssid),
      "bssid" := JString(n.bssid),
      "ip_address" := JString(n.ipAddress),
      "mac_address" := JString(n.macAddress)])
  }

  function Text(doc: Json, key: string): Option<string>
  {
    match Member(doc, key)
    case Some(JString(s)) => Some(s)
    case _ => None
  }

  function Flag(doc: Json, key: string): Option<bool>
  {
    match Member(doc, key)
    case Some(JBool(b)) => Some(b)
    case _ => None
  }

  /** Reads a network section back out of a status response. */
  function NetworkFromStatus(doc: Json): Option<NetworkConfig>
  {
    var apSsid := Text(doc, "ap_ssid");
    var apPassword := Text(doc, "ap_password");
    var apEnabled := Flag(doc, "ap_enabled");
    var staEnabled := Flag(doc, "sta_enabled");
    var ssid := Text(doc, "ssid");
    var bssid := Text(doc, "bssid");
    var ip := Text(doc, "ip_address");
    var mac := Text(doc, "mac_address");
    if apSsid.Some? && |apSsid.value| < 32 && apPassword.Some? && |apPassword.value| < 64
       && apEnabled.Some? && staEnabled.Some? && ssid.Some? && |ssid.value| < 32
       && bssid.Some? && |bssid.value| < 18 && ip.Some? && |ip.value| < 16
       && mac.Some? && |mac.value| < 18
    then Some(NetworkConfig(apSsid.value, apPassword.value, apEnabled.value, staEnabled.value,
                            ssid.value, bssid.value, ip.value, mac.value))
    else None
  }

  /** The status response reports every field exactly as stored. */
  lemma {:induction false} NetworkStatusRoundTrip(n: NetworkConfig)
    ensures NetworkFromStatus(NetworkStatus(n)) == Some(n)
  {
    var doc := NetworkStatus(n);
    assert Text(doc, "ap_ssid") == Some(n.apSsid);
    assert Text(doc, "ap_password") == Some(n.apPassword);
    assert Flag(doc, "ap_enabled") == Some(n.apEnabled);
    assert Flag(doc, "sta_enabled") == Some(n.staEnabled);
    assert Text(doc, "ssid") == Some(n.ssid);
    assert Text(doc, "bssid") == Some(n.bssid);
    assert Text(doc, "ip_address") == Some(n.ipAddress);
    assert Text(doc, "mac_address") == Some(n.macAddress);
  }

  /** Posting the status response back to the AP endpoint is accepted and
      changes nothing. */
  lemma {:induction false} PostStatusBackIsNoOp(n: NetworkConfig)
    ensures MergeApConfig(n, NetworkStatus(n)) == Accept(n)
  {
    var doc := NetworkStatus(n);
    assert Member(doc, "ap_ssid") == Some(JString(n.apSsid));
    assert Member(doc, "ap_password") == Some(JString(n.apPassword));
    assert Member(doc, "ap_enabled") == Some(JBool(n.apEnabled));
  }

  /** `POST /api/network/ap/set`: a refused request leaves the store alone;
      an accepted one performs exactly one `updateNetworkConfig` with the
      merged section. The reply does not depend on whether the save worked. */
  method PostApConfig(store: ConfigManager, body: Body, io: NvsIo) returns (response: Response)
    modifies store`config, store`notified, store.nvs
    ensures match ApConfigRequest(old(store.config.network), body)
      case Reject(message) =>
        response == BadRequest(message) && store.config == old(store.config) &&
        store.nvs.blobs == old(store.nvs.blobs) && store.notified == old(store.notified)
      case Accept(n) =>
        response == Ok(StatusBody(AP_SET_OK)) &&
        store.config == old(store.config).(network := n) &&
        store.nvs.blobs == AfterSave(old(store.nvs.blobs), store.config, io) &&
        store.notified == old(store.notified) +
          (if SaveStatus(io) == ESP_OK
           then Notifications(Deliveries(store.networkObservers), NetworkSection(n)) else [])
  {
    match body {
      case NoData =>
        response := BadRequest("No data");
      case Unparsable =>
        response := BadRequest("Invalid JSON");
      case Parsed(doc) =>
        var current := store.GetNetworkConfig();
        var merged := MergeApConfig(current, doc);
        match merged {
          case Reject(message) =>
            response := BadRequest(message);
          case Accept(network) =>
            store.UpdateNetworkConfig(network, io);
            response := Ok(StatusBody(AP_SET_OK));
        }
    }
  }

  /** `GET /api/network/status`. */
  method GetNetworkStatus(store: ConfigManager) returns (response: Response)
    ensures response.Ok? && NetworkFromStatus(response.body) == Some(store.config.network)
  {
    var network := store.GetNetworkConfig();
    response := Ok(NetworkStatus(network));
    NetworkStatusRoundTrip(network);
  }
}
