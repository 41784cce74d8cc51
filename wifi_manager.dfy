/** The access-point reconciler: remembers the AP SSID and password it last
    applied and restarts the access point only when a network-config
    notification brings a different SSID or password.

    Calls into the Wi-Fi driver and network interface are recorded as events
    in a ghost trace and are assumed to succeed (the source aborts when they
    do not). */
module WifiManager {
  import opened ConfigStore

  datatype AuthMode = AuthOpen | AuthWpaWpa2Psk

  /** The `wifi_config_t.ap` fields the reconciler sets. */
  datatype ApConfig = ApConfig(
    ssid: string,
    ssidLen: nat,
    password: string,
    maxConnection: nat,
    authMode: AuthMode)

  /** One call into the Wi-Fi driver or network interface. */
  datatype RadioEvent =
    | NetifInit
    | EventLoopCreated
    | DefaultApNetifCreated
    | DriverInit
    | EventHandlerRegistered
    | SetModeAp
    | SetConfig(config: ApConfig)
    | Start
    | Stop

  const MAX_CONNECTION: nat := 4

  /** The driver setup `init` performs before it registers its observer. */
  const DRIVER_SETUP: seq<RadioEvent> :=
    [NetifInit, EventLoopCreated, DefaultApNetifCreated, DriverInit, EventHandlerRegistered, SetModeAp]

  /** The access-point configuration applied for `ssid` and `password`: the
      network is secured with WPA/WPA2-PSK exactly when the password is not
      empty, at most four stations may join, and the SSID length is given
      explicitly. */
  function ApConfigFor(ssid: Chars32, password: Chars64): (c: ApConfig)
    ensures c.authMode == AuthOpen <==> password == ""
    ensures c.maxConnection == 4
    ensures c.ssid == ssid && c.ssidLen == |ssid| && c.password == password
  {
    ApConfig(ssid, |ssid|, password, MAX_CONNECTION, if |password| > 0 then AuthWpaWpa2Psk else AuthOpen)
  }

  /** The remembered SSID and password and whether the AP runs. */
  datatype ApState = ApState(ssid: Chars32, password: Chars64, running: bool)

  /** The driver calls that bring the AP up with `ssid` and `password`. */
  function StartEvents(ssid: Chars32, password: Chars64): seq<RadioEvent>
  {
    [SetModeAp, SetConfig(ApConfigFor(ssid, password)), Start]
  }

  /** What one network-config notification does to the reconciler: nothing
      when the AP SSID and password equal the remembered ones; otherwise the
      new values are remembered, the AP is stopped if it runs and is then
      started with them. */
  function Reconcile(s: ApState, n: NetworkConfig): (r: (ApState, seq<RadioEvent>))
    ensures r.0.ssid == n.apSsid && r.0.password == n.apPassword
    ensures r.1 == [] <==> n.apSsid == s.ssid && n.apPassword == s.password
    ensures r.1 != [] ==> r.0.running && r.1[|r.1| - 1] == Start
    ensures |r.1| <= 4
  {
    if n.apSsid == s.ssid && n.apPassword == s.password then (s, [])
    else
      (ApState(n.apSsid, n.apPassword, true),
       (if s.running then [Stop] else []) + StartEvents(n.apSsid, n.apPassword))
  }

  /** After any notification the reconciler remembers exactly the SSID and
      password it carried; a changed pair leaves the AP running after
      exactly one start, preceded by a stop only if the AP was running. */
  lemma {:induction false} ReconcileApplies(s: ApState, n: NetworkConfig)
    ensures Reconcile(s, n).0.ssid == n.apSsid && Reconcile(s, n).0.password == n.apPassword
    ensures n.apSsid != s.ssid || n.apPassword != s.password ==>
      Reconcile(s, n).0.running &&
      Reconcile(s, n).1 == (if s.running then [Stop] else []) + StartEvents(n.apSsid, n.apPassword)
    ensures n.apSsid == s.ssid && n.apPassword == s.password ==> Reconcile(s, n) == (s, [])
  {
  }

  /** A notification repeated is a no-op the second time. */
  lemma {:induction false} ReconcileIdempotent(s: ApState, n: NetworkConfig)
    ensures Reconcile(Reconcile(s, n).0, n) == (Reconcile(s, n).0, [])
  {
  }

  /** Only the AP SSID and password matter: notifications that agree on them
      have the same effect. */
  lemma {:induction false} ReconcileIgnoresOtherFields(s: ApState, n: NetworkConfig, m: NetworkConfig)
    requires n.apSsid == m.apSsid && n.apPassword == m.apPassword
    ensures Reconcile(s, n) == Reconcile(s, m)
  {
  }

  /** The effect of a sequence of notifications, delivered in order; each
      notification costs at most four driver calls. */
  function ReconcileAll(s: ApState, ns: seq<NetworkConfig>): (r: (ApState, seq<RadioEvent>))
    ensures |r.1| <= 4 * |ns|
    decreases |ns|
  {
    if ns == [] then (s, [])
    else
      var first := Reconcile(s, ns[0]);
      var rest := ReconcileAll(first.0, ns[1..]);
      (rest.0, first.1 + rest.1)
  }

  /** After any non-empty run of notifications the reconciler holds the AP
      settings of the last one. */
  lemma {:induction false} ReconcileAllFollowsLast(s: ApState, ns: seq<NetworkConfig>)
    requires ns != []
    ensures ReconcileAll(s, ns).0.ssid == ns[|ns| - 1].apSsid
    ensures ReconcileAll(s, ns).0.password == ns[|ns| - 1].apPassword
    decreases |ns|
  {
    ReconcileApplies(s, ns[0]);
    if |ns| > 1 {
      ReconcileAllFollowsLast(Reconcile(s, ns[0]).0, ns[1..]);
    }
  }

  /** Every stop the reconciler issues is immediately followed by a start, so
      the AP is never left down by a run of notifications that restarted it. */
  lemma {:induction false} ReconcileAllEndsRunning(s: ApState, ns: seq<NetworkConfig>)
    requires ReconcileAll(s, ns).1 != []
    ensures ReconcileAll(s, ns).0.running
    ensures ReconcileAll(s, ns).1[|ReconcileAll(s, ns).1| - 1] == Start
    decreases |ns|
  {
    if ns != [] {
      var first := Reconcile(s, ns[0]);
      if ReconcileAll(first.0, ns[1..]).1 != [] {
        ReconcileAllEndsRunning(first.0, ns[1..]);
      } else {
        ReconcileAllQuiet(first.0, ns[1..]);
      }
    }
  }

  /** A run of notifications that issues no driver call changes nothing. */
  lemma {:induction false} ReconcileAllQuiet(s: ApState, ns: seq<NetworkConfig>)
    requires ReconcileAll(s, ns).1 == []
    ensures ReconcileAll(s, ns).0 == s
    decreases |ns|
  {
    if ns != [] {
      var first := Reconcile(s, ns[0]);
      assert first.1 == [];
      ReconcileAllQuiet(first.0, ns[1..]);
    }
  }

  class WiFiManager {
    var currentApSsid: Chars32
    var currentApPass: Chars64
    var apRunning: bool
    /** Set by the first `Init`. */
    var initialized: bool
    /** The callback this manager registers with the store. */
    const observer: ObserverId
    /** Every driver call so far, oldest first. */
    ghost var radio: seq<RadioEvent>

    function State(): ApState
      reads this
    {
      ApState(currentApSsid, currentApPass, apRunning)
    }

    /** A new manager remembers an empty SSID and password. */
    constructor (observer: ObserverId)
      ensures State() == ApState("", "", false)
      ensures !initialized && radio == [] && this.observer == observer
    {
      currentApSsid := "";
      currentApPass := "";
      apRunning := false;
      initialized := false;
      this.observer := observer;
      radio := [];
    }

    /** On its first call: sets up the driver, registers this manager as a
        network observer of `store` and applies the store's current network
        config. Later calls do nothing. */
    method Init(store: ConfigManager)
      modifies this, store`networkObservers
      ensures old(initialized) ==>
        State() == old(State()) && radio == old(radio) && initialized &&
        store.networkObservers == old(store.networkObservers)
      ensures !old(initialized) ==>
        initialized &&
        store.networkObservers == old(store.networkObservers) + [Callback(observer)] &&
        State() == Reconcile(old(State()), store.config.network).0 &&
        radio == old(radio) + DRIVER_SETUP + Reconcile(old(State()), store.config.network).1
    {
      if initialized {
        return;
      }
      radio := radio + DRIVER_SETUP;
      store.RegisterNetworkObserver(Callback(observer));
      initialized := true;
      var network := store.GetNetworkConfig();
      UpdateNetworkConfig(network);
    }

    /** Brings the AP up with the remembered SSID and password, unless it
        already runs. */
    method StartAP()
      modifies this
      ensures old(apRunning) ==> State() == old(State()) && radio == old(radio)
      ensures !old(apRunning) ==>
        State() == old(State()).(running := true) &&
        radio == old(radio) + StartEvents(currentApSsid, currentApPass)
      ensures initialized == old(initialized)
    {
      if apRunning {
        return;
      }
      var ssid, pass := currentApSsid, currentApPass;
      apRunning := true;
      radio := radio + [SetModeAp, SetConfig(ApConfigFor(ssid, pass)), Start];
    }

    /** Marks the AP stopped, stopping the driver only if it ran. */
    method StopAP()
      modifies this
      ensures State() == old(State()).(running := false)
      ensures radio == old(radio) + (if old(apRunning) then [Stop] else [])
      ensures initialized == old(initialized)
    {
      var wasRunning := apRunning;
      apRunning := false;
      if wasRunning {
        radio := radio + [Stop];
      }
    }

    /** The network observer: restarts the AP when the AP SSID or password
        differs from the remembered one. */
    method UpdateNetworkConfig(network: NetworkConfig)
      modifies this
      ensures State() == Reconcile(old(State()), network).0
      ensures radio == old(radio) + Reconcile(old(State()), network).1
      ensures initialized == old(initialized)
    {
      var ssidChanged := currentApSsid != network.apSsid;
      var passChanged := currentApPass != network.apPassword;
      if ssidChanged || passChanged {
        currentApSsid := network.apSsid;
        currentApPass := network.apPassword;
      }
      if ssidChanged || passChanged {
        if apRunning {
          StopAP();
        }
        StartAP();
      }
    }
  }
}
