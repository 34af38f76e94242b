/** The names of Redis keys and channels that the services share. */
module Keys {
  const DEVICE_PREFIX := "pubsub:device:"
  const ALERT_PREFIX := "pubsub:alerts:"

  function KeyPubSubDevice(tenant: string): string { DEVICE_PREFIX + tenant }

  function KeyPubSubAlerts(tenant: string): string { ALERT_PREFIX + tenant }

  function KeyDeviceLive(tenant: string, device: string): string { "device:live:" + tenant + ":" + device }

  /** Tenants are UUIDs, which have no colon; so two devices, of one tenant or of two, never share a live key. */
  lemma LiveKeysDiffer(t: string, d: string, u: string, e: string)
    requires ':' !in t && ':' !in u
    ensures KeyDeviceLive(t, d) == KeyDeviceLive(u, e) ==> t == u && d == e
  {
    var x, y := t + ":" + d, u + ":" + e;
    assert KeyDeviceLive(t, d)[12..] == x && KeyDeviceLive(u, e)[12..] == y;
    if x == y {
      assert x[|t|] == ':' && y[|u|] == ':';
      assert forall i :: 0 <= i < |t| ==> x[i] == t[i];
      assert forall i :: 0 <= i < |u| ==> y[i] == u[i];
      assert |t| == |u|;
      assert x[..|t|] == t && y[..|u|] == u && x[|t| + 1..] == d && y[|u| + 1..] == e;
    }
  }

  /** The names in full. */
  lemma Names()
    ensures KeyPubSubDevice("t1") == "pubsub:device:t1" && KeyPubSubAlerts("t1") == "pubsub:alerts:t1"
    ensures KeyDeviceLive("t1", "d1") == "device:live:t1:d1"
  {
  }
}
