/**
 * The connectivity gate of the update checker (`ConnectivityReceiver.isConnected`):
 * a pure decision over the active network, as reported by the OS, and the
 * "update on Wi-Fi only" setting.
 */
module Connectivity {
  import opened Wrappers

  /** The network type the OS reports (`ConnectivityManager.TYPE_WIFI`, `TYPE_MOBILE`, or any other type). */
  datatype NetworkType = Wifi | Mobile | Other

  /** The active network as `ConnectivityManager.getActiveNetworkInfo()` describes it. */
  datatype NetworkInfo = NetworkInfo(kind: NetworkType, connected: bool)

  /**
   * Whether a check or a download may start. `active` is the active network
   * (None when the OS reports none). The nested branches follow the Java:
   * with Wi-Fi-only on, a non-Wi-Fi active network is refused first, and
   * otherwise the network must exist, be Wi-Fi and be connected.
   */
  function IsConnected(active: Option<NetworkInfo>, wifiOnly: bool): (ok: bool)
    // With Wi-Fi-only on: permitted iff there is a connected Wi-Fi network.
    ensures wifiOnly ==> (ok <==> active.Some? && active.value.kind == Wifi && active.value.connected)
    // With Wi-Fi-only off: permitted iff there is a connected Wi-Fi or mobile network.
    ensures !wifiOnly ==>
      (ok <==> active.Some? && (active.value.kind == Wifi || active.value.kind == Mobile) && active.value.connected)
  {
    if wifiOnly then
      if active.Some? && active.value.kind != Wifi then
        false
      else
        active.Some? && active.value.kind == Wifi && active.value.connected
    else
      active.Some? && (active.value.kind == Mobile || active.value.kind == Wifi) && active.value.connected
  }

  /** No active network never permits anything, in either mode. */
  lemma AbsentNetworkRefused(wifiOnly: bool)
    ensures !IsConnected(None, wifiOnly)
  {
  }

  /** A mobile network is refused in Wi-Fi-only mode, whether or not it is connected. */
  lemma MobileRefusedOnWifiOnly(connected: bool)
    ensures !IsConnected(Some(NetworkInfo(Mobile, connected)), true)
  {
  }

  /** Wi-Fi-only mode is the stricter policy: whatever it permits, the any-network mode permits too. */
  lemma WifiOnlyIsStricter(active: Option<NetworkInfo>)
    ensures IsConnected(active, true) ==> IsConnected(active, false)
  {
  }

  /** A disconnected network is refused whatever its type and the mode. */
  lemma DisconnectedRefused(kind: NetworkType, wifiOnly: bool)
    ensures !IsConnected(Some(NetworkInfo(kind, false)), wifiOnly)
  {
  }
}
