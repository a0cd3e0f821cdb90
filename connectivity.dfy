/** The connectivity classifier of `checkNetworkStatus`: the browser's
    `navigator.onLine` flag and the outcome of one bounded network probe are
    turned into the tri-state signal the payment flow reads. */
module Connectivity {

  /** The signal the component keeps in `networkStatus`. */
  datatype NetworkStatus = Online | Low | Offline

  /** A probe answer slower than this many milliseconds means low connectivity. */
  const LATENCY_THRESHOLD_MS: real := 1000.0

  /** How the probe ended. `Answered` carries the measured round trip in
      milliseconds; `Failed` (a network error or the 3-second abort) carries
      what `navigator.onLine` reports when the failure is handled, because the
      source reads the flag a second time there. */
  datatype Probe = Answered(latencyMs: real) | Failed(onLineAfterFailure: bool)

  /** The classification. No probe is issued when the browser already reports
      offline; `probe` is then irrelevant. */
  function Classify(onLine: bool, probe: Probe): (r: NetworkStatus)
    ensures !onLine ==> r == Offline
    ensures onLine && probe.Failed? ==> (r == Low <==> probe.onLineAfterFailure)
    ensures onLine && probe.Failed? ==> (r == Offline <==> !probe.onLineAfterFailure)
    ensures onLine && probe.Answered? ==> (r == Low <==> probe.latencyMs > LATENCY_THRESHOLD_MS)
    ensures onLine && probe.Answered? ==> r != Offline
    ensures r == Online <==> onLine && probe.Answered? && probe.latencyMs <= LATENCY_THRESHOLD_MS
  {
    if !onLine then Offline
    else match probe
      case Answered(latency) => if latency > LATENCY_THRESHOLD_MS then Low else Online
      case Failed(stillOnLine) => if stillOnLine then Low else Offline
  }
}
