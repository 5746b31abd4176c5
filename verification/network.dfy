/** The network configuration: one production backend, a reachability probe,
    and a bounded retry loop that returns the production URL whatever the
    probes report. Probe outcomes are an oracle; time is reduced to the count of
    probes and the total of the two-second waits. */
module Network {

  datatype NetworkConfig = NetworkConfig(baseUrl: string, timeoutMs: nat)

  const Production: NetworkConfig := NetworkConfig("https://agir-safely-backend.onrender.com", 10000)

  /** The probe's abort deadline and the retry policy. */
  const ProbeDeadlineMs: nat := 5000
  const MaxAttempts: nat := 5
  const RetryWaitMs: nat := 2000

  /** How one probe ended: a response with a status, the abort at the
      deadline, or a thrown network error. */
  datatype ProbeOutcome = Answered(status: int) | Aborted | Threw

  datatype ProbeRequest = ProbeRequest(verb: string, url: string, deadlineMs: nat)

  datatype Probe = Probe(request: ProbeRequest, reachable: bool)

  /** `getNetworkConfig`: there is only the production entry. */
  function GetNetworkConfig(): (c: NetworkConfig)
    ensures c.baseUrl == "https://agir-safely-backend.onrender.com" && c.timeoutMs == 10000
  {
    Production
  }

  predicate Reachable(o: ProbeOutcome) {
    o.Answered? && 200 <= o.status <= 299
  }

  /** `testNetworkConnection(url)`: a GET of the root with a 5000 ms abort;
      true exactly for a response whose status is ok. */
  function TestNetworkConnection(url: string, outcome: ProbeOutcome): (p: Probe)
    ensures p.request == ProbeRequest("GET", url + "/", ProbeDeadlineMs)
    ensures p.reachable <==> outcome.Answered? && 200 <= outcome.status <= 299
    ensures outcome.Aborted? || outcome.Threw? ==> !p.reachable
  {
    match outcome
    case Answered(status) => Probe(ProbeRequest("GET", url + "/", ProbeDeadlineMs), 200 <= status <= 299)
    case _ => Probe(ProbeRequest("GET", url + "/", ProbeDeadlineMs), false)
  }

  /** `getBestApiUrl`: probe the production URL up to five times, stopping at
      the first success and waiting after every failure, the fifth included;
      `outcome(i)` is how attempt `i` (from 1) ends. The production URL is
      returned in every case. */
  method GetBestApiUrl(outcome: nat -> ProbeOutcome) returns (url: string, attempts: nat, waitedMs: nat)
    ensures url == GetNetworkConfig().baseUrl
    ensures 1 <= attempts <= MaxAttempts
    ensures forall i :: 1 <= i < attempts ==> !Reachable(outcome(i))
    ensures Reachable(outcome(attempts)) || attempts == MaxAttempts
    ensures waitedMs == RetryWaitMs * (if Reachable(outcome(attempts)) then attempts - 1 else attempts)
  {
    url := Production.baseUrl;
    attempts := 0;
    waitedMs := 0;
    var attempt := 1;
    while attempt <= MaxAttempts
      invariant 1 <= attempt <= MaxAttempts + 1
      invariant attempts == attempt - 1 && waitedMs == RetryWaitMs * (attempt - 1)
      invariant forall i :: 1 <= i < attempt ==> !Reachable(outcome(i))
    {
      var probe := TestNetworkConnection(url, outcome(attempt));
      attempts := attempts + 1;
      if probe.reachable {
        return;
      }
      waitedMs := waitedMs + RetryWaitMs;
      attempt := attempt + 1;
    }
  }
}
