/** The records the pool holds, the verdicts a probe returns, and the policies that use both. */
module Proxies {
  import opened Common

  type ProxyId = string
  type Host = string

  datatype IpAddr = V4(bits: Word32) | V6(high: nat, low: nat)

  datatype Protocol = Http | Https | Socks4 | Socks5 | Trojan | Shadowsocks

  datatype Anonymity = Transparent | Anonymous | Elite | Unknown

  datatype ProxyInfo = ProxyInfo(
    id: ProxyId,
    host: Host,
    port: Word16,
    protocol: Protocol,
    anonymity: Anonymity,
    latency: Option<nat>,
    country: Option<string>,
    lastChecked: Option<Time>,
    lastSuccess: Option<Time>,
    firstSeen: Time,
    nextProbeAt: Time,
    supportsTunnel: bool,
    exitIp: Option<IpAddr>,
    consecutiveFailures: Word32,
    score: real)
  {
    /** A freshly discovered proxy: known to exist, proven to work by nothing. */
    function Discovered(now: Time): ProxyInfo {
      this.(lastChecked := None, lastSuccess := None, consecutiveFailures := 0, score := 0.0,
            firstSeen := now, nextProbeAt := now, supportsTunnel := true)
    }

    predicate IsWorking() {
      lastSuccess.Some? && consecutiveFailures == 0
    }
  }

  datatype Verdict = Working | Failed | Inconclusive

  datatype HealthResult = HealthResult(
    proxyId: ProxyId,
    verdict: Verdict,
    latency: nat,
    tunneled: bool,
    anonymity: Option<Anonymity>,
    exitIp: Option<IpAddr>)

  datatype EvictionPolicy = EvictionPolicy(maxConsecutiveFailures: Word32, unverifiedTtlSecs: nat)

  /** When each proxy should be probed again, in seconds. */
  datatype ProbeSchedule = ProbeSchedule(
    workingIntervalSecs: nat,
    failedBackoffSecs: seq<nat>,
    inconclusiveBackoffSecs: nat)
  {
    /** The wait after this many failures in a row; the last entry serves every further one. */
    function FailedBackoff(failures: Word32): nat {
      var index := if failures == 0 then 0 else failures - 1;
      if index < |failedBackoffSecs| then failedBackoffSecs[index]
      else if |failedBackoffSecs| > 0 then failedBackoffSecs[|failedBackoffSecs| - 1]
      else 3600
    }
  }

  datatype Rotation = Sticky | Timed | PerRequest

  datatype ProxyPolicy = ProxyPolicy(
    rotation: Rotation,
    stickySecs: nat,
    rotateIntervalSecs: nat,
    countries: seq<string>,
    protocols: seq<Protocol>,
    minScore: real)
  {
    predicate Allows(proxy: ProxyInfo) {
      && (countries == [] || exists i :: 0 <= i < |countries| && EqIgnoreCase(countries[i], CountryOf(proxy)))
      && (protocols == [] || proxy.protocol in protocols)
      && proxy.score >= minScore
    }
  }

  function CountryOf(proxy: ProxyInfo): string {
    if proxy.country.Some? then proxy.country.value else ""
  }

  /** `str::eq_ignore_ascii_case`. */
  predicate EqIgnoreCase(a: string, b: string) {
    |a| == |b| && forall i :: 0 <= i < |a| ==> Lower(a[i]) == Lower(b[i])
  }

  function Lower(c: char): char {
    if 'A' <= c <= 'Z' then ((c as int) + 32) as char else c
  }

  function ScoreFor(latency: nat): real {
    if latency == 0 then 0.0
    else if 1000.0 / (latency as real) <= 100.0 then 1000.0 / (latency as real)
    else 100.0
  }

  /** What a proxy that is being avoided is known by: its own id, or the server it is on. */
  datatype Avoid = ById(id: ProxyId) | ByHost(host: Host)
}
