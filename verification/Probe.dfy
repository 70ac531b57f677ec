/** Probing one node: the baseline dials, the two groups of fetches, the weighted score and the mixed result
    (probeNodeLatencyBaseline, probeSingBoxURLGroup, probeNodeLatencyE2E, probeNodeLatencyMixed and the weights of
    parseSubscriptionConfig in server/internal/service/target_service.go). Times are in milliseconds; reals stand
    for float64. */
module Probe {
  import opened Text
  import opened Median
  import opened SingBoxFetch

  // ----- Weights -----

  datatype Weights = Weights(domestic: real, overseas: real)

  /** Weights that are negative or add up to nothing are replaced; all are scaled to the sum 1. */
  function Normalize(w: Weights): (r: Weights) {
    var v := if w.domestic < 0.0 || w.overseas < 0.0 || w.domestic + w.overseas <= 0.0 then Weights(0.3, 0.7) else w;
    var sum := v.domestic + v.overseas;
    Weights(v.domestic / sum, v.overseas / sum)
  }

  predicate AreShares(w: Weights) {
    w.domestic >= 0.0 && w.overseas >= 0.0 && w.domestic + w.overseas == 1.0
  }

  lemma Share(a: real, b: real)
    requires a >= 0.0 && b >= 0.0 && a + b > 0.0
    ensures a / (a + b) >= 0.0 && b / (a + b) >= 0.0 && a / (a + b) + b / (a + b) == 1.0
  {
    assert a / (a + b) + b / (a + b) == (a + b) / (a + b);
  }

  lemma NormalizeMakesShares(w: Weights)
    ensures AreShares(Normalize(w))
  {
    var v := if w.domestic < 0.0 || w.overseas < 0.0 || w.domestic + w.overseas <= 0.0 then Weights(0.3, 0.7) else w;
    Share(v.domestic, v.overseas);
  }

  // ----- A group of fetches -----

  /** What the i-th fetch, of this URL, comes to. */
  type Fetches = (nat, string) -> Sample

  ghost predicate TakeTime(f: Fetches) {
    forall i, u :: f(i, u).Took? ==> f(i, u).ms >= 1
  }

  datatype Group = Group(median: Option<int>, samples: seq<int>, err: string)

  /** The latencies of the successes among the first n fetches, which take the URLs in turn. */
  function Latencies(urls: seq<string>, f: Fetches, n: nat): (r: seq<int>)
    requires urls != []
    ensures |r| <= n
  {
    if n == 0 then []
    else
      var s := f(n - 1, urls[(n - 1) % |urls|]);
      Latencies(urls, f, n - 1) + if s.Took? then [s.ms] else []
  }

  function LastError(urls: seq<string>, f: Fetches, n: nat): string
    requires urls != []
  {
    if n == 0 then ""
    else
      var s := f(n - 1, urls[(n - 1) % |urls|]);
      if s.Failed? then s.msg else LastError(urls, f, n - 1)
  }

  function GroupOf(urls: seq<string>, f: Fetches, count: nat): Group {
    if urls == [] then Group(None, [], "empty url group")
    else
      var latencies := Latencies(urls, f, count);
      if latencies == [] then
        var e := LastError(urls, f, count);
        Group(None, [], if e == "" then "group probe failed" else e)
      else Group(Some(MedianInt(latencies)), Sort(latencies), "")
  }

  method ProbeURLGroup(urls: seq<string>, f: Fetches, count: nat) returns (r: Group)
    ensures r == GroupOf(urls, f, count)
  {
    if urls == [] {
      return Group(None, [], "empty url group");
    }
    var latencies: seq<int> := [];
    var lastErr := "";
    for i := 0 to count
      invariant latencies == Latencies(urls, f, i)
      invariant lastErr == LastError(urls, f, i)
    {
      var s := f(i, urls[i % |urls|]);
      match s
      case Failed(e) => lastErr := e;
      case Took(ms) => latencies := latencies + [ms];
    }
    if latencies == [] {
      return Group(None, [], if lastErr == "" then "group probe failed" else lastErr);
    }
    var sorted := Sort(latencies);
    r := Group(Some(sorted[|sorted| / 2]), sorted, "");
  }

  lemma {:induction false} LatenciesArePositive(urls: seq<string>, f: Fetches, n: nat)
    requires urls != [] && TakeTime(f)
    ensures forall i :: 0 <= i < |Latencies(urls, f, n)| ==> Latencies(urls, f, n)[i] >= 1
  {
    if n > 0 {
      LatenciesArePositive(urls, f, n - 1);
      assert f(n - 1, urls[(n - 1) % |urls|]).Took? ==> f(n - 1, urls[(n - 1) % |urls|]).ms >= 1;
    }
  }

  lemma {:induction false} LatenciesExist(urls: seq<string>, f: Fetches, n: nat)
    requires urls != []
    ensures Latencies(urls, f, n) != [] <==> exists i: nat :: i < n && f(i, urls[i % |urls|]).Took?
  {
    if n > 0 {
      LatenciesExist(urls, f, n - 1);
      if f(n - 1, urls[(n - 1) % |urls|]).Took? {
        assert n - 1 < n && f(n - 1, urls[(n - 1) % |urls|]).Took?;
      }
    }
  }

  /** A group has a median exactly when one of its fetches succeeds; the median and all samples are at least 1. */
  lemma GroupHasMedianIff(urls: seq<string>, f: Fetches, count: nat)
    requires TakeTime(f)
    ensures var g := GroupOf(urls, f, count);
            && (g.median.Some? <==> urls != [] && exists i: nat :: i < count && f(i, urls[i % |urls|]).Took?)
            && (g.median.Some? <==> g.samples != []) && (g.median.Some? <==> g.err == "")
            && (g.median.Some? ==> g.median.value in g.samples)
            && forall i :: 0 <= i < |g.samples| ==> g.samples[i] >= 1
  {
    if urls != [] {
      LatenciesExist(urls, f, count);
      LatenciesArePositive(urls, f, count);
      var l := Latencies(urls, f, count);
      if l != [] {
        SortedEnds(l);
        SortSorts(l);
      }
    }
  }

  // ----- The score -----

  datatype E2E = E2E(success: bool, domesticMS: int, overseasMS: int, scoreMS: int, jitterMS: int, fail: Failure)

  /** How overseas errors are classified. */
  type Classifier = string -> Failure

  function OrZero(v: Option<int>): int {
    match v
    case None => 0
    case Some(x) => x
  }

  function Weighted(domestic: Option<int>, overseas: int, w: Weights): real {
    match domestic
    case None => overseas as real
    case Some(d) => d as real * w.domestic + overseas as real * w.overseas
  }

  /** The spread of all samples, 0 for a single one. */
  function Jitter(all: seq<int>): int {
    if |all| > 1 then Sort(all)[|all| - 1] - Sort(all)[0] else 0
  }

  function Penalty(jitter: int): real {
    if jitter > 40 then (jitter - 40) as real * 0.25 else 0.0
  }

  /** math.Round of a value that is not negative. */
  function Round(x: real): int {
    (x + 0.5).Floor
  }

  function Score(weighted: real): int {
    var out := Round(weighted);
    if out < 1 then 1 else out
  }

  function E2EOf(domestic: Group, overseas: Group, w: Weights, classify: Classifier): E2E {
    match overseas.median
    case None =>
      E2E(false, OrZero(domestic.median), 0, 0, 0,
          classify(if overseas.err == "" then "all overseas probes failed" else overseas.err))
    case Some(o) =>
      var jitter := Jitter(domestic.samples + overseas.samples);
      var score := Score(Weighted(domestic.median, o, w) + Penalty(jitter));
      E2E(true, OrZero(domestic.median), o, score, jitter, Failure("", ""))
  }

  lemma Scale(a: real, b: real, x: real)
    requires a <= b && x >= 0.0
    ensures a * x <= b * x
  {
  }

  lemma Distribute(a: real, x: real, y: real)
    requires x + y == 1.0
    ensures a * x + a * y == a
  {
    assert a * x + a * y == a * (x + y);
  }

  lemma AddUp(a: real, b: real, c: real, d: real)
    requires a <= c && b <= d
    ensures a + b <= c + d
  {
  }

  /** A weighted mean lies between its parts. */
  lemma MeanIsBetween(d: real, o: real, x: real, y: real, lo: real, hi: real)
    requires x >= 0.0 && y >= 0.0 && x + y == 1.0 && lo <= d <= hi && lo <= o <= hi
    ensures lo <= d * x + o * y <= hi
  {
    Scale(lo, d, x);
    Scale(lo, o, y);
    Distribute(lo, x, y);
    AddUp(lo * x, lo * y, d * x, o * y);
    Scale(d, hi, x);
    Scale(o, hi, y);
    Distribute(hi, x, y);
    AddUp(d * x, o * y, hi * x, hi * y);
  }

  /** Rounding a value between lo and hi, plus the penalty, stays at least lo and little above hi. */
  lemma RoundIsNear(x: real, lo: int, hi: int, jitter: int)
    requires 1 <= lo <= hi && lo as real <= x <= hi as real && jitter >= 0
    ensures lo <= Score(x + Penalty(jitter))
    ensures 4 * Score(x + Penalty(jitter)) <= 4 * hi + (if jitter > 40 then jitter - 40 else 0) + 2
  {
    var y := x + Penalty(jitter);
    var r := Round(y);
    assert r as real <= y + 0.5;
    assert lo as real <= y + 0.5;
    assert 4.0 * (r as real) <= 4.0 * (hi as real) + (if jitter > 40 then (jitter - 40) as real else 0.0) + 2.0;
  }

  /** What the groups of a probe guarantee. */
  predicate IsGroup(g: Group) {
    && (g.median.Some? <==> g.samples != [])
    && (g.median.Some? ==> g.median.value in g.samples)
    && forall i :: 0 <= i < |g.samples| ==> g.samples[i] >= 1
  }

  lemma JitterIsSpread(all: seq<int>) returns (lo: int, hi: int)
    requires all != []
    ensures lo in all && hi in all && forall x :: x in all ==> lo <= x <= hi
    ensures Jitter(all) == hi - lo
  {
    SortedEnds(all);
    lo, hi := Sort(all)[0], Sort(all)[|all| - 1];
  }

  lemma WeightedIsBetween(domestic: Option<int>, o: int, w: Weights, lo: int, hi: int)
    requires lo <= o <= hi && (domestic.Some? ==> lo <= domestic.value <= hi) && AreShares(w)
    ensures lo as real <= Weighted(domestic, o, w) <= hi as real
  {
    if domestic.Some? {
      MeanIsBetween(domestic.value as real, o as real, w.domestic, w.overseas, lo as real, hi as real);
    }
  }

  /** Main result: the score is at least the smallest of all samples of both groups and exceeds the largest by
      at most a quarter of the spread beyond 40 ms, and rounding. */
  lemma ScoreIsBounded(
    domestic: Group, overseas: Group, weights: Weights, classify: Classifier) returns (lo: int, hi: int)
    requires IsGroup(domestic) && IsGroup(overseas) && overseas.median.Some?
    ensures var all := domestic.samples + overseas.samples;
            var e := E2EOf(domestic, overseas, Normalize(weights), classify);
            && e.success && lo in all && hi in all && (forall x :: x in all ==> lo <= x <= hi)
            && e.jitterMS == hi - lo && 1 <= lo <= e.scoreMS
            && 4 * e.scoreMS <= 4 * hi + (if e.jitterMS > 40 then e.jitterMS - 40 else 0) + 2
  {
    var all := domestic.samples + overseas.samples;
    var w := Normalize(weights);
    NormalizeMakesShares(weights);
    lo, hi := JitterIsSpread(all);
    ScoreOfShares(domestic, overseas, w, classify, lo, hi);
  }

  lemma ScoreOfShares(domestic: Group, overseas: Group, w: Weights, classify: Classifier, lo: int, hi: int)
    requires IsGroup(domestic) && IsGroup(overseas) && overseas.median.Some? && AreShares(w)
    requires var all := domestic.samples + overseas.samples;
             lo in all && (forall x :: x in all ==> lo <= x <= hi) && Jitter(all) == hi - lo
    ensures var e := E2EOf(domestic, overseas, w, classify);
            && 1 <= lo <= e.scoreMS
            && 4 * e.scoreMS <= 4 * hi + (if hi - lo > 40 then hi - lo - 40 else 0) + 2
  {
    var all := domestic.samples + overseas.samples;
    var o := overseas.median.value;
    assert o in all;
    assert domestic.median.Some? ==> domestic.median.value in all;
    WeightedIsBetween(domestic.median, o, w, lo, hi);
    RoundIsNear(Weighted(domestic.median, o, w), lo, hi, hi - lo);
  }

  /** Rounding to the nearest whole number, halves up, from 1 on. */
  lemma {:induction false} ScoreRounds(x: real)
    requires x >= 1.0
    ensures x - 0.5 < Score(x) as real <= x + 0.5
  {
    var r := (x + 0.5).Floor;
    assert r as real <= x + 0.5 < r as real + 1.0;
  }

  /** The mean of the medians by the shares, the overseas median alone if there is no other. */
  function MeanOf(domestic: Option<int>, overseas: int, d: real, o: real): real {
    match domestic
    case None => overseas as real
    case Some(x) => x as real * d + overseas as real * o
  }

  /** What the spread of the samples costs: a quarter of what exceeds 40 ms. */
  function Surcharge(spread: int): real {
    if spread > 40 then (spread - 40) as real / 4.0 else 0.0
  }

  lemma {:induction false} MeanIsWeighted(domestic: Option<int>, o: int, w: Weights, spread: int)
    ensures Weighted(domestic, o, w) + Penalty(spread) ==
              MeanOf(domestic, o, w.domestic, w.overseas) + Surcharge(spread)
  {
  }

  lemma {:induction false} ScoreOfMean(
    domestic: Group, overseas: Group, w: Weights, classify: Classifier, lo: int, hi: int)
    requires IsGroup(domestic) && IsGroup(overseas) && overseas.median.Some? && AreShares(w)
    requires var all := domestic.samples + overseas.samples;
             lo in all && (forall x :: x in all ==> lo <= x <= hi) && Jitter(all) == hi - lo
    ensures var e := E2EOf(domestic, overseas, w, classify);
            && e.success && e.jitterMS == hi - lo
            && var exact := MeanOf(domestic.median, overseas.median.value, w.domestic, w.overseas) + Surcharge(hi - lo);
               exact - 0.5 < e.scoreMS as real <= exact + 0.5
  {
    var all, o := domestic.samples + overseas.samples, overseas.median.value;
    assert o in all && (domestic.median.Some? ==> domestic.median.value in all);
    WeightedIsBetween(domestic.median, o, w, lo, hi);
    MeanIsWeighted(domestic.median, o, w, hi - lo);
    ScoreRounds(Weighted(domestic.median, o, w) + Penalty(hi - lo));
  }

  /** Main result: the score is the mean of the two medians, each by its share, plus a quarter of what the spread of all
      samples exceeds 40 ms by, rounded to the nearest whole number; the jitter is that spread. */
  lemma {:induction false} ScoreIsMean(domestic: Group, overseas: Group, weights: Weights, classify: Classifier)
    returns (lo: int, hi: int)
    requires IsGroup(domestic) && IsGroup(overseas) && overseas.median.Some?
    ensures var all, w := domestic.samples + overseas.samples, Normalize(weights);
            var e := E2EOf(domestic, overseas, w, classify);
            && lo in all && hi in all && (forall x :: x in all ==> lo <= x <= hi)
            && AreShares(w) && e.success && e.jitterMS == hi - lo
            && var exact := MeanOf(domestic.median, overseas.median.value, w.domestic, w.overseas) + Surcharge(hi - lo);
               exact - 0.5 < e.scoreMS as real <= exact + 0.5
  {
    NormalizeMakesShares(weights);
    lo, hi := JitterIsSpread(domestic.samples + overseas.samples);
    ScoreOfMean(domestic, overseas, Normalize(weights), classify, lo, hi);
  }

  /** Weights that cannot be used give 0.3 and 0.7; others keep their ratio. */
  lemma {:induction false} NormalizeMeans(w: Weights)
    ensures var v := Normalize(w);
            if w.domestic >= 0.0 && w.overseas >= 0.0 && w.domestic + w.overseas > 0.0
            then v.domestic * w.overseas == v.overseas * w.domestic
            else v == Weights(0.3, 0.7)
  {
    if w.domestic >= 0.0 && w.overseas >= 0.0 && w.domestic + w.overseas > 0.0 {
      RatioIsKept(w.domestic, w.overseas);
    } else {
      assert 0.3 / (0.3 + 0.7) == 0.3 && 0.7 / (0.3 + 0.7) == 0.7;
    }
  }

  lemma {:induction false} RatioIsKept(a: real, b: real)
    requires a >= 0.0 && b >= 0.0 && a + b > 0.0
    ensures (a / (a + b)) * b == (b / (a + b)) * a
  {
    var sum := a + b;
    assert (a / sum) * b == (a * b) / sum;
    assert (b / sum) * a == (b * a) / sum;
  }

  /** Usable weights keep their ratio; a group without weight does not move the score: with small
      spread the score is the median of the other group. */
  lemma {:induction false} ScoreFollowsWeights(domestic: Group, overseas: Group, w: Weights, classify: Classifier)
    requires IsGroup(domestic) && IsGroup(overseas) && overseas.median.Some?
    requires w.domestic >= 0.0 && w.overseas >= 0.0 && w.domestic + w.overseas > 0.0
    requires Jitter(domestic.samples + overseas.samples) <= 40
    ensures Normalize(w).domestic * w.overseas == Normalize(w).overseas * w.domestic
    ensures var e := E2EOf(domestic, overseas, Normalize(w), classify);
            && (domestic.median.None? || w.domestic == 0.0 ==> e.scoreMS == overseas.median.value)
            && (domestic.median.Some? && w.overseas == 0.0 ==> e.scoreMS == domestic.median.value)
  {
    RatioIsKept(w.domestic, w.overseas);
    var v := Normalize(w);
    var o := overseas.median.value;
    RoundOfWhole(o);
    if domestic.median.Some? {
      var d := domestic.median.value;
      RoundOfWhole(d);
      if w.domestic == 0.0 {
        NoShare(w.overseas);
      }
      if w.overseas == 0.0 {
        NoShare(w.domestic);
      }
    }
  }

  lemma NoShare(b: real)
    requires b > 0.0
    ensures 0.0 / (0.0 + b) == 0.0 && b / (0.0 + b) == 1.0 && 0.0 / (b + 0.0) == 0.0 && b / (b + 0.0) == 1.0
  {
    assert 0.0 / b == 0.0;
    assert b / b == 1.0;
  }

  lemma RoundOfWhole(x: int)
    requires x >= 1
    ensures Score(x as real) == x
  {
  }

  // ----- The baseline -----

  /** What the i-th dial, with or without TLS, comes to. */
  type Dials = (nat, bool) -> Sample

  datatype Baseline = Baseline(success: bool, latencyMS: int, tcpMS: int, tlsMS: int, failReason: string)

  /** How a node is dialled: with TLS first or not, and then perhaps the other way. */
  datatype Transport = Transport(tls: bool, fallback: Option<bool>)

  /** The i-th sample, and whether it used TLS. */
  function Dial(dials: Dials, t: Transport, i: nat): (Sample, bool) {
    var first := dials(i, t.tls);
    if first.Failed? && t.fallback.Some? then (dials(i, t.fallback.value), t.fallback.value) else (first, t.tls)
  }

  /** The latencies among the first n samples: all of them, or those with or without TLS. */
  datatype Which = Any | Only(tls: bool)

  function Dialled(dials: Dials, t: Transport, which: Which, n: nat): seq<int> {
    if n == 0 then []
    else
      var (s, tls) := Dial(dials, t, n - 1);
      Dialled(dials, t, which, n - 1) + if s.Took? && (which.Any? || which.tls == tls) then [s.ms] else []
  }

  function LastDialError(dials: Dials, t: Transport, n: nat): string {
    if n == 0 then ""
    else
      var (s, _) := Dial(dials, t, n - 1);
      if s.Failed? then s.msg else LastDialError(dials, t, n - 1)
  }

  function SelectLatency(t: Transport, all: seq<int>, tcp: seq<int>, tls: seq<int>): int {
    if t.tls && tls != [] then MedianInt(tls)
    else if all != [] then MedianInt(all)
    else if tls != [] then MedianInt(tls)
    else if tcp != [] then MedianInt(tcp)
    else 0
  }

  function BaselineOf(dials: Dials, t: Transport, count: nat): Baseline {
    var all := Dialled(dials, t, Any, count);
    var tcp, tls := Dialled(dials, t, Only(false), count), Dialled(dials, t, Only(true), count);
    if all == [] then
      var e := LastDialError(dials, t, count);
      Baseline(false, 0, 0, 0, if e == "" then "probe failed" else e)
    else Baseline(true, SelectLatency(t, all, tcp, tls), MedianInt(tcp), MedianInt(tls), "")
  }

  method ProbeBaseline(dials: Dials, t: Transport, count: nat) returns (r: Baseline)
    ensures r == BaselineOf(dials, t, count)
  {
    var latencies: seq<int>, tcpValues: seq<int>, tlsValues: seq<int> := [], [], [];
    var lastErr := "";
    for i := 0 to count
      invariant latencies == Dialled(dials, t, Any, i)
      invariant tcpValues == Dialled(dials, t, Only(false), i)
      invariant tlsValues == Dialled(dials, t, Only(true), i)
      invariant lastErr == LastDialError(dials, t, i)
    {
      var sample, usedTLS := dials(i, t.tls), t.tls;
      if sample.Failed? && t.fallback.Some? {
        usedTLS := t.fallback.value;
        sample := dials(i, usedTLS);
      }
      match sample
      case Failed(e) =>
        lastErr := e;
      case Took(ms) =>
        latencies := latencies + [ms];
        if usedTLS {
          tlsValues := tlsValues + [ms];
        } else {
          tcpValues := tcpValues + [ms];
        }
    }
    if latencies == [] {
      return Baseline(false, 0, 0, 0, if lastErr == "" then "probe failed" else lastErr);
    }
    var latency := SelectLatency(t, latencies, tcpValues, tlsValues);
    r := Baseline(true, latency, MedianInt(tcpValues), MedianInt(tlsValues), "");
  }

  ghost predicate DialsTakeTime(dials: Dials) {
    forall i, tls :: dials(i, tls).Took? ==> dials(i, tls).ms >= 1
  }

  lemma {:induction false} DialledIsPositive(dials: Dials, t: Transport, which: Which, n: nat, x: int)
    requires DialsTakeTime(dials) && x in Dialled(dials, t, which, n)
    ensures x >= 1 && x in Dialled(dials, t, Any, n)
  {
    var (s, _) := Dial(dials, t, n - 1);
    if x in Dialled(dials, t, which, n - 1) {
      DialledIsPositive(dials, t, which, n - 1, x);
    } else {
      assert s.Took? && x == s.ms;
    }
  }

  lemma DialledMedian(dials: Dials, t: Transport, which: Which, n: nat)
    requires DialsTakeTime(dials)
    ensures var l := Dialled(dials, t, which, n);
            && (MedianInt(l) > 0 <==> l != [])
            && (l != [] ==> MedianInt(l) in Dialled(dials, t, Any, n))
  {
    var l := Dialled(dials, t, which, n);
    if l != [] {
      MedianIsMiddle(l);
      DialledIsPositive(dials, t, which, n, MedianInt(l));
    }
  }

  /** The baseline succeeds exactly when some dial does; its latency is a positive median of real samples, and
      the TLS latency is positive exactly when a TLS dial succeeded. */
  lemma BaselineIsMeasured(dials: Dials, t: Transport, count: nat)
    requires DialsTakeTime(dials)
    ensures var b := BaselineOf(dials, t, count);
            && (b.success <==> Dialled(dials, t, Any, count) != [])
            && (b.success ==> b.latencyMS in Dialled(dials, t, Any, count) && b.latencyMS >= 1)
            && (b.tlsMS > 0 <==> Dialled(dials, t, Only(true), count) != [])
            && (b.success <==> b.failReason == "")
  {
    DialledMedian(dials, t, Any, count);
    DialledMedian(dials, t, Only(true), count);
  }

  // ----- The mixed result -----

  datatype Mixed = Mixed(
    success: bool, latencyMS: int, scoreMS: int, tcpMS: int, tlsMS: int, domesticMS: int, overseasMS: int,
    jitterMS: int, mode: string, failStage: string, failReason: string, errorMsg: string)

  const SKIPPED := Baseline(false, 0, 0, 0, "skipped_for_quic")

  /** shouldSkipBaselineProbe, for a lower-case protocol: these do not run over TCP. */
  predicate SkipsBaseline(protocol: string) {
    protocol == "tuic" || protocol == "hysteria" || protocol == "hysteria2" || protocol == "hy2"
  }

  /** probeTransportPlan, for a lower-case protocol. */
  function TransportFor(protocol: string): Transport {
    if protocol == "trojan" || protocol == "tuic" || protocol == "hysteria" || protocol == "hysteria2" then
      Transport(true, None)
    else if protocol == "vmess" || protocol == "vless" then Transport(true, Some(false))
    else Transport(false, None)
  }

  function BaselineFor(protocol: string, dials: Dials, count: nat): Baseline {
    if SkipsBaseline(protocol) then SKIPPED else BaselineOf(dials, TransportFor(protocol), count)
  }

  /** shouldFallbackToBaselineOnE2EFailure, for a lower-case protocol; blames tells which reasons blame the proxy. */
  predicate FallsBack(protocol: string, b: Baseline, e: E2E, blames: string -> bool) {
    && !e.success && b.tlsMS > 0
    && protocol != "ss" && protocol != "shadowsocks"
    && protocol != "tuic" && protocol != "hysteria" && protocol != "hysteria2"
    && blames(e.fail.reason)
  }

  function FullReason(b: Baseline, reason: string): string {
    if !b.success && b.failReason != "" && b.failReason != "skipped_for_quic" then
      (if reason != "" then reason + "; " else "") + "baseline: " + b.failReason
    else reason
  }

  function OrElse(s: string, other: string): string {
    if s == "" then other else s
  }

  function MixedOf(protocol: string, b: Baseline, e: E2E, blames: string -> bool): Mixed {
    if e.success then
      Mixed(true, e.overseasMS, e.scoreMS, b.tcpMS, b.tlsMS, e.domesticMS, e.overseasMS, e.jitterMS,
            "mixed", "", "", "")
    else if b.success && ("parse" <= e.fail.stage || FallsBack(protocol, b, e, blames)) then
      Mixed(true, b.latencyMS, b.latencyMS, b.tcpMS, b.tlsMS, 0, 0, 0, "baseline", "", "", "")
    else
      var stage, reason := OrElse(e.fail.stage, "probe"), OrElse(FullReason(b, e.fail.reason), "probe failed");
      Mixed(false, 0, 0, b.tcpMS, b.tlsMS, e.domesticMS, e.overseasMS, e.jitterMS, "mixed", stage, reason,
            stage + ": " + reason)
  }

  /** The whole probe of a node: the E2E part failed to build an outbound, or ran both groups. */
  datatype Attempt = Unsupported(reason: string) | Groups(domestic: Group, overseas: Group)

  function ProbeNode(
    protocol: string, b: Baseline, a: Attempt, w: Weights, classify: Classifier, blames: string -> bool): Mixed
  {
    var e :=
      match a
      case Unsupported(reason) => E2E(false, 0, 0, 0, 0, Failure("parse", "unsupported: " + reason))
      case Groups(domestic, overseas) => E2EOf(domestic, overseas, Normalize(w), classify);
    MixedOf(protocol, b, e, blames)
  }

  /** A probe succeeds exactly when it has no error message; a success has a latency and a score of
      at least 1 and no stage or reason, a failure has a stage and a reason and no latency or score. */
  lemma ProbeIsCoherent(
    protocol: string, b: Baseline, a: Attempt, w: Weights, classify: Classifier, blames: string -> bool)
    requires b.success ==> b.latencyMS >= 1
    requires a.Groups? ==> IsGroup(a.domestic) && IsGroup(a.overseas)
    ensures var m := ProbeNode(protocol, b, a, w, classify, blames);
            && (m.success <==> m.errorMsg == "")
            && (m.success ==> m.latencyMS >= 1 && m.scoreMS >= 1 && m.failStage == "" && m.failReason == "")
            && (!m.success ==> m.failStage != "" && m.failReason != "" && m.latencyMS == 0 && m.scoreMS == 0)
            && (m.success && m.mode == "mixed" <==> a.Groups? && a.overseas.samples != [])
            && (m.success && m.mode == "mixed" ==>
                  a.overseas.median == Some(m.latencyMS) && m.overseasMS == m.latencyMS)
            && (m.success && m.mode == "baseline" ==> b.success && m.latencyMS == b.latencyMS)
            && (a.Unsupported? ==> (m.success <==> b.success))
  {
    if a.Groups? && a.overseas.median.Some? {
      var lo, hi := ScoreIsBounded(a.domestic, a.overseas, w, classify);
      assert a.overseas.median.value in a.overseas.samples;
    }
  }

  // ----- From the network to the result -----

  /** All that a probe of a node depends on: the node, the configuration, and what each dial and fetch comes to. */
  datatype Inputs = Inputs(
    protocol: string, unsupported: Option<string>, count: nat, domesticURLs: seq<string>, overseasURLs: seq<string>,
    weights: Weights, dials: Dials, domestic: Fetches, overseas: Fetches, classify: Classifier, blames: string -> bool)

  /** Dials and fetches that succeed take at least a millisecond, as they are rounded. */
  ghost predicate Possible(x: Inputs) {
    DialsTakeTime(x.dials) && TakeTime(x.domestic) && TakeTime(x.overseas)
  }

  function AttemptOf(x: Inputs): Attempt {
    match x.unsupported
    case Some(reason) => Unsupported(reason)
    case None =>
      Groups(GroupOf(x.domesticURLs, x.domestic, x.count), GroupOf(x.overseasURLs, x.overseas, x.count))
  }

  /** probeNodeLatencyMixed as a function of what the network does. */
  function ProbeOf(x: Inputs): Mixed {
    ProbeNode(x.protocol, BaselineFor(x.protocol, x.dials, x.count), AttemptOf(x), x.weights, x.classify, x.blames)
  }

  /** m is the result of some probe. */
  ghost predicate IsProbe(m: Mixed) {
    exists x: Inputs :: Possible(x) && ProbeOf(x) == m
  }

  lemma {:induction false} GroupIsGroup(urls: seq<string>, f: Fetches, count: nat)
    requires TakeTime(f)
    ensures IsGroup(GroupOf(urls, f, count))
  {
    GroupHasMedianIff(urls, f, count);
  }

  lemma {:induction false} BaselineIsPositive(protocol: string, dials: Dials, count: nat)
    requires DialsTakeTime(dials)
    ensures var b := BaselineFor(protocol, dials, count); b.success ==> b.latencyMS >= 1
  {
    if !SkipsBaseline(protocol) {
      BaselineIsMeasured(dials, TransportFor(protocol), count);
    }
  }

  /** Main result: whatever the network does, the result of a probe is a success exactly when it has no error
      message; a success has a positive latency and score and no stage or reason, a failure the converse. */
  lemma {:induction false} EveryProbeIsCoherent(m: Mixed)
    requires IsProbe(m)
    ensures m.success <==> m.errorMsg == ""
    ensures m.success ==> m.latencyMS >= 1 && m.scoreMS >= 1 && m.failStage == "" && m.failReason == ""
    ensures !m.success ==> m.failStage != "" && m.failReason != "" && m.latencyMS == 0 && m.scoreMS == 0
  {
    var x: Inputs :| Possible(x) && ProbeOf(x) == m;
    BaselineIsPositive(x.protocol, x.dials, x.count);
    GroupIsGroup(x.domesticURLs, x.domestic, x.count);
    GroupIsGroup(x.overseasURLs, x.overseas, x.count);
    var b := BaselineFor(x.protocol, x.dials, x.count);
    ProbeIsCoherent(x.protocol, b, AttemptOf(x), x.weights, x.classify, x.blames);
  }

  /** Main result: a probe succeeds in the mixed mode exactly when the node is supported and one of its overseas
      fetches succeeds. */
  lemma {:induction false} MixedSuccessIff(x: Inputs)
    requires Possible(x)
    ensures ProbeOf(x).success && ProbeOf(x).mode == "mixed" <==>
              && x.unsupported.None? && x.overseasURLs != []
              && exists i: nat :: i < x.count && x.overseas(i, x.overseasURLs[i % |x.overseasURLs|]).Took?
  {
    BaselineIsPositive(x.protocol, x.dials, x.count);
    GroupIsGroup(x.domesticURLs, x.domestic, x.count);
    GroupIsGroup(x.overseasURLs, x.overseas, x.count);
    var b := BaselineFor(x.protocol, x.dials, x.count);
    ProbeIsCoherent(x.protocol, b, AttemptOf(x), x.weights, x.classify, x.blames);
    GroupHasMedianIff(x.overseasURLs, x.overseas, x.count);
  }

  /** A network in which only the overseas fetches get through, in 5 ms, or nothing does. */
  lemma Network(url: string, fast: bool) returns (x: Inputs)
    ensures Possible(x) && x.unsupported.None? && x.overseasURLs == [url] && x.count == 1 && x.protocol == "ss"
    ensures forall i, u :: x.overseas(i, u) == if fast then Took(5) else Failed("refused")
    ensures forall i, tls :: x.dials(i, tls).Failed?
  {
    var refused, reply := Failed("refused"), if fast then Took(5) else Failed("refused");
    x := Inputs("ss", None, 1, [], [url], Weights(0.3, 0.7), (i, tls) => refused, (i, u) => refused, (i, u) => reply,
                e => Failure("e2e", e), r => false);
  }

  /** There is a successful probe. */
  lemma {:induction false} SomeSuccess(url: string) returns (m: Mixed)
    ensures IsProbe(m) && m.success
  {
    var x := Network(url, true);
    MixedSuccessIff(x);
    assert x.overseas(0, x.overseasURLs[0 % 1]).Took?;
    m := ProbeOf(x);
  }

  lemma {:induction false} NoDialSucceeds(dials: Dials, t: Transport, n: nat)
    requires forall i, tls :: dials(i, tls).Failed?
    ensures Dialled(dials, t, Any, n) == []
  {
    if n > 0 {
      NoDialSucceeds(dials, t, n - 1);
    }
  }

  /** There is a failed probe. */
  lemma {:induction false} SomeFailure(url: string) returns (m: Mixed)
    ensures IsProbe(m) && !m.success
  {
    var x := Network(url, false);
    MixedSuccessIff(x);
    NoDialSucceeds(x.dials, TransportFor(x.protocol), x.count);
    m := ProbeOf(x);
  }
}
