/** What the parts of a probe are read off: the samples of a group, the dials of the baseline, and which of the two a
    probe's result comes from. */
module ProbeMeans {
  import opened Text
  import opened Median
  import opened SingBoxFetch
  import opened Probe

  function Is(ms: int): int -> bool {
    x => x == ms
  }

  // ----- A group of fetches -----

  /** Which of the first n fetches took exactly so long. */
  function TookExactly(urls: seq<string>, f: Fetches, n: nat, ms: int): set<nat>
    requires urls != []
  {
    set i: nat | i < n && f(i, urls[i % |urls|]) == Took(ms)
  }

  lemma {:induction false} TookOfMore(urls: seq<string>, f: Fetches, n: nat, ms: int)
    requires urls != [] && n > 0
    ensures |TookExactly(urls, f, n, ms)| ==
            |TookExactly(urls, f, n - 1, ms)| + if f(n - 1, urls[(n - 1) % |urls|]) == Took(ms) then 1 else 0
  {
    var own := if f(n - 1, urls[(n - 1) % |urls|]) == Took(ms) then {n - 1} else {};
    assert TookExactly(urls, f, n, ms) == TookExactly(urls, f, n - 1, ms) + own;
  }

  /** One more sample, or none. */
  lemma {:induction false} CountOfMore(xs: seq<int>, s: Sample, taken: bool, ms: int)
    requires taken ==> s.Took?
    ensures Count(xs + (if taken then [s.ms] else []), Is(ms)) == Count(xs, Is(ms)) + if taken && s.ms == ms then 1
              else 0
  {
    if taken {
      CountConcat(xs, [s.ms], Is(ms));
      CountOne(s.ms, Is(ms));
    } else {
      assert xs + [] == xs;
    }
  }

  lemma {:induction false} LatenciesCount(urls: seq<string>, f: Fetches, n: nat, ms: int)
    requires urls != []
    ensures Count(Latencies(urls, f, n), Is(ms)) == |TookExactly(urls, f, n, ms)|
  {
    if n > 0 {
      LatenciesCount(urls, f, n - 1, ms);
      TookOfMore(urls, f, n, ms);
      var s := f(n - 1, urls[(n - 1) % |urls|]);
      CountOfMore(Latencies(urls, f, n - 1), s, s.Took?, ms);
    }
  }

  /** Main result: the samples of a group are the times of its successful fetches, which take the URLs in turn, each as
      often as it was taken and in ascending order; the median is the middle one. */
  lemma {:induction false} SamplesAreFetched(urls: seq<string>, f: Fetches, count: nat, ms: int)
    requires urls != []
    ensures var g := GroupOf(urls, f, count);
            && Count(g.samples, Is(ms)) == |TookExactly(urls, f, count, ms)|
            && Sorted(g.samples)
            && (g.median.Some? ==> g.samples != [] && g.median.value == g.samples[|g.samples| / 2])
  {
    var l := Latencies(urls, f, count);
    LatenciesCount(urls, f, count, ms);
    SortCounts(l, Is(ms));
    SortSorts(l);
  }

  lemma {:induction false} AllFailed(urls: seq<string>, f: Fetches, n: nat)
    requires urls != [] && n > 0 && Latencies(urls, f, n) == []
    ensures f(n - 1, urls[(n - 1) % |urls|]).Failed?
    ensures LastError(urls, f, n) == f(n - 1, urls[(n - 1) % |urls|]).msg
  {
  }

  /** A group without a sample has the error of its last fetch, a general one if that has no text, and one of its own if
      it has no URL. */
  lemma {:induction false} ErrorIsLast(urls: seq<string>, f: Fetches, count: nat)
    requires count > 0 && GroupOf(urls, f, count).median.None?
    ensures GroupOf(urls, f, count).err ==
              if urls == [] then "empty url group"
              else if f(count - 1, urls[(count - 1) % |urls|]) == Failed("") then "group probe failed"
              else f(count - 1, urls[(count - 1) % |urls|]).msg
  {
    if urls != [] {
      AllFailed(urls, f, count);
    }
  }

  // ----- The baseline -----

  /** The i-th sample was taken with TLS or without: as the plan says, and the other way only after that has failed. */
  predicate TakenWith(dials: Dials, t: Transport, i: nat, tls: bool, ms: int) {
    || (tls == t.tls && dials(i, t.tls) == Took(ms))
    || (dials(i, t.tls).Failed? && t.fallback == Some(tls) && dials(i, tls) == Took(ms))
  }

  lemma {:induction false} DialIs(dials: Dials, t: Transport, i: nat, tls: bool, ms: int)
    ensures TakenWith(dials, t, i, tls, ms) <==> Dial(dials, t, i) == (Took(ms), tls)
  {
  }

  function DialledExactly(dials: Dials, t: Transport, n: nat, tls: bool, ms: int): set<nat> {
    set i: nat | i < n && TakenWith(dials, t, i, tls, ms)
  }

  lemma {:induction false} DialledExactlyMore(
    dials: Dials, t: Transport, n: nat, tls: bool, ms: int, s: Sample, used: bool)
    requires n > 0 && Dial(dials, t, n - 1) == (s, used)
    ensures |DialledExactly(dials, t, n, tls, ms)| ==
            |DialledExactly(dials, t, n - 1, tls, ms)| + if s == Took(ms) && used == tls then 1 else 0
  {
    DialIs(dials, t, n - 1, tls, ms);
    var own := if TakenWith(dials, t, n - 1, tls, ms) then {n - 1} else {};
    assert DialledExactly(dials, t, n, tls, ms) == DialledExactly(dials, t, n - 1, tls, ms) + own;
  }

  lemma {:induction false} DialledMore(dials: Dials, t: Transport, which: Which, n: nat, ms: int, s: Sample, used: bool)
    requires n > 0 && Dial(dials, t, n - 1) == (s, used)
    ensures Count(Dialled(dials, t, which, n), Is(ms)) ==
            Count(Dialled(dials, t, which, n - 1), Is(ms)) + if s == Took(ms) &&
                (which.Any? || which.tls == used) then 1 else 0
  {
    CountOfMore(Dialled(dials, t, which, n - 1), s, s.Took? && (which.Any? || which.tls == used), ms);
  }

  lemma {:induction false} DialledCount(dials: Dials, t: Transport, n: nat, tls: bool, ms: int)
    ensures Count(Dialled(dials, t, Only(tls), n), Is(ms)) == |DialledExactly(dials, t, n, tls, ms)|
  {
    if n > 0 {
      var (s, used) := Dial(dials, t, n - 1);
      DialledCount(dials, t, n - 1, tls, ms);
      DialledExactlyMore(dials, t, n, tls, ms, s, used);
      DialledMore(dials, t, Only(tls), n, ms, s, used);
    }
  }

  /** The samples of both kinds together. */
  lemma {:induction false} DialledAny(dials: Dials, t: Transport, n: nat, ms: int)
    ensures Count(Dialled(dials, t, Any, n), Is(ms)) ==
            |DialledExactly(dials, t, n, true, ms)| + |DialledExactly(dials, t, n, false, ms)|
  {
    if n == 0 {
      assert DialledExactly(dials, t, 0, true, ms) == {} && DialledExactly(dials, t, 0, false, ms) == {};
    } else {
      var (s, used) := Dial(dials, t, n - 1);
      DialledAny(dials, t, n - 1, ms);
      DialledExactlyMore(dials, t, n, true, ms, s, used);
      DialledExactlyMore(dials, t, n, false, ms, s, used);
      DialledMore(dials, t, Any, n, ms, s, used);
    }
  }

  /** Main result: the baseline counts each dial that succeeds, as planned or, after a failure, the other way; the
      latencies with and without TLS are the medians of their kind; the baseline's own is that of the TLS dials if TLS
      is planned and one succeeded, else that of all. */
  lemma {:induction false} BaselineIsDialled(dials: Dials, t: Transport, count: nat, tls: bool, ms: int)
    ensures Count(Dialled(dials, t, Only(tls), count), Is(ms)) == |DialledExactly(dials, t, count, tls, ms)|
    ensures Count(Dialled(dials, t, Any, count), Is(ms)) ==
              |DialledExactly(dials, t, count, true, ms)| + |DialledExactly(dials, t, count, false, ms)|
    ensures var b := BaselineOf(dials, t, count);
            var with, without := Dialled(dials, t, Only(true), count), Dialled(dials, t, Only(false), count);
            b.success ==>
              && b.tlsMS == MedianInt(with) && b.tcpMS == MedianInt(without)
              && b.latencyMS == MedianInt(if t.tls && with != [] then with else Dialled(dials, t, Any, count))
  {
    DialledCount(dials, t, count, tls, ms);
    DialledAny(dials, t, count, ms);
  }

  /** A baseline without a sample has the error of its last dial, a general one if that has no text. */
  lemma {:induction false} BaselineErrorIsLast(dials: Dials, t: Transport, count: nat)
    requires count > 0 && !BaselineOf(dials, t, count).success
    ensures var tls := if t.fallback.Some? then t.fallback.value else t.tls;
            && dials(count - 1, tls).Failed?
            && BaselineOf(dials, t, count).failReason ==
                 if dials(count - 1, tls).msg == "" then "probe failed" else dials(count - 1, tls).msg
  {
    assert Dialled(dials, t, Any, count) == [];
  }

  /** Which protocols are dialled with TLS, and which of these also without it when that has failed; which ones do not
      run over TCP and are not dialled at all. */
  lemma {:induction false} ProtocolsAreDialled(protocol: string, dials: Dials, count: nat)
    ensures var t := TransportFor(protocol);
            && (t.tls <==> protocol in ["trojan", "tuic", "hysteria", "hysteria2", "vmess", "vless"])
            && t.fallback == (if protocol in ["vmess", "vless"] then Some(false) else None)
    ensures var b := BaselineFor(protocol, dials, count);
            if protocol in ["tuic", "hysteria", "hysteria2", "hy2"]
            then !b.success && b.tcpMS == b.tlsMS == 0 && b.failReason == "skipped_for_quic"
            else b == BaselineOf(dials, TransportFor(protocol), count)
  {
  }

  // ----- Where the result comes from -----

  /** The protocols that never fall back on the baseline after a failed fetch. */
  predicate NeverFallsBack(protocol: string) {
    protocol in ["ss", "shadowsocks", "tuic", "hysteria", "hysteria2"]
  }

  /** The failure of a probe whose overseas group has no sample. */
  function FailureOf(a: Attempt, classify: Classifier): Failure {
    match a
    case Unsupported(reason) => Failure("parse", "unsupported: " + reason)
    case Groups(_, overseas) => classify(if overseas.err == "" then "all overseas probes failed" else overseas.err)
  }

  /** Main result: a probe succeeds in the baseline mode exactly when it has no overseas sample, its baseline succeeded,
      and its failure is one of parsing, or blames the proxy while a TLS dial of a protocol that may fall back
      succeeded. */
  lemma {:induction false} BaselineModeIff(
    protocol: string, b: Baseline, a: Attempt, w: Weights, classify: Classifier, blames: string -> bool)
    requires a.Groups? ==> IsGroup(a.domestic) && IsGroup(a.overseas)
    ensures var m, fail := ProbeNode(protocol, b, a, w, classify, blames), FailureOf(a, classify);
            m.success && m.mode == "baseline" <==>
              && (a.Groups? ==> a.overseas.samples == []) && b.success
              && ("parse" <= fail.stage || (b.tlsMS > 0 && !NeverFallsBack(protocol) && blames(fail.reason)))
  {
  }

  /** The figures that go into the result: those of the baseline always, those of the groups unless the baseline stands
      in for them. */
  lemma {:induction false} ProbeShows(
    protocol: string, b: Baseline, a: Attempt, w: Weights, classify: Classifier, blames: string -> bool)
    requires a.Groups? ==> IsGroup(a.domestic) && IsGroup(a.overseas)
    ensures var m := ProbeNode(protocol, b, a, w, classify, blames);
            && m.tcpMS == b.tcpMS && m.tlsMS == b.tlsMS
            && (a.Groups? && m.mode == "mixed" ==> m.domesticMS == OrZero(a.domestic.median))
            && (a.Groups? && m.mode == "mixed" && m.success ==>
                  var e := E2EOf(a.domestic, a.overseas, Normalize(w), classify);
                  m.scoreMS == e.scoreMS && m.jitterMS == e.jitterMS)
            && (m.mode == "baseline" ==> m.scoreMS == b.latencyMS == m.latencyMS && m.domesticMS == m.overseasMS == 0)
  {
  }

  /** How a failed probe explains itself: the failure's stage and reason, the reason of a baseline that failed behind
      it, and words for what is missing. */
  lemma {:induction false} FailureSays(
    protocol: string, b: Baseline, a: Attempt, w: Weights, classify: Classifier, blames: string -> bool)
    requires a.Groups? ==> IsGroup(a.domestic) && IsGroup(a.overseas)
    requires !ProbeNode(protocol, b, a, w, classify, blames).success
    ensures var m, fail := ProbeNode(protocol, b, a, w, classify, blames), FailureOf(a, classify);
            && m.errorMsg == m.failStage + ": " + m.failReason
            && m.failStage == (if fail.stage == "" then "probe" else fail.stage)
            && (b.success || b.failReason == "" || b.failReason == "skipped_for_quic" ==>
                  m.failReason == if fail.reason == "" then "probe failed" else fail.reason)
            && (!b.success && b.failReason != "" && b.failReason != "skipped_for_quic" ==>
                  m.failReason == (if fail.reason == "" then "" else fail.reason + "; ") + "baseline: " + b.failReason)
  {
  }
}
