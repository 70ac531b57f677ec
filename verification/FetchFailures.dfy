/** How the failure of a fetch through a sing-box process is explained in the end: from what the process printed,
    through the code that the fetch makes of it, to the stage and reason of the probe. */
module FetchFailures {
  import opened Text
  import opened SingBoxFetch

  /** No code reads like one that is looked for before it. */
  ghost predicate CodesDiffer(says: Says) {
    && !says(HANDSHAKE_FAILED, FIRST_RECORD) && !says(HANDSHAKE_TIMEOUT, FIRST_RECORD)
    && !says(DNS_TIMEOUT, FIRST_RECORD) && !says(HTTP_TIMEOUT, FIRST_RECORD)
    && !says(HANDSHAKE_FAILED, HANDSHAKE_TIMEOUT)
    && !says(DNS_TIMEOUT, HANDSHAKE_TIMEOUT) && !says(DNS_TIMEOUT, HANDSHAKE_FAILED)
    && !says(HTTP_TIMEOUT, HANDSHAKE_TIMEOUT) && !says(HTTP_TIMEOUT, HANDSHAKE_FAILED) &&
         !says(HTTP_TIMEOUT, DNS_TIMEOUT)
  }

  /** A text with a code in it has the words of the code in it. */
  ghost predicate CodesHaveWords(says: Says) {
    forall s ::
      && (says(s, HTTP_TIMEOUT) || says(s, DNS_TIMEOUT) || says(s, HANDSHAKE_TIMEOUT) ==> says(s, "timeout"))
      && (says(s, HANDSHAKE_FAILED) ==> says(s, "proxy") && says(s, "handshake"))
  }

  predicate CodesRemain(tidy: string -> string) {
    tidy(HANDSHAKE_FAILED) != "" && tidy(HANDSHAKE_TIMEOUT) != "" && tidy(DNS_TIMEOUT) != "" && tidy(HTTP_TIMEOUT) != ""
  }

  /** What the search of phrases and the tidying of texts have to be for the codes to be recognised again. */
  ghost predicate Recognises(says: Says, tidy: string -> string) {
    IsContainment(says) && CodesDiffer(says) && CodesHaveWords(says) && CodesRemain(tidy)
  }

  predicate SpeaksOfTLS(says: Says, msg: string) {
    says(msg, FIRST_RECORD) || says(msg, "tls handshake") || says(msg, "unknown version")
  }

  /** Main result: what the last words of a process come to. A timeout of any kind is one of the request, a TLS failure
      and what it calls unsupported are failed handshakes with the proxy, a handshake with the proxy is one that timed
      out, a name that does not resolve is a stage of its own; anything else is a failure of the request, in its own
      words up to 200 characters. */
  lemma {:induction false} LastWordsMean(says: Says, tidy: string -> string, msg: string)
    requires Recognises(says, tidy)
    ensures var f, words := Classify(says, tidy, ErrorText(says, msg)), if |msg| > 200 then msg[..200] else msg;
            f ==
            if says(msg, "timeout") then Failure("e2e", HTTP_TIMEOUT)
            else if SpeaksOfTLS(says, msg) then Failure("proxy_handshake", HANDSHAKE_FAILED)
            else if says(msg, "proxy") && says(msg, "handshake") then Failure("proxy_handshake", HANDSHAKE_TIMEOUT)
            else if says(msg, "dns") then Failure("dns", DNS_TIMEOUT)
            else if says(msg, "unsupported") then Failure("proxy_handshake", HANDSHAKE_FAILED)
            else if tidy(words) == "" then Failure("e2e", "all_overseas_failed")
            else Failure("e2e", tidy(words))
  {
    assert Cut(msg) == if |msg| > 200 then msg[..200] else msg;
  }

  /** A process that runs out of time, and one that dies with the last words of its output, or of the system if it
      printed nothing. */
  lemma {:induction false} ProcessEnds(h: Host, outbound: Json, attempt: nat)
    requires h.setup(attempt).None?
    ensures var r := FetchOnce(h, outbound, false, attempt);
            match h.exit(attempt, outbound)
            case Finished(ns) => r.0.Took? && IsRounded(ns, r.0.ms)
            case TimedOut => r.0 == Failed("upstream_http_timeout")
            case Died(output, err) => r.0 == Failed(ErrorText(h.says, if output == "" then err else output))
  {
  }

  /** Rounded to the nearest millisecond, halves up, and at least 1. */
  predicate IsRounded(ns: nat, ms: int) {
    if ns < 1_500_000 then ms == 1 else ms * 1_000_000 - 500_000 <= ns < ms * 1_000_000 + 500_000
  }

  /** When the first process complained about a key that can be respelled, the result is that of the second. */
  lemma {:induction false} RetryDecides(h: Host, outbound: Json)
    requires h.setup(1).None? && h.exit(1, outbound).Died?
    ensures var exit := h.exit(1, outbound);
            var words := if exit.output == "" then exit.err else exit.output;
            FetchOnce(h, outbound, true, 1).0 ==
            if h.says(words, "decode public_key") && h.alternate(outbound).Some?
            then FetchOnce(h, h.alternate(outbound).value, false, 2).0
            else FetchOnce(h, outbound, false, 1).0
  {
  }

  // ----- Searching substrings recognises the codes -----

  /** strings.TrimSpace(strings.ToLower(s)). */
  function Tidy(s: string): string {
    Trim(Lower(s))
  }

  lemma {:induction false} ShorterHasNot(s: string, p: string)
    requires |s| < |p|
    ensures !Contains(s, p)
  {
  }

  lemma {:induction false} PartsHave(s: string, p: string, q: string, k: nat)
    requires Contains(s, p) && IsAt(p, q, k)
    ensures Contains(s, q)
  {
    var i: nat :| IsAt(Lower(s), p, i);
    var low := Lower(s);
    assert low[i + k..i + k + |q|] == low[i..i + |p|][k..k + |q|];
    assert IsAt(low, q, i + k);
  }

  lemma {:induction false} WordIsAt(a: string, b: string, c: string)
    ensures IsAt(a + b + c, b, |a|)
  {
  }

  lemma {:induction false} BeginningIsAt(b: string, c: string)
    ensures IsAt(b + c, b, 0)
  {
  }

  lemma {:induction false} HttpHasWord(s: string)
    requires Contains(s, HTTP_TIMEOUT)
    ensures Contains(s, "timeout")
  {
    WordIsAt("upstream_http_", "timeout", "");
    assert HTTP_TIMEOUT == "upstream_http_" + "timeout" + "";
    PartsHave(s, HTTP_TIMEOUT, "timeout", 14);
  }

  lemma {:induction false} DnsHasWord(s: string)
    requires Contains(s, DNS_TIMEOUT)
    ensures Contains(s, "timeout")
  {
    WordIsAt("dns_", "timeout", "_via_proxy");
    assert DNS_TIMEOUT == "dns_" + "timeout" + "_via_proxy";
    PartsHave(s, DNS_TIMEOUT, "timeout", 4);
  }

  lemma {:induction false} HandshakeHasWord(s: string)
    requires Contains(s, HANDSHAKE_TIMEOUT)
    ensures Contains(s, "timeout")
  {
    WordIsAt("proxy_handshake_", "timeout", "");
    assert HANDSHAKE_TIMEOUT == "proxy_handshake_" + "timeout" + "";
    PartsHave(s, HANDSHAKE_TIMEOUT, "timeout", 16);
  }

  lemma {:induction false} FailedBegins()
    ensures IsAt(HANDSHAKE_FAILED, "proxy", 0)
  {
    BeginningIsAt("proxy", "_handshake_failed");
    assert HANDSHAKE_FAILED == "proxy" + "_handshake_failed";
  }

  lemma {:induction false} FailedHasProxy(s: string)
    requires Contains(s, HANDSHAKE_FAILED)
    ensures Contains(s, "proxy")
  {
    FailedBegins();
    PartsHave(s, HANDSHAKE_FAILED, "proxy", 0);
  }

  lemma {:induction false} FailedHasHandshake(s: string)
    requires Contains(s, HANDSHAKE_FAILED)
    ensures Contains(s, "handshake")
  {
    WordIsAt("proxy_", "handshake", "_failed");
    assert HANDSHAKE_FAILED == "proxy_" + "handshake" + "_failed";
    PartsHave(s, HANDSHAKE_FAILED, "handshake", 6);
  }

  lemma {:induction false} TrimRightKeepsText(s: string)
    requires s != "" && !IsSpace(s[0])
    ensures TrimRight(s) != ""
  {
    if IsSpace(s[|s| - 1]) {
      TrimRightKeepsText(s[..|s| - 1]);
    }
  }

  lemma {:induction false} TidyKeepsText(s: string)
    requires s != "" && !IsSpace(LowerChar(s[0]))
    ensures Tidy(s) != ""
  {
    assert TrimLeft(Lower(s)) == Lower(s);
    TrimRightKeepsText(Lower(s));
  }

  lemma {:induction false} EqualLengthHasNot(s: string, p: string)
    requires |s| == |p| > 0 && LowerChar(s[0]) != p[0]
    ensures !Contains(s, p)
  {
    forall i: nat ensures !IsAt(Lower(s), p, i) {
      if i == 0 {
        assert Lower(s)[0..0 + |p|][0] == LowerChar(s[0]);
      }
    }
  }

  lemma {:induction false} CodesAreApart(says: Says)
    requires forall s, p :: says(s, p) == Contains(s, p)
    ensures CodesDiffer(says)
  {
    ShorterHasNot(HANDSHAKE_FAILED, FIRST_RECORD);
    ShorterHasNot(HANDSHAKE_TIMEOUT, FIRST_RECORD);
    ShorterHasNot(DNS_TIMEOUT, FIRST_RECORD);
    ShorterHasNot(HTTP_TIMEOUT, FIRST_RECORD);
    ShorterHasNot(HANDSHAKE_FAILED, HANDSHAKE_TIMEOUT);
    ShorterHasNot(DNS_TIMEOUT, HANDSHAKE_TIMEOUT);
    ShorterHasNot(DNS_TIMEOUT, HANDSHAKE_FAILED);
    ShorterHasNot(HTTP_TIMEOUT, HANDSHAKE_TIMEOUT);
    ShorterHasNot(HTTP_TIMEOUT, HANDSHAKE_FAILED);
    EqualLengthHasNot(HTTP_TIMEOUT, DNS_TIMEOUT);
  }

  lemma {:induction false} CodesAreText()
    ensures CodesRemain(Tidy)
  {
    TidyKeepsText(HANDSHAKE_FAILED);
    TidyKeepsText(HANDSHAKE_TIMEOUT);
    TidyKeepsText(DNS_TIMEOUT);
    TidyKeepsText(HTTP_TIMEOUT);
  }

  lemma {:induction false} WordsAreFound(says: Says)
    requires forall s, p :: says(s, p) == Contains(s, p)
    ensures CodesHaveWords(says)
  {
    forall s
      ensures says(s, HTTP_TIMEOUT) || says(s, DNS_TIMEOUT) || says(s, HANDSHAKE_TIMEOUT) ==> says(s, "timeout")
      ensures says(s, HANDSHAKE_FAILED) ==> says(s, "proxy") && says(s, "handshake")
    {
      if says(s, HTTP_TIMEOUT) {
        HttpHasWord(s);
      }
      if says(s, DNS_TIMEOUT) {
        DnsHasWord(s);
      }
      if says(s, HANDSHAKE_TIMEOUT) {
        HandshakeHasWord(s);
      }
      if says(s, HANDSHAKE_FAILED) {
        FailedHasProxy(s);
        FailedHasHandshake(s);
      }
    }
  }

  /** Looking for substrings of the lower-cased text is such a search. */
  lemma {:induction false} SubstringsRecognise(says: Says)
    requires forall s, p :: says(s, p) == Contains(s, p)
    ensures Recognises(says, Tidy)
  {
    ContainsIsContainment(says);
    CodesAreText();
    CodesAreApart(says);
    WordsAreFound(says);
  }
}
