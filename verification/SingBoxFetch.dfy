/** One timed fetch through a sing-box process, with its one retry under an alternate Reality key
    (probeSingBoxFetchOnceInternal, buildOutboundWithAlternateRealityKey, classifyE2EFailure in
    server/internal/service/target_service.go). */
module SingBoxFetch {
  import opened Text
  import opened RealityKey

  // ----- The outbound and its alternate -----

  /** A JSON value; text is how fmt.Sprint prints a value that is no string, "<nil>" for an absent one. */
  datatype Json = JString(s: string) | JObject(fields: map<string, Json>) | JOther(text: string)

  type Printer = Json -> string

  function Field(j: Json, name: string): Json {
    if j.JObject? && name in j.fields then j.fields[name] else JOther("<nil>")
  }

  function With(j: Json, name: string, v: Json): Json
    requires j.JObject?
  {
    JObject(j.fields[name := v])
  }

  function KeyOf(outbound: Json, show: Printer): string {
    Trim(show(Field(Field(Field(outbound, "tls"), "reality"), "public_key")))
  }

  predicate HasReality(outbound: Json) {
    outbound.JObject? && Field(outbound, "tls").JObject? && Field(Field(outbound, "tls"), "reality").JObject?
  }

  function WithKey(outbound: Json, key: string): Json
    requires HasReality(outbound)
  {
    var tls := Field(outbound, "tls");
    With(outbound, "tls", With(tls, "reality", With(Field(tls, "reality"), "public_key", JString(key))))
  }

  function AlternateOutbound(outbound: Json, show: Printer): Option<Json> {
    if !HasReality(outbound) then None
    else
      match Alternate(KeyOf(outbound, show))
      case None => None
      case Some(alt) => Some(WithKey(outbound, alt))
  }

  /** The field of an object, or that it is absent. */
  function Lookup(j: Json, name: string): Option<Json> {
    if j.JObject? && name in j.fields then Some(j.fields[name]) else None
  }

  /** alt has the key and is the same as the outbound everywhere else. */
  ghost predicate DiffersInKeyOnly(outbound: Json, alt: Json, key: string) {
    && Field(Field(Field(alt, "tls"), "reality"), "public_key") == JString(key)
    && (forall f :: f != "tls" ==> Lookup(alt, f) == Lookup(outbound, f))
    && (forall f :: f != "reality" ==> Lookup(Field(alt, "tls"), f) == Lookup(Field(outbound, "tls"), f))
    && (forall f :: f != "public_key" ==>
          Lookup(Field(Field(alt, "tls"), "reality"), f) == Lookup(Field(Field(outbound, "tls"), "reality"), f))
  }

  lemma WithKeyChangesKey(outbound: Json, key: string)
    requires HasReality(outbound)
    ensures DiffersInKeyOnly(outbound, WithKey(outbound, key), key)
  {
    var alt := WithKey(outbound, key);
    var reality := Field(Field(alt, "tls"), "reality");
    assert Field(alt, "tls") == With(Field(outbound, "tls"), "reality", reality);
    assert reality == With(Field(Field(outbound, "tls"), "reality"), "public_key", JString(key));
  }

  /** There is an alternate outbound exactly when there is a Reality section whose key has an
      alternate; it has that key and is the same everywhere else. */
  lemma {:induction false} OnlyTheKeyChanges(outbound: Json, show: Printer)
    ensures AlternateOutbound(outbound, show).Some? <==> HasReality(outbound) && Alternate(KeyOf(outbound, show)).Some?
    ensures AlternateOutbound(outbound, show).Some? ==>
              DiffersInKeyOnly(outbound, AlternateOutbound(outbound, show).value,
                  Alternate(KeyOf(outbound, show)).value)
  {
    var key := Alternate(KeyOf(outbound, show));
    if HasReality(outbound) && key.Some? {
      WithKeyChangesKey(outbound, key.value);
    }
  }

  /** fmt.Sprint prints a string as it is. */
  ghost predicate PrintsStrings(show: Printer) {
    forall s :: show(JString(s)) == s
  }

  /** Main result: the key that the alternate outbound is read with is the respelled key of the outbound. */
  lemma {:induction false} AlternateHasAlternateKey(outbound: Json, show: Printer)
    requires PrintsStrings(show) && AlternateOutbound(outbound, show).Some?
    ensures KeyOf(AlternateOutbound(outbound, show).value, show) == Trim(Alternate(KeyOf(outbound, show)).value)
  {
    OnlyTheKeyChanges(outbound, show);
    var key := Alternate(KeyOf(outbound, show)).value;
    assert show(JString(key)) == key;
  }

  // ----- One fetch -----

  /** How a process ends: after ns nanoseconds, at its timeout, or with an error and the cleaned-up output. */
  datatype Exit = Finished(ns: nat) | TimedOut | Died(output: string, err: string)

  /** The environment: what stops a fetch before its process starts (the temporary file), how the process of
      each attempt ends, and how texts are searched; alternate is the respelling of the outbound. */
  datatype Host = Host(
    setup: nat -> Option<string>, exit: (nat, Json) -> Exit, says: Says, alternate: Json -> Option<Json>)

  function HostOf(setup: nat -> Option<string>, exit: (nat, Json) -> Exit, says: Says, show: Printer): Host {
    Host(setup, exit, says, outbound => AlternateOutbound(outbound, show))
  }

  /** Whether the lower-cased text contains a phrase. */
  type Says = (string, string) -> bool

  datatype Sample = Took(ms: int) | Failed(msg: string)

  const HANDSHAKE_FAILED := "proxy_handshake_failed"
  const HANDSHAKE_TIMEOUT := "proxy_handshake_timeout"
  const DNS_TIMEOUT := "dns_timeout_via_proxy"
  const HTTP_TIMEOUT := "upstream_http_timeout"
  const FIRST_RECORD := "first record does not look like a tls handshake"

  /** Rounded to milliseconds, and at least 1. */
  function Millis(ns: nat): int {
    var ms := (ns + 500000) / 1000000;
    if ms < 1 then 1 else ms
  }

  function Cut(msg: string): string {
    if |msg| > 200 then msg[..200] else msg
  }

  function ErrorText(says: Says, msg: string): string {
    if says(msg, "timeout") then HTTP_TIMEOUT
    else if says(msg, FIRST_RECORD) then HANDSHAKE_FAILED
    else if says(msg, "tls handshake") then HANDSHAKE_FAILED
    else if says(msg, "unknown version") then HANDSHAKE_FAILED
    else if says(msg, "proxy") && says(msg, "handshake") then HANDSHAKE_TIMEOUT
    else if says(msg, "dns") then DNS_TIMEOUT
    else if says(msg, "unsupported") then HANDSHAKE_FAILED
    else Cut(msg)
  }

  /** The result, and the outbounds that a process was started with. */
  function FetchOnce(h: Host, outbound: Json, mayRetry: bool, attempt: nat): (r: (Sample, seq<Json>))
    decreases mayRetry
  {
    match h.setup(attempt)
    case Some(e) => (Failed(e), [])
    case None =>
      match h.exit(attempt, outbound)
      case Finished(ns) => (Took(Millis(ns)), [outbound])
      case TimedOut => (Failed(HTTP_TIMEOUT), [outbound])
      case Died(output, err) =>
        var msg := if output == "" then err else output;
        if mayRetry && h.says(msg, "decode public_key") && h.alternate(outbound).Some? then
          var again := FetchOnce(h, h.alternate(outbound).value, false, attempt + 1);
          (again.0, [outbound] + again.1)
        else (Failed(ErrorText(h.says, msg)), [outbound])
  }

  /** A fetch starts at most two processes, the second only with the alternate outbound after the
      first one complained about the key; a success takes at least 1 ms, and a process that finishes is one. */
  lemma FetchRetriesOnce(h: Host, outbound: Json)
    ensures var (sample, started) := FetchOnce(h, outbound, true, 1);
            && |started| <= 2
            && (|started| >= 1 ==> started[0] == outbound)
            && (|started| == 2 ==>
                  && h.alternate(outbound) == Some(started[1])
                  && h.exit(1, outbound).Died?
                  && (sample.Took? <==> h.exit(2, started[1]).Finished?))
            && (|started| == 1 && sample.Took? ==> h.exit(1, outbound).Finished?)
            && (sample.Took? ==> sample.ms >= 1)
  {
    if h.setup(1).None? {
      match h.exit(1, outbound)
      case Finished(_) =>
      case TimedOut =>
      case Died(_, _) =>
        if h.alternate(outbound).Some? {
          var again := FetchOnce(h, h.alternate(outbound).value, false, 2);
          assert |again.1| <= 1;
        }
    }
  }

  /** Main result: the second process is started with the first one's outbound but for the key, which is spelled in
      the other alphabet. */
  lemma {:induction false} RetryOnlyRespells(
    setup: nat -> Option<string>, exit: (nat, Json) -> Exit, says: Says, show: Printer, outbound: Json)
    ensures var started := FetchOnce(HostOf(setup, exit, says, show), outbound, true, 1).1;
            |started| == 2 ==>
              && Alternate(KeyOf(outbound, show)).Some?
              && DiffersInKeyOnly(outbound, started[1], Alternate(KeyOf(outbound, show)).value)
  {
    var h := HostOf(setup, exit, says, show);
    FetchRetriesOnce(h, outbound);
    assert h.alternate(outbound) == AlternateOutbound(outbound, show);
    OnlyTheKeyChanges(outbound, show);
  }

  // ----- Why it failed -----

  datatype Failure = Failure(stage: string, reason: string)

  /** classifyE2EFailure; tidy is trimming and lower-casing. */
  function Classify(says: Says, tidy: string -> string, raw: string): Failure {
    if tidy(raw) == "" then Failure("e2e", "all_overseas_failed")
    else if says(raw, FIRST_RECORD) then Failure("proxy_handshake", HANDSHAKE_FAILED)
    else if says(raw, HANDSHAKE_TIMEOUT) then Failure("proxy_handshake", HANDSHAKE_TIMEOUT)
    else if says(raw, HANDSHAKE_FAILED) then Failure("proxy_handshake", HANDSHAKE_FAILED)
    else if says(raw, DNS_TIMEOUT) then Failure("dns", DNS_TIMEOUT)
    else if says(raw, HTTP_TIMEOUT) then Failure("e2e", HTTP_TIMEOUT)
    else if says(raw, "unsupported") then Failure("parse", tidy(raw))
    else Failure("e2e", tidy(raw))
  }

  /** What holds of containment: a phrase contains itself, and cutting a text adds no phrase. */
  ghost predicate IsContainment(says: Says) {
    && says(HANDSHAKE_FAILED, HANDSHAKE_FAILED) && says(HANDSHAKE_TIMEOUT, HANDSHAKE_TIMEOUT)
    && says(DNS_TIMEOUT, DNS_TIMEOUT) && says(HTTP_TIMEOUT, HTTP_TIMEOUT)
    && forall s, p :: says(Cut(s), p) ==> says(s, p)
  }

  /** The error of preparing the temporary file, when it is what ended the fetch. */
  function SetupError(h: Host, outbound: Json): Option<string> {
    if h.setup(1).Some? then h.setup(1)
    else if Retries(h, outbound) then h.setup(2)
    else None
  }

  /** Whether the first process complained about a key that can be respelled. */
  predicate Retries(h: Host, outbound: Json) {
    match h.exit(1, outbound)
    case Finished(_) => false
    case TimedOut => false
    case Died(output, err) =>
      h.says(if output == "" then err else output, "decode public_key") && h.alternate(outbound).Some?
  }

  /** The text says "unsupported" and none of the phrases that are looked for before it. */
  predicate SaysUnsupported(says: Says, tidy: string -> string, e: string) {
    && tidy(e) != "" && says(e, "unsupported")
    && !says(e, FIRST_RECORD) && !says(e, HANDSHAKE_TIMEOUT) && !says(e, HANDSHAKE_FAILED)
    && !says(e, DNS_TIMEOUT) && !says(e, HTTP_TIMEOUT)
  }

  lemma {:induction false} TextIsNotParse(says: Says, tidy: string -> string, msg: string)
    requires IsContainment(says)
    ensures var f := Classify(says, tidy, ErrorText(says, msg));
            f.stage != "parse" && f.stage != "" && f.reason != ""
  {
  }

  lemma {:induction false} PlainTextIsParseIff(says: Says, tidy: string -> string, e: string)
    ensures var f := Classify(says, tidy, e);
            && (f.stage == "parse" <==> SaysUnsupported(says, tidy, e))
            && f.stage != "" && f.reason != ""
  {
  }

  /** How an attempt without a retry is classified. */
  lemma {:induction false} LastAttempt(h: Host, outbound: Json, tidy: string -> string, attempt: nat)
    requires IsContainment(h.says) && FetchOnce(h, outbound, false, attempt).0.Failed?
    ensures var f := Classify(h.says, tidy, FetchOnce(h, outbound, false, attempt).0.msg);
            && (f.stage == "parse" <==>
                  h.setup(attempt).Some? && SaysUnsupported(h.says, tidy, h.setup(attempt).value))
            && f.stage != "" && f.reason != ""
  {
    match h.setup(attempt)
    case Some(e) => PlainTextIsParseIff(h.says, tidy, e);
    case None =>
      match h.exit(attempt, outbound)
      case TimedOut => TextIsNotParse(h.says, tidy, "");
      case Died(output, err) => TextIsNotParse(h.says, tidy, if output == "" then err else output);
  }

  /** Main result: a failed fetch has a stage and a reason, and is taken for an unsupported node (the stage that falls
      back to the baseline unasked) exactly when it ended with an error of preparing the temporary file whose text
      says so. However a process fails, it is not. */
  lemma {:induction false} FailureIsParseIff(h: Host, outbound: Json, tidy: string -> string)
    requires IsContainment(h.says)
    requires FetchOnce(h, outbound, true, 1).0.Failed?
    ensures var f := Classify(h.says, tidy, FetchOnce(h, outbound, true, 1).0.msg);
            && (f.stage == "parse" <==>
                  SetupError(h, outbound).Some? && SaysUnsupported(h.says, tidy, SetupError(h, outbound).value))
            && f.stage != "" && f.reason != ""
  {
    if h.setup(1).Some? || !Retries(h, outbound) {
      assert FetchOnce(h, outbound, true, 1).0 == FetchOnce(h, outbound, false, 1).0;
      LastAttempt(h, outbound, tidy, 1);
    } else {
      LastAttempt(h, h.alternate(outbound).value, tidy, 2);
    }
  }

  predicate IsAt(s: string, p: string, i: nat) {
    i + |p| <= |s| && s[i..i + |p|] == p
  }

  /** strings.Contains(strings.ToLower(s), p). */
  ghost predicate Contains(s: string, p: string) {
    exists i: nat :: IsAt(Lower(s), p, i)
  }

  lemma {:induction false} ContainsItself(s: string)
    requires forall i :: 0 <= i < |s| ==> LowerChar(s[i]) == s[i]
    ensures Contains(s, s)
  {
    assert Lower(s) == s;
    assert IsAt(Lower(s), s, 0);
  }

  lemma {:induction false} CutContains(s: string, p: string)
    requires Contains(Cut(s), p)
    ensures Contains(s, p)
  {
    var i: nat :| IsAt(Lower(Cut(s)), p, i);
    assert Lower(s)[i..i + |p|] == Lower(Cut(s))[i..i + |p|];
    assert IsAt(Lower(s), p, i);
  }

  lemma {:induction false} HandshakePhrases()
    ensures Contains(HANDSHAKE_FAILED, HANDSHAKE_FAILED) && Contains(HANDSHAKE_TIMEOUT, HANDSHAKE_TIMEOUT)
  {
    ContainsItself(HANDSHAKE_FAILED);
    ContainsItself(HANDSHAKE_TIMEOUT);
  }

  lemma {:induction false} OtherPhrases()
    ensures Contains(DNS_TIMEOUT, DNS_TIMEOUT) && Contains(HTTP_TIMEOUT, HTTP_TIMEOUT)
  {
    ContainsItself(DNS_TIMEOUT);
    ContainsItself(HTTP_TIMEOUT);
  }

  lemma {:induction false} ContainsIsContainment(says: Says)
    requires forall s, p :: says(s, p) == Contains(s, p)
    ensures IsContainment(says)
  {
    HandshakePhrases();
    OtherPhrases();
    forall s, p | says(Cut(s), p) ensures says(s, p) {
      CutContains(s, p);
    }
  }

  /** It does happen: a file error whose text is "unsupported" is taken for an unsupported node. */
  lemma {:induction false} FileErrorIsParse(h: Host, outbound: Json, tidy: string -> string)
    requires forall s, p :: h.says(s, p) == Contains(s, p)
    requires h.setup(1) == Some("unsupported") && tidy("unsupported") == "unsupported"
    ensures IsContainment(h.says) && FetchOnce(h, outbound, true, 1).0.Failed?
    ensures Classify(h.says, tidy, FetchOnce(h, outbound, true, 1).0.msg) == Failure("parse", "unsupported")
  {
    ContainsIsContainment(h.says);
    ContainsItself("unsupported");
    FailureIsParseIff(h, outbound, tidy);
  }
}
