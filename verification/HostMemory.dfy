/** The per-host protocol memory of the subscription fetcher: which HTTP version answered last and
    which one is avoided until when (server/internal/service/target_service.go). */
module HostMemory {
  import opened Text

  datatype Proto = H1 | H2
  datatype Mode = Auto | Only(proto: Proto)

  /** A transport error, known by which of the phrases that the service looks for its
      lower-cased text contains. */
  datatype NetError = NetError(
    http2: bool, goAway: bool, streamError: bool,
    awaitingHeaders: bool, timeout: bool, deadlineExceeded: bool, contextDeadlineExceeded: bool,
    connectionReset: bool, transportBroken: bool, eof: bool, serverClosed: bool, brokenPipe: bool,
    malformedResponse: bool, unexpectedAlpn: bool, binaryOnHttp1: bool)

  predicate IsTimeoutLike(e: NetError) {
    e.awaitingHeaders || e.timeout || e.deadlineExceeded || e.contextDeadlineExceeded
  }

  predicate IsConnectionDrop(e: NetError) {
    e.eof || e.serverClosed || e.connectionReset || e.brokenPipe
  }

  predicate IsProtocolMismatch(e: NetError) {
    e.malformedResponse || e.unexpectedAlpn || (e.transportBroken && e.binaryOnHttp1)
  }

  /** Instants are nanoseconds after the zero time, durations are nanoseconds. */
  const MS: nat := 1_000_000
  const MINUTE: nat := 60_000_000_000

  datatype HostState = HostState(preferred: Option<Proto>, avoidH1To: nat, avoidH2To: nat)

  const FRESH := HostState(None, 0, 0)

  type Memory = map<string, HostState>

  function NormalizeMode(raw: string): Mode {
    var v := Trim(Lower(raw));
    if v == "h1" || v == "http1" || v == "http1.1" then Only(H1)
    else if v == "h2" || v == "http2" then Only(H2)
    else Auto
  }

  function NormalizeHost(host: string): string {
    Trim(Lower(host))
  }

  /** Normalising a normalised name changes nothing. */
  lemma NormalHostsAreKept(host: string)
    ensures NormalizeHost(NormalizeHost(host)) == NormalizeHost(host)
  {
    TrimLowerIsIdempotent(host);
  }

  /** A normalised name is the name in lower case without the white space around it. */
  lemma {:induction false} HostIsNormalized(host: string) returns (before: string, after: string)
    ensures Lower(host) == before + NormalizeHost(host) + after && IsBlank(before) && IsBlank(after)
    ensures NormalizeHost(host) != "" ==>
              !IsSpace(NormalizeHost(host)[0]) && !IsSpace(NormalizeHost(host)[|NormalizeHost(host)| - 1])
  {
    before, after := TrimCutsBlanks(Lower(host));
  }

  /** What the memory holds about a host, given by its normalised name. */
  function StateOf(m: Memory, h: string): HostState {
    if h != "" && h in m then m[h] else FRESH
  }

  predicate Counts(e: NetError) {
    IsTimeoutLike(e) || IsProtocolMismatch(e) || IsConnectionDrop(e)
  }

  function Penalty(e: NetError): nat {
    if IsProtocolMismatch(e) then 30 * MINUTE else 8 * MINUTE
  }

  function Avoid(st: HostState, p: Proto, until: nat): HostState {
    if p == H1 then st.(avoidH1To := until) else st.(avoidH2To := until)
  }

  function AvoidedUntil(st: HostState, p: Proto): nat {
    if p == H1 then st.avoidH1To else st.avoidH2To
  }

  /** One call of a mark function, with the host's normalised name. */
  datatype Mark =
    | Succeeded(host: string, proto: Proto)
    | Failed(host: string, proto: Proto, err: NetError, at: nat)

  function Apply(m: Memory, k: Mark): Memory {
    if k.host == "" then m
    else
      match k
      case Succeeded(h, p) => m[h := Avoid(StateOf(m, h).(preferred := Some(p)), p, 0)]
      case Failed(h, p, e, at) => if Counts(e) then m[h := Avoid(StateOf(m, h), p, at + Penalty(e))] else m
  }

  function Plan(m: Memory, h: string, mode: Mode, now: nat): (plan: seq<Proto>)
    ensures mode.Only? ==> plan == [mode.proto]
    ensures mode.Auto? ==> plan == [H1, H2] || plan == [H2, H1]
  {
    match mode
    case Only(p) => [p]
    case Auto =>
      var st := StateOf(m, h);
      var base := if st.preferred == Some(H1) then [H1, H2] else [H2, H1];
      var avoidH1, avoidH2 := now < st.avoidH1To, now < st.avoidH2To;
      if avoidH1 && !avoidH2 then [H2, H1]
      else if avoidH2 && !avoidH1 then [H1, H2]
      else if avoidH1 && avoidH2 then
        if st.preferred == Some(H1) then [H1, H2] else [H2, H1]
      else base
  }

  /** The names of the modes, in any case and with blanks around them; every other text is the automatic mode. */
  lemma {:induction false} ModesByName(raw: string, name: string)
    requires Trim(Lower(raw)) == name
    ensures name == "h1" || name == "http1" || name == "http1.1" ==> NormalizeMode(raw) == Only(H1)
    ensures name == "h2" || name == "http2" ==> NormalizeMode(raw) == Only(H2)
    ensures NormalizeMode(raw) == Only(H1) ==> name == "h1" || name == "http1" || name == "http1.1"
    ensures NormalizeMode(raw) == Only(H2) ==> name == "h2" || name == "http2"
  {
    assert "h1" != "h2" && "h1" != "http2" && "http1" != "h2" && "http1" != "http2" && "http1.1" != "h2" by {
      assert "h1"[1] != "h2"[1] && "http1"[4] != "http2"[4];
    }
  }

  /** After a counted failure the protocol is avoided for 30 minutes if it was a mismatch, else for 8. */
  lemma {:induction false} PenaltiesLast(m: Memory, h: string, p: Proto, e: NetError, at: nat, t: nat)
    requires h != ""
    ensures var until := AvoidedUntil(StateOf(Apply(m, Failed(h, p, e, at)), h), p);
            if IsTimeoutLike(e) || IsProtocolMismatch(e) || IsConnectionDrop(e)
            then t < until <==> t < at + if IsProtocolMismatch(e) then 1_800_000_000_000 else 480_000_000_000
            else until == AvoidedUntil(StateOf(m, h), p)
  {
  }

  type Normalizer = string -> string

  /** The memory as the service keeps it: one map, updated by the two mark functions, which normalise the name of the
      host first. */
  class Store {
    var states: map<string, HostState>
    const normalize: Normalizer

    constructor (normalize: Normalizer)
      ensures states == map[] && this.normalize == normalize
    {
      states := map[];
      this.normalize := normalize;
    }

    method Succeed(host: string, proto: Proto)
      modifies this
      ensures states == Apply(old(states), Succeeded(normalize(host), proto))
    {
      var h := normalize(host);
      if h == "" {
        return;
      }
      var st := if h in states then states[h] else FRESH;
      st := st.(preferred := Some(proto));
      if proto == H1 {
        st := st.(avoidH1To := 0);
      } else {
        st := st.(avoidH2To := 0);
      }
      states := states[h := st];
    }

    method Fail(host: string, proto: Proto, err: NetError, now: nat)
      modifies this
      ensures states == Apply(old(states), Failed(normalize(host), proto, err, now))
    {
      if !Counts(err) {
        return;
      }
      var h := normalize(host);
      if h == "" {
        return;
      }
      var st := if h in states then states[h] else FRESH;
      var until := now + 8 * MINUTE;
      if IsProtocolMismatch(err) {
        until := now + 30 * MINUTE;
      }
      if proto == H1 {
        st := st.(avoidH1To := until);
      } else {
        st := st.(avoidH2To := until);
      }
      states := states[h := st];
    }

    /** Marks that other calls make meanwhile. */
    method Overhear(marks: seq<Mark>)
      modifies this
      ensures states == Replay(old(states), marks)
    {
      for i := 0 to |marks|
        invariant states == Replay(old(states), marks[..i])
      {
        assert marks[..i + 1][..i] == marks[..i];
        states := Apply(states, marks[i]);
      }
      assert marks[..|marks|] == marks;
    }
  }

  // ----- The memory refines the history of marks -----

  function Replay(m: Memory, log: seq<Mark>): Memory {
    if log == [] then m else Apply(Replay(m, log[..|log| - 1]), log[|log| - 1])
  }

  /** The marks that say something about one normalised host: successes, and failures that count. */
  predicate About(k: Mark, h: string) {
    k.host == h != "" && (k.Failed? ==> Counts(k.err))
  }

  /** p is the protocol that answered host h last. */
  ghost predicate AnsweredLast(log: seq<Mark>, h: string, p: Proto) {
    exists i ::
      0 <= i < |log| && About(log[i], h) && log[i] == Succeeded(log[i].host, p) &&
      forall j :: i < j < |log| && About(log[j], h) ==> log[j].Failed?
  }

  /** Mark i is the latest one on (h, p), a failure whose penalty is still running at t. */
  ghost predicate PenaltyAt(log: seq<Mark>, i: nat, h: string, p: Proto, t: nat)
    requires i < |log|
  {
    && About(log[i], h) && log[i].proto == p && log[i].Failed? && t < log[i].at + Penalty(log[i].err)
    && forall j :: i < j < |log| && About(log[j], h) ==> log[j].proto != p
  }

  /** Protocol p of host h is under a running penalty at t. */
  ghost predicate Penalised(log: seq<Mark>, h: string, p: Proto, t: nat) {
    exists i: nat :: i < |log| && PenaltyAt(log, i, h, p, t)
  }

  ghost function PlanFromHistory(log: seq<Mark>, h: string, t: nat): seq<Proto> {
    var h1First :=
      if Penalised(log, h, H1, t) == Penalised(log, h, H2, t) then AnsweredLast(log, h, H1)
      else Penalised(log, h, H2, t);
    if h1First then [H1, H2] else [H2, H1]
  }

  /** Index i of the log carries over to a longer log. */
  lemma PrefixKeeps(log: seq<Mark>, k: Mark, i: nat)
    requires i < |log|
    ensures (log + [k])[i] == log[i] && (log + [k])[|log|] == k
  {
  }

  lemma AnsweredLastStep(log: seq<Mark>, k: Mark, h: string, p: Proto)
    ensures AnsweredLast(log + [k], h, p) <==>
              if About(k, h) && k.Succeeded? then k.proto == p else AnsweredLast(log, h, p)
  {
    var ext := log + [k];
    assert ext[|log|] == k;
    assert ext[..|log|] == log;
    if !(About(k, h) && k.Succeeded?) && AnsweredLast(log, h, p) {
      var i :|
        0 <= i < |log| && About(log[i], h) && log[i] == Succeeded(log[i].host, p) &&
        forall j :: i < j < |log| && About(log[j], h) ==> log[j].Failed?;
      PrefixKeeps(log, k, i);
    }
  }

  lemma PenalisedStep(log: seq<Mark>, k: Mark, h: string, p: Proto, t: nat)
    ensures Penalised(log + [k], h, p, t) <==>
              if About(k, h) && k.proto == p then k.Failed? && t < k.at + Penalty(k.err)
              else Penalised(log, h, p, t)
  {
    var ext := log + [k];
    assert ext[|log|] == k;
    assert ext[..|log|] == log;
    if About(k, h) && k.proto == p {
      assert PenaltyAt(ext, |log|, h, p, t) <==> k.Failed? && t < k.at + Penalty(k.err);
      assert forall i: nat :: i < |log| ==> !PenaltyAt(ext, i, h, p, t);
    } else {
      assert !PenaltyAt(ext, |log|, h, p, t);
      assert forall i: nat :: i < |log| ==>
             ext[i] == log[i] && (PenaltyAt(ext, i, h, p, t) <==> PenaltyAt(log, i, h, p, t));
    }
  }

  /** What one mark does to what the memory holds about one host. */
  lemma MarkEffect(m: Memory, k: Mark, h: string, p: Proto)
    ensures var st, was := StateOf(Apply(m, k), h), StateOf(m, h);
            && st.preferred == (if About(k, h) && k.Succeeded? then Some(k.proto) else was.preferred)
            && AvoidedUntil(st, p) ==
                 if About(k, h) && k.proto == p then (if k.Succeeded? then 0 else k.at + Penalty(k.err))
                 else AvoidedUntil(was, p)
  {
  }

  /** The memory knows exactly what the history says: who answered last and which penalties run. */
  lemma {:induction false} MemoryIsHistory(log: seq<Mark>, h: string, p: Proto, t: nat)
    ensures var st := StateOf(Replay(map[], log), h);
            && (st.preferred == Some(p) <==> AnsweredLast(log, h, p))
            && (t < AvoidedUntil(st, p) <==> Penalised(log, h, p, t))
  {
    if log != [] {
      var rest, k := log[..|log| - 1], log[|log| - 1];
      assert log == rest + [k];
      MemoryIsHistory(rest, h, p, t);
      AnsweredLastStep(rest, k, h, p);
      PenalisedStep(rest, k, h, p, t);
      MarkEffect(Replay(map[], rest), k, h, p);
    }
  }

  /** Main result: at any time the automatic plan is the one computed from the history of marks. */
  lemma PlanRefinesHistory(log: seq<Mark>, h: string, t: nat)
    ensures Plan(Replay(map[], log), h, Auto, t) == PlanFromHistory(log, h, t)
  {
    MemoryIsHistory(log, h, H1, t);
    MemoryIsHistory(log, h, H2, t);
  }

  /** Marks on other hosts never change a host's plan, however many there are. */
  lemma {:induction false} MarksAreLocal(m: Memory, log: seq<Mark>, h: string, mode: Mode, t: nat)
    requires forall k :: k in log ==> k.host != h
    ensures Plan(Replay(m, log), h, mode, t) == Plan(m, h, mode, t)
  {
    if log != [] {
      MarksAreLocal(m, log[..|log| - 1], h, mode, t);
    }
  }

  /** A second counted failure of a protocol shortens its running penalty exactly when its own would end
      earlier: the last one wins, also when it is the smaller one. */
  lemma {:induction false} LaterPenaltyShortensIff(
    m: Memory, h: string, p: Proto, first: NetError, second: NetError, at: nat, later: nat)
    requires h != "" && Counts(first) && Counts(second)
    ensures var m1 := Apply(m, Failed(h, p, first, at));
            var m2 := Apply(m1, Failed(h, p, second, later));
            && (AvoidedUntil(StateOf(m2, h), p) < AvoidedUntil(StateOf(m1, h), p) <==>
                  later + Penalty(second) < at + Penalty(first))
            && (later >= at ==>
                  (AvoidedUntil(StateOf(m2, h), p) < AvoidedUntil(StateOf(m1, h), p) <==>
                   IsProtocolMismatch(first) && !IsProtocolMismatch(second) && later < at + 22 * MINUTE))
  {
    MarkEffect(m, Failed(h, p, first, at), h, p);
    MarkEffect(Apply(m, Failed(h, p, first, at)), Failed(h, p, second, later), h, p);
  }
}
