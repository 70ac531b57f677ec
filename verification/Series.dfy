/** The availability series of a target in buckets of five minutes (SubscriptionSeries in
    server/internal/service/target_service.go). Instants are nanoseconds since the zero time, in one location. */
module Series {

  const BUCKET := 300_000_000_000

  datatype Check = Check(at: int, uid: string, success: bool)

  /** time.Truncate: down to a multiple of the bucket size. */
  function Truncate(t: int): (r: int)
    ensures r <= t < r + BUCKET && r % BUCKET == 0
  {
    t - t % BUCKET
  }

  /** Counts are of the checks; available holds the UIDs of the successful ones. */
  datatype Stat = Stat(total: nat, success: nat, available: set<string>)

  const EMPTY := Stat(0, 0, {})

  datatype Bucket = Bucket(at: int, availableNodes: nat, availability: real, totalChecks: nat)

  datatype Result = Ok(buckets: seq<Bucket>) | InvalidRange | UnknownTarget

  /** The checks of a range, both ends included. */
  function InRange(table: seq<Check>, start: int, end: int): seq<Check> {
    if table == [] then []
    else
      var last := table[|table| - 1];
      InRange(table[..|table| - 1], start, end) + if start <= last.at <= end then [last] else []
  }

  function Add(s: Stat, c: Check): Stat {
    if c.success then Stat(s.total + 1, s.success + 1, s.available + {c.uid}) else s.(total := s.total + 1)
  }

  /** The statistics of the checks that fall into one bucket. */
  function StatOf(checks: seq<Check>, bucket: int): Stat {
    if checks == [] then EMPTY
    else
      var last, before := checks[|checks| - 1], StatOf(checks[..|checks| - 1], bucket);
      if Truncate(last.at) == bucket then Add(before, last) else before
  }

  function BucketOf(at: int, s: Stat): Bucket {
    Bucket(at, |s.available|, if s.total > 0 then s.success as real / s.total as real * 100.0 else 0.0, s.total)
  }

  function Buckets(checks: seq<Check>, start: int, n: nat): (r: seq<Bucket>)
    ensures |r| == n
  {
    seq(n, k requires 0 <= k < n => BucketOf(start + k * BUCKET, StatOf(checks, start + k * BUCKET)))
  }

  /** The truncated end, moved up if it would not be behind the truncated start. */
  function EndOf(start: int, end: int): (r: int)
    ensures r % BUCKET == 0 && r >= Truncate(start) + BUCKET
  {
    if Truncate(start) < Truncate(end) then Truncate(end) else Truncate(start) + BUCKET
  }

  /** How many buckets lie from one multiple of the bucket size to another, both included. */
  function Span(start: int, end: int): nat
    requires start <= end
  {
    (end - start) / BUCKET + 1
  }

  function SeriesOf(known: bool, table: seq<Check>, start: int, end: int): Result {
    if start >= end then InvalidRange
    else if !known then UnknownTarget
    else
      var s, e := Truncate(start), EndOf(start, end);
      Ok(Buckets(InRange(table, s, e), s, Span(s, e)))
  }

  /** A range has to be one, and only then is the target looked for. */
  lemma {:induction false} RefusalsMean(known: bool, table: seq<Check>, start: int, end: int)
    ensures SeriesOf(known, table, start, end) == InvalidRange <==> start >= end
    ensures SeriesOf(known, table, start, end) == UnknownTarget <==> start < end && !known
  {
  }

  function Lookup(stats: map<int, Stat>, bucket: int): Stat {
    if bucket in stats then stats[bucket] else EMPTY
  }

  /** The first loop: the statistics by bucket, passing over checks outside of the range. */
  method Collect(checks: seq<Check>, start: int, end: int) returns (stats: map<int, Stat>)
    ensures forall b :: start <= b <= end ==> Lookup(stats, b) == StatOf(checks, b)
    ensures forall b :: b in stats ==> start <= b <= end
  {
    stats := map[];
    for i := 0 to |checks|
      invariant forall b :: start <= b <= end ==> Lookup(stats, b) == StatOf(checks[..i], b)
      invariant forall b :: b in stats ==> start <= b <= end
    {
      var row := checks[i];
      var bucket := Truncate(row.at);
      assert checks[..i + 1][..i] == checks[..i];
      if bucket < start || bucket > end {
        continue;
      }
      var cur := if bucket in stats then stats[bucket] else EMPTY;
      stats := stats[bucket := Add(cur, row)];
    }
    assert checks[..|checks|] == checks;
  }

  method SubscriptionSeries(known: bool, table: seq<Check>, start: int, end: int) returns (r: Result)
    ensures r == SeriesOf(known, table, start, end)
  {
    if start >= end {
      return InvalidRange;
    }
    if !known {
      return UnknownTarget;
    }
    var from, to := Truncate(start), Truncate(end);
    if from >= to {
      to := from + BUCKET;
    }
    var checks := InRange(table, from, to);
    var stats := Collect(checks, from, to);
    var out := Fill(stats, from, to, checks);
    assert to == EndOf(start, end);
    r := Ok(out);
  }

  /** The second loop: a bucket for each step of five minutes. */
  method Fill(stats: map<int, Stat>, from: int, to: int, ghost checks: seq<Check>) returns (out: seq<Bucket>)
    requires from % BUCKET == 0 && to % BUCKET == 0 && from <= to
    requires forall b :: from <= b <= to ==> Lookup(stats, b) == StatOf(checks, b)
    ensures out == Buckets(checks, from, Span(from, to))
  {
    out := [];
    var ts := from;
    while ts <= to
      invariant ts == from + |out| * BUCKET && from <= ts <= to + BUCKET
      invariant out == Buckets(checks, from, |out|)
    {
      out := out + [BucketOf(ts, Lookup(stats, ts))];
      ts := ts + BUCKET;
    }
    Spans(from, to, |out|);
  }

  lemma Spans(start: int, end: int, n: nat)
    requires start % BUCKET == 0 && end % BUCKET == 0 && start <= end
    requires end < start + n * BUCKET <= end + BUCKET
    ensures Span(start, end) == n
  {
  }

  // ----- Conservation -----

  function SumOfTotals(buckets: seq<Bucket>): nat {
    if buckets == [] then 0 else SumOfTotals(buckets[..|buckets| - 1]) + buckets[|buckets| - 1].totalChecks
  }

  lemma {:induction false} NoChecksNoTotals(start: int, n: nat)
    ensures SumOfTotals(Buckets([], start, n)) == 0
  {
    if n > 0 {
      assert Buckets([], start, n)[..n - 1] == Buckets([], start, n - 1);
      NoChecksNoTotals(start, n - 1);
    }
  }

  /** One more check raises the sum by one if one of the buckets is its own. */
  lemma {:induction false} OneMoreCheck(checks: seq<Check>, c: Check, start: int, n: nat, own: int)
    requires start % BUCKET == 0 && Truncate(c.at) == start + own * BUCKET
    ensures SumOfTotals(Buckets(checks + [c], start, n)) ==
              SumOfTotals(Buckets(checks, start, n)) + if 0 <= own < n then 1 else 0
  {
    if n > 0 {
      var with, without := Buckets(checks + [c], start, n), Buckets(checks, start, n);
      assert with[..n - 1] == Buckets(checks + [c], start, n - 1);
      assert without[..n - 1] == Buckets(checks, start, n - 1);
      assert (checks + [c])[..|checks|] == checks;
      OneMoreCheck(checks, c, start, n - 1, own);
    }
  }

  /** The index of the bucket that begins at t. */
  lemma Index(start: int, t: int, n: nat) returns (k: nat)
    requires start % BUCKET == 0 && t % BUCKET == 0 && start <= t < start + n * BUCKET
    ensures k < n && t == start + k * BUCKET
  {
    k := (t - start) / BUCKET;
  }

  /** Checks that all fall into the buckets are all counted, each once. */
  lemma {:induction false} TotalsCountChecks(checks: seq<Check>, start: int, n: nat)
    requires start % BUCKET == 0
    requires forall i :: 0 <= i < |checks| ==> start <= Truncate(checks[i].at) < start + n * BUCKET
    ensures SumOfTotals(Buckets(checks, start, n)) == |checks|
  {
    if checks == [] {
      NoChecksNoTotals(start, n);
    } else {
      var before, c := checks[..|checks| - 1], checks[|checks| - 1];
      TotalsCountChecks(before, start, n);
      assert checks == before + [c];
      var own := Index(start, Truncate(c.at), n);
      OneMoreCheck(before, c, start, n, own);
    }
  }

  lemma {:induction false} InRangeIsRange(table: seq<Check>, start: int, end: int)
    ensures forall i :: 0 <= i < |InRange(table, start, end)| ==> start <= InRange(table, start, end)[i].at <= end
    ensures forall c :: c in InRange(table, start, end) <==> c in table && start <= c.at <= end
  {
    if table != [] {
      InRangeIsRange(table[..|table| - 1], start, end);
      assert table == table[..|table| - 1] + [table[|table| - 1]];
    }
  }

  lemma {:induction false} StatIsBounded(checks: seq<Check>, bucket: int)
    ensures var s := StatOf(checks, bucket); |s.available| <= s.success <= s.total
  {
    if checks != [] {
      StatIsBounded(checks[..|checks| - 1], bucket);
    }
  }

  ghost predicate HasSuccess(checks: seq<Check>, bucket: int, uid: string) {
    exists i :: 0 <= i < |checks| && Truncate(checks[i].at) == bucket && checks[i].success && checks[i].uid == uid
  }

  ghost predicate HasFailure(checks: seq<Check>, bucket: int) {
    exists i :: 0 <= i < |checks| && Truncate(checks[i].at) == bucket && !checks[i].success
  }

  /** Main result: the available nodes of a bucket are those with a successful check in it, and all its checks
      succeeded exactly when there is no failed one. */
  lemma {:induction false} StatMeans(checks: seq<Check>, bucket: int)
    ensures var s := StatOf(checks, bucket);
            && (forall u :: u in s.available <==> HasSuccess(checks, bucket, u))
            && s.success <= s.total && (s.success < s.total <==> HasFailure(checks, bucket))
  {
    if checks != [] {
      var n := |checks| - 1;
      var last := checks[n];
      StatMeans(checks[..n], bucket);
      forall u
        ensures HasSuccess(checks, bucket, u) <==>
                  HasSuccess(checks[..n], bucket, u) || (Truncate(last.at) == bucket && last.success && last.uid == u)
      {
        SuccessOfMore(checks, bucket, u);
      }
      FailureOfMore(checks, bucket);
    }
  }

  lemma {:induction false} SuccessOfMore(checks: seq<Check>, bucket: int, u: string)
    requires checks != []
    ensures var n := |checks| - 1;
            HasSuccess(checks, bucket, u) <==>
              HasSuccess(checks[..n], bucket, u) ||
              (Truncate(checks[n].at) == bucket && checks[n].success && checks[n].uid == u)
  {
    var before := checks[..|checks| - 1];
    if HasSuccess(before, bucket, u) {
      var i :| 0 <= i < |before| && Truncate(before[i].at) == bucket && before[i].success && before[i].uid == u;
      assert checks[i] == before[i];
    }
    if HasSuccess(checks, bucket, u) {
      var i :| 0 <= i < |checks| && Truncate(checks[i].at) == bucket && checks[i].success && checks[i].uid == u;
      assert i < |before| ==> before[i] == checks[i];
    }
  }

  lemma {:induction false} FailureOfMore(checks: seq<Check>, bucket: int)
    requires checks != []
    ensures var n := |checks| - 1;
            HasFailure(checks, bucket) <==>
              HasFailure(checks[..n], bucket) || (Truncate(checks[n].at) == bucket && !checks[n].success)
  {
    var before := checks[..|checks| - 1];
    if HasFailure(before, bucket) {
      var i :| 0 <= i < |before| && Truncate(before[i].at) == bucket && !before[i].success;
      assert checks[i] == before[i];
    }
    if HasFailure(checks, bucket) {
      var i :| 0 <= i < |checks| && Truncate(checks[i].at) == bucket && !checks[i].success;
      assert i < |before| ==> before[i] == checks[i];
    }
  }

  /** The checks of a bucket, by their index. */
  function InBucket(checks: seq<Check>, bucket: int): set<nat> {
    set i: nat | i < |checks| && bucket <= checks[i].at < bucket + 300_000_000_000
  }

  function Succeeding(checks: seq<Check>, bucket: int): set<nat> {
    set i: nat | i < |checks| && bucket <= checks[i].at < bucket + 300_000_000_000 && checks[i].success
  }

  lemma {:induction false} TruncatesTo(t: int, bucket: int)
    requires bucket % BUCKET == 0
    ensures Truncate(t) == bucket <==> bucket <= t < bucket + 300_000_000_000
  {
  }

  lemma {:induction false} InBucketOfMore(checks: seq<Check>, bucket: int)
    requires checks != []
    ensures var n := |checks| - 1;
            |InBucket(checks, bucket)| == |InBucket(checks[..n], bucket)| +
              if bucket <= checks[n].at < bucket + 300_000_000_000 then 1 else 0
  {
    var n := |checks| - 1;
    var own := if bucket <= checks[n].at < bucket + 300_000_000_000 then {n} else {};
    assert InBucket(checks, bucket) == InBucket(checks[..n], bucket) + own;
  }

  lemma {:induction false} SucceedingOfMore(checks: seq<Check>, bucket: int)
    requires checks != []
    ensures var n := |checks| - 1;
            |Succeeding(checks, bucket)| == |Succeeding(checks[..n], bucket)| +
              if bucket <= checks[n].at < bucket + 300_000_000_000 && checks[n].success then 1 else 0
  {
    var n := |checks| - 1;
    var own := if bucket <= checks[n].at < bucket + 300_000_000_000 && checks[n].success then {n} else {};
    assert Succeeding(checks, bucket) == Succeeding(checks[..n], bucket) + own;
  }

  /** Main result: a bucket counts the checks at its times and the successes among them, each once. */
  lemma {:induction false} StatCounts(checks: seq<Check>, bucket: int)
    requires bucket % BUCKET == 0
    ensures StatOf(checks, bucket).total == |InBucket(checks, bucket)|
    ensures StatOf(checks, bucket).success == |Succeeding(checks, bucket)|
  {
    if checks != [] {
      var n := |checks| - 1;
      StatCounts(checks[..n], bucket);
      TruncatesTo(checks[n].at, bucket);
      InBucketOfMore(checks, bucket);
      SucceedingOfMore(checks, bucket);
    }
  }

  lemma {:induction false} ShareOf(part: nat, whole: nat)
    requires whole > 0
    ensures part as real / whole as real * 100.0 * whole as real == 100.0 * part as real
  {
    var q := part as real / whole as real;
    assert q * whole as real == part as real;
  }

  /** Main result: the bucket shown for a time has the number of its checks, the number of the nodes that succeeded in
      it, and the percentage of successes, 0 without a check. */
  lemma {:induction false} BucketMeans(checks: seq<Check>, at: int)
    requires at % BUCKET == 0
    ensures var b := BucketOf(at, StatOf(checks, at));
            && b.at == at && b.totalChecks == |InBucket(checks, at)|
            && b.availableNodes == |StatOf(checks, at).available|
            && (b.totalChecks == 0 ==> b.availability == 0.0)
            && b.availability * b.totalChecks as real == 100.0 * |Succeeding(checks, at)| as real
  {
    StatCounts(checks, at);
    StatIsBounded(checks, at);
    var s := StatOf(checks, at);
    if s.total > 0 {
      ShareOf(s.success, s.total);
    }
  }

  /** The rows of a range, by their index. */
  function RowsBetween(table: seq<Check>, start: int, end: int): set<nat> {
    set i: nat | i < |table| && start <= table[i].at <= end
  }

  lemma {:induction false} InRangeCounts(table: seq<Check>, start: int, end: int)
    ensures |InRange(table, start, end)| == |RowsBetween(table, start, end)|
  {
    if table != [] {
      var n := |table| - 1;
      InRangeCounts(table[..n], start, end);
      var own := if start <= table[n].at <= end then {n} else {};
      assert RowsBetween(table, start, end) == RowsBetween(table[..n], start, end) + own;
    }
  }

  /** The last bucket is that of the end, or the second one if start and end fall into one bucket. */
  lemma {:induction false} EndOfMeans(start: int, end: int)
    requires start < end
    ensures var s, e := Truncate(start), EndOf(start, end);
            if end < s + 300_000_000_000 then e == s + 300_000_000_000 else e <= end < e + 300_000_000_000
  {
  }

  lemma PercentIsBounded(part: nat, whole: nat)
    requires part <= whole && whole > 0
    ensures 0.0 <= part as real / whole as real * 100.0 <= 100.0
  {
    var q := part as real / whole as real;
    assert q * whole as real == part as real;
    assert 0.0 <= q <= 1.0;
  }

  lemma BucketIsBounded(checks: seq<Check>, at: int)
    ensures var b := BucketOf(at, StatOf(checks, at));
            b.availableNodes <= b.totalChecks && 0.0 <= b.availability <= 100.0
  {
    var stat := StatOf(checks, at);
    StatIsBounded(checks, at);
    if stat.total > 0 {
      PercentIsBounded(stat.success, stat.total);
    }
  }

  lemma BucketsFit(table: seq<Check>, s: int, e: int)
    requires s % BUCKET == 0 && e % BUCKET == 0 && s <= e
    ensures e == s + (Span(s, e) - 1) * BUCKET
    ensures SumOfTotals(Buckets(InRange(table, s, e), s, Span(s, e))) == |InRange(table, s, e)|
  {
    var checks, n := InRange(table, s, e), Span(s, e);
    var k := Index(s, e, n);
    InRangeIsRange(table, s, e);
    forall i | 0 <= i < |checks| ensures s <= Truncate(checks[i].at) < s + n * BUCKET {
      TruncateKeepsOrder(s, checks[i].at);
    }
    TotalsCountChecks(checks, s, n);
  }

  /** Main result: the series is a run of buckets without gap from the truncated start to the truncated end; its
      totals add up to the checks of that range, none being passed over, and in every bucket the available nodes
      are at most the checks and the availability is a percentage. */
  lemma SeriesConservesChecks(table: seq<Check>, start: int, end: int)
    requires start < end
    ensures SeriesOf(true, table, start, end).Ok?
    ensures var out := SeriesOf(true, table, start, end).buckets;
            var s, e := Truncate(start), EndOf(start, end);
            && |out| == (e - s) / BUCKET + 1 && |out| >= 2
            && (forall k :: 0 <= k < |out| ==> out[k].at == s + k * BUCKET) && out[|out| - 1].at == e
            && SumOfTotals(out) == |InRange(table, s, e)| == |RowsBetween(table, s, e)|
            && (if end < s + 300_000_000_000 then e == s + 300_000_000_000 else e <= end < e + 300_000_000_000)
            && forall k :: 0 <= k < |out| ==>
                 out[k].availableNodes <= out[k].totalChecks && 0.0 <= out[k].availability <= 100.0
  {
    var s, e := Truncate(start), EndOf(start, end);
    var checks := InRange(table, s, e);
    var out := Buckets(checks, s, Span(s, e));
    BucketsFit(table, s, e);
    InRangeCounts(table, s, e);
    EndOfMeans(start, end);
    forall k | 0 <= k < |out|
      ensures out[k].availableNodes <= out[k].totalChecks && 0.0 <= out[k].availability <= 100.0
    {
      BucketIsBounded(checks, s + k * BUCKET);
    }
  }

  lemma TruncateKeepsOrder(s: int, t: int)
    requires s % BUCKET == 0 && s <= t
    ensures s <= Truncate(t)
  {
  }

  function Exactly(table: seq<Check>, at: int): nat {
    if table == [] then 0 else Exactly(table[..|table| - 1], at) + if table[|table| - 1].at == at then 1 else 0
  }

  lemma StatOfMore(checks: seq<Check>, c: Check, bucket: int)
    ensures StatOf(checks + [c], bucket).total ==
              StatOf(checks, bucket).total + if Truncate(c.at) == bucket then 1 else 0
  {
    assert (checks + [c])[..|checks|] == checks;
  }

  lemma OnlyItsStart(t: int, end: int)
    requires end % BUCKET == 0 && t <= end
    ensures Truncate(t) == end <==> t == end
  {
  }

  /** The last bucket counts only the checks at the very instant it begins. */
  lemma {:induction false} LastBucketIsOneInstant(table: seq<Check>, start: int, end: int)
    requires end % BUCKET == 0 && start <= end
    ensures StatOf(InRange(table, start, end), end).total == Exactly(table, end)
  {
    if table != [] {
      var before, last := table[..|table| - 1], table[|table| - 1];
      LastBucketIsOneInstant(before, start, end);
      if start <= last.at <= end {
        OnlyItsStart(last.at, end);
        StatOfMore(InRange(before, start, end), last, end);
      } else {
        assert InRange(before, start, end) + [] == InRange(before, start, end);
      }
    }
  }
}
