/** Tracking events: ingestion, the summary and the hourly series (IngestTracking, TrackingSummary,
    TrackingSeries in server/internal/service/target_service.go). Instants are nanoseconds since the zero time;
    a bucket is named by its hour. */
module Tracking {

  const HOUR := 3_600_000_000_000

  /** A stored event; uv is its visitor key, "" for none. */
  datatype Event = Event(target: nat, at: int, count: int, uv: string)

  /** An event as it is sent: at is in milliseconds, 0 or less for now. */
  datatype Item = Item(count: int, at: int, uv: string)

  datatype Mode = Both | PV | UV

  function HourOf(at: int): int {
    at / HOUR
  }

  // ----- Ingestion -----

  /** Counts that are not positive are read as 1. */
  function CountOf(item: Item): int {
    if item.count <= 0 then 1 else item.count
  }

  const MS := 1_000_000

  /** epoch is the instant from which milliseconds are counted. */
  function EventOf(target: nat, item: Item, now: int, epoch: int): Event {
    Event(target, if item.at > 0 then epoch + item.at * MS else now, CountOf(item), item.uv)
  }

  function EventsOf(target: nat, items: seq<Item>, now: int, epoch: int): (r: seq<Event>)
    ensures |r| == |items|
  {
    seq(|items|, i requires 0 <= i < |items| => EventOf(target, items[i], now, epoch))
  }

  datatype Outcome = Stored(n: nat) | UnknownKey | Disabled | DatabaseError

  /** The key's target, and whether it is enabled. */
  datatype Target = Target(id: nat, enabled: bool)

  datatype Key = NoTarget | Of(target: Target)

  class Tracker {
    var events: seq<Event>

    method Ingest(key: Key, items: seq<Item>, now: int, epoch: int, fails: bool) returns (r: Outcome)
      modifies this
      ensures r == (if key.NoTarget? then UnknownKey
                    else if !key.target.enabled then Disabled
                    else if items != [] && fails then DatabaseError
                    else Stored(|items|))
      ensures events == old(events) + if r.Stored? then EventsOf(key.target.id, items, now, epoch) else []
    {
      if key.NoTarget? {
        return UnknownKey;
      }
      if !key.target.enabled {
        return Disabled;
      }
      if items == [] {
        return Stored(0);
      }
      var rows: seq<Event> := [];
      for i := 0 to |items|
        invariant rows == EventsOf(key.target.id, items, now, epoch)[..i]
      {
        var item := items[i];
        var count := item.count;
        if count <= 0 {
          count := 1;
        }
        var occurredAt := now;
        if item.at > 0 {
          occurredAt := epoch + item.at * MS;
        }
        rows := rows + [Event(key.target.id, occurredAt, count, item.uv)];
      }
      if fails {
        return DatabaseError;
      }
      events := events + rows;
      r := Stored(|rows|);
    }
  }

  // ----- Summary -----

  function Since(table: seq<Event>, target: nat, since: int): seq<Event> {
    if table == [] then []
    else
      var e := table[|table| - 1];
      Since(table[..|table| - 1], target, since) + if e.target == target && e.at >= since then [e] else []
  }

  function SumCounts(events: seq<Event>): int {
    if events == [] then 0 else SumCounts(events[..|events| - 1]) + events[|events| - 1].count
  }

  function Visitors(events: seq<Event>): set<string> {
    set i | 0 <= i < |events| && events[i].uv != "" :: events[i].uv
  }

  datatype Figures = Figures(pv: int, uv: nat)

  /** A metric that the mode leaves out is 0. */
  function Shown(mode: Mode, pv: int, uv: nat): Figures {
    Figures(if mode.UV? then 0 else pv, if mode.PV? then 0 else uv)
  }

  function Summary(table: seq<Event>, target: nat, since: int, mode: Mode): Figures {
    var events := Since(table, target, since);
    Shown(mode, SumCounts(events), |Visitors(events)|)
  }

  // ----- Series -----

  datatype Bucket = Bucket(hour: int, figures: Figures)

  datatype Data = Data(pv: int, uv: set<string>)

  function InHour(events: seq<Event>, hour: int): seq<Event> {
    if events == [] then []
    else
      var e := events[|events| - 1];
      InHour(events[..|events| - 1], hour) + if HourOf(e.at) == hour then [e] else []
  }

  function DataOf(events: seq<Event>, hour: int): Data {
    Data(SumCounts(InHour(events, hour)), Visitors(InHour(events, hour)))
  }

  function BucketOf(events: seq<Event>, hour: int, mode: Mode): Bucket {
    var d := DataOf(events, hour);
    Bucket(hour, Shown(mode, d.pv, |d.uv|))
  }

  /** Some event falls into the hour. */
  ghost predicate HasEvent(events: seq<Event>, hour: int) {
    exists i :: 0 <= i < |events| && HourOf(events[i].at) == hour
  }

  /** Some bucket is the hour's. */
  ghost predicate HasBucket(out: seq<Bucket>, hour: int) {
    exists k :: 0 <= k < |out| && out[k].hour == hour
  }

  ghost predicate Ordered(out: seq<Bucket>) {
    forall i, j :: 0 <= i < j < |out| ==> out[i].hour < out[j].hour
  }

  /** What a series of these events is: a bucket for each hour with an event and no other, in order. */
  ghost predicate IsSeries(out: seq<Bucket>, events: seq<Event>, mode: Mode) {
    && Ordered(out)
    && (forall i :: 0 <= i < |out| ==> out[i] == BucketOf(events, out[i].hour, mode))
    && forall h :: HasBucket(out, h) <==> HasEvent(events, h)
  }

  lemma InHourOfMore(events: seq<Event>, e: Event, hour: int)
    ensures InHour(events + [e], hour) == InHour(events, hour) + if HourOf(e.at) == hour then [e] else []
  {
    assert (events + [e])[..|events|] == events;
  }

  lemma SumOfMore(events: seq<Event>, e: Event)
    ensures SumCounts(events + [e]) == SumCounts(events) + e.count
  {
    assert (events + [e])[..|events|] == events;
  }

  lemma VisitorsOfMore(events: seq<Event>, e: Event)
    ensures Visitors(events + [e]) == Visitors(events) + if e.uv != "" then {e.uv} else {}
  {
    var more := events + [e];
    assert forall i :: 0 <= i < |events| ==> more[i] == events[i];
    assert more[|events|] == e;
    forall v | v in Visitors(events) ensures v in Visitors(more) {
      var i :| 0 <= i < |events| && events[i].uv != "" && events[i].uv == v;
      assert more[i].uv == v;
    }
  }

  lemma DataOfMore(events: seq<Event>, e: Event, hour: int)
    ensures var d := DataOf(events, hour);
            DataOf(events + [e], hour) ==
            if HourOf(e.at) == hour then Data(d.pv + e.count, d.uv + if e.uv != "" then {e.uv} else {}) else d
  {
    InHourOfMore(events, e, hour);
    if HourOf(e.at) == hour {
      SumOfMore(InHour(events, hour), e);
      VisitorsOfMore(InHour(events, hour), e);
    } else {
      assert InHour(events, hour) + [] == InHour(events, hour);
    }
  }

  lemma {:induction false} NoneInHour(events: seq<Event>, hour: int)
    requires forall i :: 0 <= i < |events| ==> HourOf(events[i].at) != hour
    ensures InHour(events, hour) == []
  {
    if events != [] {
      NoneInHour(events[..|events| - 1], hour);
    }
  }

  /** The map of the first loop holds the data of every hour with an event. */
  ghost predicate Holds(buckets: map<int, Data>, events: seq<Event>) {
    && (forall h :: h in buckets <==> HasEvent(events, h))
    && (forall h :: h in buckets ==> buckets[h] == DataOf(events, h))
  }

  function Next(buckets: map<int, Data>, e: Event): map<int, Data> {
    var h := HourOf(e.at);
    var d := if h in buckets then buckets[h] else Data(0, {});
    buckets[h := Data(d.pv + e.count, d.uv + if e.uv != "" then {e.uv} else {})]
  }

  lemma HasEventOfMore(events: seq<Event>, e: Event, hour: int)
    ensures HasEvent(events + [e], hour) <==> HasEvent(events, hour) || HourOf(e.at) == hour
  {
    var more := events + [e];
    assert more[|events|] == e;
    if HasEvent(events, hour) {
      var i :| 0 <= i < |events| && HourOf(events[i].at) == hour;
      assert HourOf(more[i].at) == hour;
    }
    if HasEvent(more, hour) && HourOf(e.at) != hour {
      var i :| 0 <= i < |more| && HourOf(more[i].at) == hour;
      assert HourOf(events[i].at) == hour;
    }
  }

  lemma DataOfNone(events: seq<Event>, hour: int)
    requires !HasEvent(events, hour)
    ensures DataOf(events, hour) == Data(0, {})
  {
    NoneInHour(events, hour);
  }

  lemma NextHolds(buckets: map<int, Data>, events: seq<Event>, e: Event)
    requires Holds(buckets, events)
    ensures Holds(Next(buckets, e), events + [e])
  {
    var h := HourOf(e.at);
    if h !in buckets {
      DataOfNone(events, h);
    }
    forall b ensures b in Next(buckets, e) <==> HasEvent(events + [e], b) {
      HasEventOfMore(events, e, b);
    }
    forall b | b in Next(buckets, e) ensures Next(buckets, e)[b] == DataOf(events + [e], b) {
      DataOfMore(events, e, b);
    }
  }

  method Collect(events: seq<Event>) returns (buckets: map<int, Data>)
    ensures Holds(buckets, events)
  {
    buckets := map[];
    for i := 0 to |events|
      invariant Holds(buckets, events[..i])
    {
      NextHolds(buckets, events[..i], events[i]);
      assert events[..i + 1] == events[..i] + [events[i]];
      buckets := AddEvent(buckets, events[i]);
    }
    assert events[..|events|] == events;
  }

  method AddEvent(before: map<int, Data>, event: Event) returns (buckets: map<int, Data>)
    ensures buckets == Next(before, event)
  {
    buckets := before;
    var bt := HourOf(event.at);
    if bt !in buckets {
      buckets := buckets[bt := Data(0, {})];
    }
    buckets := buckets[bt := buckets[bt].(pv := buckets[bt].pv + event.count)];
    if event.uv != "" {
      buckets := buckets[bt := buckets[bt].(uv := buckets[bt].uv + {event.uv})];
    } else {
      assert buckets[bt].uv + {} == buckets[bt].uv;
    }
    assert buckets[bt] == Next(before, event)[bt];
    assert buckets == Next(before, event);
  }

  /** sort.Slice by the bucket, for hours that differ. */
  function Insert(out: seq<Bucket>, b: Bucket): (r: seq<Bucket>)
    ensures |r| == |out| + 1
  {
    if out == [] then [b]
    else if out[|out| - 1].hour < b.hour then out + [b]
    else Insert(out[..|out| - 1], b) + [out[|out| - 1]]
  }

  lemma {:induction false} InsertKeeps(out: seq<Bucket>, b: Bucket, x: Bucket)
    ensures x in Insert(out, b) <==> x == b || x in out
  {
    if out != [] {
      assert out == out[..|out| - 1] + [out[|out| - 1]];
      if out[|out| - 1].hour >= b.hour {
        InsertKeeps(out[..|out| - 1], b, x);
      }
    }
  }

  lemma {:induction false} InsertOrders(out: seq<Bucket>, b: Bucket)
    requires Ordered(out) && forall i :: 0 <= i < |out| ==> out[i].hour != b.hour
    ensures Ordered(Insert(out, b))
  {
    if out != [] && out[|out| - 1].hour >= b.hour {
      var before, last := out[..|out| - 1], out[|out| - 1];
      InsertOrders(before, b);
      forall i | 0 <= i < |out| ensures Insert(before, b)[i].hour < last.hour {
        InsertKeeps(before, b, Insert(before, b)[i]);
      }
    }
  }

  /** The buckets of the hours taken from the map so far. */
  ghost predicate Taken(out: seq<Bucket>, events: seq<Event>, hours: set<int>, mode: Mode) {
    && Ordered(out)
    && (forall i :: 0 <= i < |out| ==> out[i] == BucketOf(events, out[i].hour, mode))
    && forall h :: HasBucket(out, h) <==> h in hours
  }

  lemma BucketAt(out: seq<Bucket>, b: Bucket)
    requires b in out
    ensures HasBucket(out, b.hour)
  {
  }

  lemma InsertTakes(out: seq<Bucket>, events: seq<Event>, hours: set<int>, mode: Mode, h: int)
    requires Taken(out, events, hours, mode) && h !in hours
    ensures Taken(Insert(out, BucketOf(events, h, mode)), events, hours + {h}, mode)
  {
    var b := BucketOf(events, h, mode);
    var more := Insert(out, b);
    forall i | 0 <= i < |out| ensures out[i].hour != h {
      BucketAt(out, out[i]);
    }
    InsertOrders(out, b);
    forall i | 0 <= i < |more| ensures more[i] == BucketOf(events, more[i].hour, mode) && more[i].hour in hours + {h} {
      InsertKeeps(out, b, more[i]);
      if more[i] in out {
        BucketAt(out, more[i]);
      }
    }
    forall x | x in hours + {h} ensures HasBucket(more, x) {
      if x == h {
        InsertKeeps(out, b, b);
        BucketAt(more, b);
      } else {
        var k :| 0 <= k < |out| && out[k].hour == x;
        InsertKeeps(out, b, out[k]);
        BucketAt(more, out[k]);
      }
    }
  }

  lemma NothingTaken(events: seq<Event>, mode: Mode)
    ensures Taken([], events, {}, mode)
  {
  }

  lemma AllTaken(out: seq<Bucket>, events: seq<Event>, buckets: map<int, Data>, mode: Mode)
    requires Holds(buckets, events) && Taken(out, events, buckets.Keys, mode)
    ensures IsSeries(out, events, mode)
  {
    forall h ensures HasBucket(out, h) <==> HasEvent(events, h) {
      assert h in buckets.Keys <==> h in buckets;
    }
  }

  /** In what order the keys of a map are ranged over. */
  type Ranging = set<int> -> seq<int>

  ghost predicate ListsOnce(order: seq<int>, keys: set<int>) {
    && (forall h :: h in order <==> h in keys)
    && forall i, j :: 0 <= i < j < |order| ==> order[i] != order[j]
  }

  function Before(order: seq<int>, n: nat): set<int>
    requires n <= |order|
  {
    set i | 0 <= i < n :: order[i]
  }

  lemma AllBefore(order: seq<int>, keys: set<int>)
    requires ListsOnce(order, keys)
    ensures Before(order, |order|) == keys
  {
    forall h | h in keys ensures h in Before(order, |order|) {
      var i :| 0 <= i < |order| && order[i] == h;
    }
    forall h | h in Before(order, |order|) ensures h in keys {
      assert h in order;
    }
  }

  /** The whole series, whatever the order in which the map is ranged over. */
  method TrackingSeries(
    table: seq<Event>, target: nat, since: int, mode: Mode, ranging: Ranging) returns (out: seq<Bucket>)
    requires forall keys :: ListsOnce(ranging(keys), keys)
    ensures IsSeries(out, Since(table, target, since), mode)
  {
    var events := Since(table, target, since);
    var buckets := Collect(events);
    out := Ordering(events, buckets, mode, ranging(buckets.Keys));
    AllTaken(out, events, buckets, mode);
  }

  /** The second loop: a bucket for each key of the map, then sorted. */
  method Ordering(events: seq<Event>, buckets: map<int, Data>, mode: Mode, order: seq<int>) returns (out: seq<Bucket>)
    requires forall h :: h in buckets ==> buckets[h] == DataOf(events, h)
    requires ListsOnce(order, buckets.Keys)
    ensures Taken(out, events, buckets.Keys, mode)
  {
    out := [];
    NothingTaken(events, mode);
    for k := 0 to |order|
      invariant Taken(out, events, Before(order, k), mode)
    {
      var h := order[k];
      assert h in buckets.Keys;
      InsertTakes(out, events, Before(order, k), mode, h);
      out := Insert(out, Bucket(h, Shown(mode, buckets[h].pv, |buckets[h].uv|)));
      assert Before(order, k) + {h} == Before(order, k + 1);
    }
    AllBefore(order, buckets.Keys);
  }

  // ----- Conservation -----

  function SumPV(out: seq<Bucket>): int {
    if out == [] then 0 else SumPV(out[..|out| - 1]) + out[|out| - 1].figures.pv
  }

  function SumUV(out: seq<Bucket>): nat {
    if out == [] then 0 else SumUV(out[..|out| - 1]) + out[|out| - 1].figures.uv
  }

  /** The page views of the hours of a list of buckets. */
  function HourlyPV(events: seq<Event>, out: seq<Bucket>): int {
    if out == [] then 0 else HourlyPV(events, out[..|out| - 1]) + DataOf(events, out[|out| - 1].hour).pv
  }

  lemma {:induction false} HourlyOfNothing(out: seq<Bucket>)
    ensures HourlyPV([], out) == 0
  {
    if out != [] {
      HourlyOfNothing(out[..|out| - 1]);
    }
  }

  lemma HasBucketOfLast(out: seq<Bucket>, hour: int)
    requires out != [] && Ordered(out)
    ensures HasBucket(out, hour) <==> HasBucket(out[..|out| - 1], hour) || out[|out| - 1].hour == hour
    ensures HasBucket(out[..|out| - 1], hour) ==> out[|out| - 1].hour != hour
  {
    var before := out[..|out| - 1];
    if HasBucket(before, hour) {
      var k :| 0 <= k < |before| && before[k].hour == hour;
      assert out[k].hour == hour;
    }
    if HasBucket(out, hour) && out[|out| - 1].hour != hour {
      var k :| 0 <= k < |out| && out[k].hour == hour;
      assert before[k].hour == hour;
    }
  }

  /** One more event raises the hourly views by its count if its hour is in the list. */
  lemma {:induction false} HourlyOfMore(events: seq<Event>, e: Event, out: seq<Bucket>)
    requires Ordered(out)
    ensures HourlyPV(events + [e], out) == HourlyPV(events, out) + if HasBucket(out, HourOf(e.at)) then e.count else 0
  {
    if out != [] {
      HourlyOfMore(events, e, out[..|out| - 1]);
      DataOfMore(events, e, out[|out| - 1].hour);
      HasBucketOfLast(out, HourOf(e.at));
    }
  }

  lemma {:induction false} HourlyIsAll(events: seq<Event>, out: seq<Bucket>)
    requires Ordered(out)
    requires forall i :: 0 <= i < |events| ==> HasBucket(out, HourOf(events[i].at))
    ensures HourlyPV(events, out) == SumCounts(events)
  {
    if events == [] {
      HourlyOfNothing(out);
    } else {
      var n := |events| - 1;
      HourlyIsAll(events[..n], out);
      assert events == events[..n] + [events[n]];
      HourlyOfMore(events[..n], events[n], out);
    }
  }

  lemma {:induction false} SumsOfBuckets(events: seq<Event>, out: seq<Bucket>, mode: Mode)
    requires forall i :: 0 <= i < |out| ==> out[i] == BucketOf(events, out[i].hour, mode)
    ensures SumPV(out) == if mode.UV? then 0 else HourlyPV(events, out)
    ensures mode.PV? ==> SumUV(out) == 0
  {
    if out != [] {
      SumsOfBuckets(events, out[..|out| - 1], mode);
    }
  }

  lemma {:induction false} InHourIsPart(events: seq<Event>, hour: int)
    ensures forall e :: e in InHour(events, hour) <==> e in events && HourOf(e.at) == hour
  {
    if events != [] {
      assert events == events[..|events| - 1] + [events[|events| - 1]];
      InHourIsPart(events[..|events| - 1], hour);
    }
  }

  lemma VisitorsAre(events: seq<Event>, v: string)
    ensures v in Visitors(events) <==> v != "" && exists e :: e in events && e.uv == v
  {
    if v in Visitors(events) {
      var i :| 0 <= i < |events| && events[i].uv != "" && events[i].uv == v;
      assert events[i] in events;
    }
    if v != "" && exists e :: e in events && e.uv == v {
      var e :| e in events && e.uv == v;
      var i :| 0 <= i < |events| && events[i] == e;
      assert events[i].uv == v;
    }
  }

  lemma HourlyVisitor(events: seq<Event>, hour: int, v: string)
    ensures v in DataOf(events, hour).uv <==> v != "" && exists e :: e in events && HourOf(e.at) == hour && e.uv == v
  {
    VisitorsAre(InHour(events, hour), v);
    InHourIsPart(events, hour);
  }

  lemma SubsetIsSmaller(a: set<string>, b: set<string>)
    requires a <= b
    ensures |a| <= |b|
  {
    assert b == a + (b - a);
  }

  /** An hour has no more visitors than all hours together. */
  lemma HourHasFewer(events: seq<Event>, hour: int)
    ensures |DataOf(events, hour).uv| <= |Visitors(events)|
  {
    forall v | v in DataOf(events, hour).uv ensures v in Visitors(events) {
      HourlyVisitor(events, hour, v);
      VisitorsAre(events, v);
    }
    SubsetIsSmaller(DataOf(events, hour).uv, Visitors(events));
  }

  /** The visitors of all hours of the list. */
  function Seen(events: seq<Event>, out: seq<Bucket>): set<string> {
    if out == [] then {} else Seen(events, out[..|out| - 1]) + DataOf(events, out[|out| - 1].hour).uv
  }

  lemma UnionIsSmall(a: set<string>, b: set<string>)
    ensures |a + b| <= |a| + |b|
  {
    assert a + b == a + (b - a);
    SubsetIsSmaller(b - a, b);
  }

  lemma {:induction false} SeenIsSmall(events: seq<Event>, out: seq<Bucket>, mode: Mode)
    requires !mode.PV? && forall i :: 0 <= i < |out| ==> out[i] == BucketOf(events, out[i].hour, mode)
    ensures |Seen(events, out)| <= SumUV(out)
  {
    if out != [] {
      var n := |out| - 1;
      SeenIsSmall(events, out[..n], mode);
      UnionIsSmall(Seen(events, out[..n]), DataOf(events, out[n].hour).uv);
    }
  }

  lemma {:induction false} SeenHas(events: seq<Event>, out: seq<Bucket>, k: nat)
    requires k < |out|
    ensures DataOf(events, out[k].hour).uv <= Seen(events, out)
  {
    if k < |out| - 1 {
      SeenHas(events, out[..|out| - 1], k);
    }
  }

  lemma AllAreSeen(events: seq<Event>, out: seq<Bucket>)
    requires forall i :: 0 <= i < |events| ==> HasBucket(out, HourOf(events[i].at))
    ensures |Visitors(events)| <= |Seen(events, out)|
  {
    forall v | v in Visitors(events) ensures v in Seen(events, out) {
      var i :| 0 <= i < |events| && events[i].uv != "" && events[i].uv == v;
      var k: nat :| k < |out| && out[k].hour == HourOf(events[i].at);
      assert events[i] in events;
      HourlyVisitor(events, out[k].hour, v);
      SeenHas(events, out, k);
    }
    SubsetIsSmaller(Visitors(events), Seen(events, out));
  }

  /** Main result: in every mode, the page views of the series add up to those of the summary, and the
      summary's visitors lie between those of every single bucket and the sum over all buckets. */
  lemma {:induction false} SeriesAgreesWithSummary(
    table: seq<Event>, target: nat, since: int, mode: Mode, out: seq<Bucket>)
    requires IsSeries(out, Since(table, target, since), mode)
    ensures var s := Summary(table, target, since, mode);
            && SumPV(out) == s.pv
            && (forall i :: 0 <= i < |out| ==> out[i].figures.uv <= s.uv)
            && s.uv <= SumUV(out)
  {
    var events := Since(table, target, since);
    EventsHaveBuckets(out, events, mode);
    SumsOfBuckets(events, out, mode);
    HourlyIsAll(events, out);
    forall i | 0 <= i < |out| ensures out[i].figures.uv <= Summary(table, target, since, mode).uv {
      HourHasFewer(events, out[i].hour);
    }
    if !mode.PV? {
      SeenIsSmall(events, out, mode);
      AllAreSeen(events, out);
    }
  }

  lemma EventsHaveBuckets(out: seq<Bucket>, events: seq<Event>, mode: Mode)
    requires IsSeries(out, events, mode)
    ensures forall i :: 0 <= i < |events| ==> HasBucket(out, HourOf(events[i].at))
  {
    forall i | 0 <= i < |events| ensures HasBucket(out, HourOf(events[i].at)) {
      assert HasEvent(events, HourOf(events[i].at));
    }
  }

  // ----- What ingestion adds -----

  function Total(items: seq<Item>): int {
    if items == [] then 0 else Total(items[..|items| - 1]) + CountOf(items[|items| - 1])
  }

  /** All page views of a target. */
  function AllPV(table: seq<Event>, target: nat): int {
    if table == [] then 0
    else
      var last := table[|table| - 1];
      AllPV(table[..|table| - 1], target) + if last.target == target then last.count else 0
  }

  /** A stored batch raises its target's page views by the sum of its counts, those that are not
      positive read as 1, so by at least one an item; no other target's change. */
  lemma {:induction false} IngestRaisesPV(
    table: seq<Event>, owner: nat, items: seq<Item>, now: int, epoch: int, target: nat)
    ensures AllPV(table + EventsOf(owner, items, now, epoch), target) ==
            AllPV(table, target) + if target == owner then Total(items) else 0
    ensures Total(items) >= |items|
  {
    if items == [] {
      assert table + EventsOf(owner, items, now, epoch) == table;
    } else {
      var n := |items| - 1;
      var all := table + EventsOf(owner, items, now, epoch);
      IngestRaisesPV(table, owner, items[..n], now, epoch, target);
      assert all[..|all| - 1] == table + EventsOf(owner, items[..n], now, epoch);
      assert all[|all| - 1] == EventOf(owner, items[n], now, epoch);
    }
  }

  // ----- What the summary shows of a batch -----

  /** When an item happened: at its own time if it has one, else now. */
  function TimeOf(item: Item, now: int, epoch: int): int {
    if item.at > 0 then epoch + item.at * 1_000_000 else now
  }

  /** The counts of the items since an instant, those that are not positive read as 1. */
  function CountsSince(items: seq<Item>, now: int, epoch: int, since: int): int {
    if items == [] then 0
    else
      var last := items[|items| - 1];
      CountsSince(items[..|items| - 1], now, epoch, since) +
      if TimeOf(last, now, epoch) < since then 0 else if last.count > 0 then last.count else 1
  }

  /** Some item since then is of this visitor. */
  ghost predicate Visits(items: seq<Item>, now: int, epoch: int, since: int, v: string) {
    v != "" && exists i :: 0 <= i < |items| && items[i].uv == v && TimeOf(items[i], now, epoch) >= since
  }

  lemma {:induction false} SinceOfMore(table: seq<Event>, e: Event, target: nat, since: int)
    ensures Since(table + [e], target, since) ==
            Since(table, target, since) + if e.target == target && e.at >= since then [e] else []
  {
    assert (table + [e])[..|table|] == table;
  }

  /** One more event in the table, as the summary sees it. */
  lemma {:induction false} SummaryOfMore(table: seq<Event>, e: Event, target: nat, since: int)
    ensures var seen := e.target == target && e.at >= since;
            var before, after := Since(table, target, since), Since(table + [e], target, since);
            && SumCounts(after) == SumCounts(before) + (if seen then e.count else 0)
            && Visitors(after) == Visitors(before) + (if seen && e.uv != "" then {e.uv} else {})
  {
    SinceOfMore(table, e, target, since);
    if e.target == target && e.at >= since {
      SumOfMore(Since(table, target, since), e);
      VisitorsOfMore(Since(table, target, since), e);
    } else {
      assert Since(table, target, since) + [] == Since(table, target, since);
    }
  }

  lemma {:induction false} VisitsOfMore(items: seq<Item>, now: int, epoch: int, since: int, v: string)
    requires items != []
    ensures var n := |items| - 1;
            Visits(items, now, epoch, since, v) <==>
              Visits(items[..n], now, epoch, since, v) ||
              (v != "" && items[n].uv == v && TimeOf(items[n], now, epoch) >= since)
  {
    var n := |items| - 1;
    if Visits(items[..n], now, epoch, since, v) {
      var i :| 0 <= i < n && items[..n][i].uv == v && TimeOf(items[..n][i], now, epoch) >= since;
      assert items[i] == items[..n][i];
    }
    if Visits(items, now, epoch, since, v) {
      var i :| 0 <= i < |items| && items[i].uv == v && TimeOf(items[i], now, epoch) >= since;
      assert i < n ==> items[..n][i] == items[i];
    }
  }

  lemma {:induction false} EventsOfMore(
    table: seq<Event>, owner: nat, items: seq<Item>, now: int, epoch: int)
    requires items != []
    ensures var n := |items| - 1;
            table + EventsOf(owner, items, now, epoch) ==
            (table + EventsOf(owner, items[..n], now, epoch)) + [EventOf(owner, items[n], now, epoch)]
  {
  }

  lemma {:induction false} EventOfItem(owner: nat, item: Item, now: int, epoch: int)
    ensures var e := EventOf(owner, item, now, epoch);
            e.target == owner && e.at == TimeOf(item, now, epoch) && e.uv == item.uv &&
            e.count == if item.count > 0 then item.count else 1
  {
  }

  lemma {:induction false} BatchCounts(
    table: seq<Event>, owner: nat, items: seq<Item>, now: int, epoch: int, target: nat, since: int)
    ensures SumCounts(Since(table + EventsOf(owner, items, now, epoch), target, since)) ==
            SumCounts(Since(table, target, since)) +
            if target == owner then CountsSince(items, now, epoch, since) else 0
  {
    if items == [] {
      assert table + EventsOf(owner, items, now, epoch) == table;
    } else {
      var n := |items| - 1;
      var first := table + EventsOf(owner, items[..n], now, epoch);
      BatchCounts(table, owner, items[..n], now, epoch, target, since);
      EventsOfMore(table, owner, items, now, epoch);
      EventOfItem(owner, items[n], now, epoch);
      SummaryOfMore(first, EventOf(owner, items[n], now, epoch), target, since);
    }
  }

  lemma {:induction false} BatchVisitor(
    table: seq<Event>, owner: nat, items: seq<Item>, now: int, epoch: int, target: nat, since: int, v: string)
    ensures v in Visitors(Since(table + EventsOf(owner, items, now, epoch), target, since)) <==>
            v in Visitors(Since(table, target, since)) || (target == owner && Visits(items, now, epoch, since, v))
  {
    if items == [] {
      assert table + EventsOf(owner, items, now, epoch) == table;
    } else {
      var n := |items| - 1;
      var first := table + EventsOf(owner, items[..n], now, epoch);
      BatchVisitor(table, owner, items[..n], now, epoch, target, since, v);
      EventsOfMore(table, owner, items, now, epoch);
      EventOfItem(owner, items[n], now, epoch);
      SummaryOfMore(first, EventOf(owner, items[n], now, epoch), target, since);
      VisitsOfMore(items, now, epoch, since, v);
    }
  }

  /** Main result: a stored batch adds to its target's page views since an instant exactly the counts of its items since
      then, and to the visitors exactly those of these items; no other target's figures change. */
  lemma {:induction false} BatchShowsInSummary(
    table: seq<Event>, owner: nat, items: seq<Item>, now: int, epoch: int, target: nat, since: int)
    ensures var before := Since(table, target, since);
            var after := Since(table + EventsOf(owner, items, now, epoch), target, since);
            && SumCounts(after) ==
                 SumCounts(before) + (if target == owner then CountsSince(items, now, epoch, since) else 0)
            && forall v :: v in Visitors(after) <==>
                 v in Visitors(before) || (target == owner && Visits(items, now, epoch, since, v))
  {
    BatchCounts(table, owner, items, now, epoch, target, since);
    var before := Since(table, target, since);
    var after := Since(table + EventsOf(owner, items, now, epoch), target, since);
    forall v
      ensures v in Visitors(after) <==>
                v in Visitors(before) || (target == owner && Visits(items, now, epoch, since, v))
    {
      BatchVisitor(table, owner, items, now, epoch, target, since, v);
    }
  }

  /** What the summary shows: page views unless it is for visitors alone, visitors unless it is for page views alone. */
  lemma {:induction false} SummaryShows(table: seq<Event>, target: nat, since: int, mode: Mode)
    ensures var s, events := Summary(table, target, since, mode), Since(table, target, since);
            && s.pv == (if mode == Both || mode == PV then SumCounts(events) else 0)
            && s.uv == (if mode == Both || mode == UV then |Visitors(events)| else 0)
  {
  }

  /** An event belongs to the bucket of the hour that it falls into. */
  lemma {:induction false} HourHolds(at: int)
    ensures HourOf(at) * 3_600_000_000_000 <= at < (HourOf(at) + 1) * 3_600_000_000_000
  {
  }
}
