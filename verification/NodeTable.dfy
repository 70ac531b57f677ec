/** The stored node table: how it is rebuilt from a parsed list while measurements are carried across by
    UID (refreshSubscriptionOnce, syncManualNodeList in server/internal/service/target_service.go). */
module NodeTable {
  import opened Text
  import opened UriList

  /** What probing has written into a row. */
  datatype Measures = Measures(
    latencyMS: Option<int>, scoreMS: int, tcpMS: int, tlsMS: int, e2eDomesticMS: int, e2eOverseasMS: int,
    jitterMS: int, probeMode: string, failStage: string, failReason: string, errorMsg: string, checkedAt: Option<int>)

  /** A row that was never probed; the column default of the probe mode is "mixed". */
  const UNMEASURED := Measures(None, 0, 0, 0, 0, 0, 0, "mixed", "", "", "", None)

  /** A model.SubscriptionNode: a parsed node of a target, with its measurements. */
  datatype Row = Row(id: nat, target: nat, node: Parsed, measures: Measures)

  function Of(rows: seq<Row>, target: nat): seq<Row> {
    if rows == [] then []
    else
      var r := rows[|rows| - 1];
      Of(rows[..|rows| - 1], target) + if r.target == target then [r] else []
  }

  function Others(rows: seq<Row>, target: nat): seq<Row> {
    if rows == [] then []
    else
      var r := rows[|rows| - 1];
      Others(rows[..|rows| - 1], target) + if r.target == target then [] else [r]
  }

  /** The measurements of the last row with this UID. */
  function Known(prev: seq<Row>, uid: string): Option<Measures> {
    if prev == [] then None
    else if prev[|prev| - 1].node.uid == uid then Some(prev[|prev| - 1].measures)
    else Known(prev[..|prev| - 1], uid)
  }

  function Carried(prev: seq<Row>, uid: string): Measures {
    var k := Known(prev, uid);
    if k.Some? then k.value else UNMEASURED
  }

  /** The rows made from a parsed list. */
  function RowsFor(target: nat, nodes: seq<Parsed>, prev: seq<Row>, firstId: nat): (r: seq<Row>)
    ensures |r| == |nodes|
  {
    seq(|nodes|, k requires 0 <= k < |nodes| => Row(firstId + k, target, nodes[k], Carried(prev, nodes[k].uid)))
  }

  function Rebuilt(rows: seq<Row>, target: nat, nodes: seq<Parsed>, firstId: nat): seq<Row> {
    Others(rows, target) + RowsFor(target, nodes, Of(rows, target), firstId)
  }

  // ----- What a rebuild means -----

  lemma {:induction false} OfConcat(a: seq<Row>, b: seq<Row>, target: nat)
    ensures Of(a + b, target) == Of(a, target) + Of(b, target)
    ensures Others(a + b, target) == Others(a, target) + Others(b, target)
  {
    if b == [] {
      assert a + b == a;
    } else {
      var n := |b| - 1;
      assert (a + b)[..|a + b| - 1] == a + b[..n];
      OfConcat(a, b[..n], target);
    }
  }

  lemma {:induction false} OfUniform(rows: seq<Row>, owner: nat, target: nat)
    requires forall r :: r in rows ==> r.target == owner
    ensures Of(rows, target) == if owner == target then rows else []
    ensures Others(rows, target) == if owner == target then [] else rows
  {
    if rows != [] {
      OfUniform(rows[..|rows| - 1], owner, target);
    }
  }

  lemma {:induction false} OthersHasNone(rows: seq<Row>, target: nat, other: nat)
    ensures Of(Others(rows, target), target) == []
    ensures other != target ==> Of(Others(rows, target), other) == Of(rows, other)
    ensures Others(Others(rows, target), target) == Others(rows, target)
  {
    if rows != [] {
      var before, r := rows[..|rows| - 1], rows[|rows| - 1];
      OthersHasNone(before, target, other);
      var last := if r.target == target then [] else [r];
      OfConcat(Others(before, target), last, target);
      OfConcat(Others(before, target), last, other);
      if r.target != target {
        assert [r][..0] == [];
        OfUniform([r], r.target, target);
        OfUniform([r], r.target, other);
      }
    }
  }

  /** Main result: after a rebuild the target's rows are the parsed nodes, in their order, each with the
      measurements known for its UID; every other target's rows are untouched. */
  lemma {:induction false} RebuildIsExact(rows: seq<Row>, target: nat, nodes: seq<Parsed>, firstId: nat, other: nat)
    ensures Of(Rebuilt(rows, target, nodes, firstId), target) == RowsFor(target, nodes, Of(rows, target), firstId)
    ensures other != target ==> Of(Rebuilt(rows, target, nodes, firstId), other) == Of(rows, other)
  {
    var made := RowsFor(target, nodes, Of(rows, target), firstId);
    OfConcat(Others(rows, target), made, target);
    OfConcat(Others(rows, target), made, other);
    OthersHasNone(rows, target, other);
    OfUniform(made, target, target);
    OfUniform(made, target, other);
    assert Of(Others(rows, target), target) + made == made;
    assert other != target ==> Of(Others(rows, target), other) + [] == Of(rows, other);
  }

  /** What is known of a UID is what some row with that UID says, and of no row nothing. */
  lemma {:induction false} KnownIsSomeRow(prev: seq<Row>, uid: string)
    ensures Known(prev, uid) == None <==> forall k :: 0 <= k < |prev| ==> prev[k].node.uid != uid
    ensures Known(prev, uid).Some? ==> exists k ::
              0 <= k < |prev| && prev[k].node.uid == uid && prev[k].measures == Known(prev, uid).value &&
              forall j :: k < j < |prev| ==> prev[j].node.uid != uid
  {
    if prev != [] {
      var n := |prev| - 1;
      KnownIsSomeRow(prev[..n], uid);
      if prev[n].node.uid != uid && Known(prev[..n], uid).Some? {
        var k :| 0 <= k < n && prev[..n][k].node.uid == uid && prev[..n][k].measures == Known(prev[..n], uid).value &&
                 forall j :: k < j < n ==> prev[..n][j].node.uid != uid;
        assert prev[k] == prev[..n][k];
        assert forall j :: k < j < n ==> prev[j] == prev[..n][j];
      }
    }
  }

  /** A node that was not listed before has no measurements: no latency, no time, no figures, no error. */
  lemma {:induction false} NewNodesAreUnmeasured(prev: seq<Row>, uid: string)
    requires forall k :: 0 <= k < |prev| ==> prev[k].node.uid != uid
    ensures var m := Carried(prev, uid);
            && m.latencyMS == None && m.checkedAt == None && m.probeMode == "mixed"
            && m.scoreMS == m.tcpMS == m.tlsMS == m.e2eDomesticMS == m.e2eOverseasMS == m.jitterMS == 0
            && m.failStage == m.failReason == m.errorMsg == ""
  {
    KnownIsSomeRow(prev, uid);
  }

  /** The new rows know of each UID what the old rows knew of it. */
  lemma {:induction false} RowsForKnow(target: nat, nodes: seq<Parsed>, prev: seq<Row>, firstId: nat, uid: string)
    requires exists k :: 0 <= k < |nodes| && nodes[k].uid == uid
    ensures Known(RowsFor(target, nodes, prev, firstId), uid) == Some(Carried(prev, uid))
  {
    var n := |nodes| - 1;
    var made := RowsFor(target, nodes, prev, firstId);
    assert made[..n] == RowsFor(target, nodes[..n], prev, firstId);
    if nodes[n].uid != uid {
      var k :| 0 <= k < |nodes| && nodes[k].uid == uid;
      assert nodes[..n][k].uid == uid;
      RowsForKnow(target, nodes[..n], prev, firstId, uid);
    }
  }

  /** Equal but for the row id. */
  predicate SameRow(a: Row, b: Row) {
    a == b.(id := a.id)
  }

  /** Rebuilding again from the same list changes nothing but row ids. */
  lemma RebuildIsIdempotent(rows: seq<Row>, target: nat, nodes: seq<Parsed>, id1: nat, id2: nat)
    ensures var once := Rebuilt(rows, target, nodes, id1);
            var twice := Rebuilt(once, target, nodes, id2);
            && |twice| == |once|
            && forall k :: 0 <= k < |once| ==> SameRow(twice[k], once[k])
  {
    var once := Rebuilt(rows, target, nodes, id1);
    var others, made := Others(rows, target), RowsFor(target, nodes, Of(rows, target), id1);
    RebuildIsExact(rows, target, nodes, id1, target);
    OfConcat(others, made, target);
    OthersHasNone(rows, target, target);
    OfUniform(made, target, target);
    assert Others(once, target) == others;
    forall k | 0 <= k < |nodes| ensures Carried(made, nodes[k].uid) == Carried(Of(rows, target), nodes[k].uid) {
      RowsForKnow(target, nodes, Of(rows, target), id1, nodes[k].uid);
    }
  }
}
