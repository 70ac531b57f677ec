/** The node tables as the service updates them, inside transactions that roll back. */
module NodeStore {
  import opened Text
  import opened UriList
  import opened NodeTable
  import opened NodeGroup

  class Store {
    var targets: map<nat, Target>
    var rows: seq<Row>
    var checks: seq<Check>
    var nextId: nat

    constructor ()
      ensures View() == Tables(map[], [], [], 1)
    {
      targets, rows, checks, nextId := map[], [], [], 1;
    }

    function View(): Tables
      reads this
    {
      Tables(targets, rows, checks, nextId)
    }

    method Rollback(saved: Tables)
      modifies this
      ensures View() == saved
    {
      targets, rows, checks, nextId := saved.targets, saved.rows, saved.checks, saved.nextId;
    }

    /** The carry-over of refreshSubscriptionOnce: the measurements by UID, the last row of a UID winning, then the
        rows of the parsed nodes with the measurements copied field by field. */
    static method RowsOfRefresh(target: nat, nodes: seq<Parsed>, prev: seq<Row>, firstId: nat) returns (made: seq<Row>)
      ensures made == RowsFor(target, nodes, prev, firstId)
    {
      var latencyMap: map<string, Measures> := map[];
      for i := 0 to |prev|
        invariant forall uid :: uid in latencyMap <==> Known(prev[..i], uid).Some?
        invariant forall uid :: uid in latencyMap ==> Known(prev[..i], uid) == Some(latencyMap[uid])
      {
        assert prev[..i + 1][..i] == prev[..i];
        var item := prev[i].measures;
        latencyMap := latencyMap[prev[i].node.uid := Measures(
          item.latencyMS, item.scoreMS, item.tcpMS, item.tlsMS, item.e2eDomesticMS, item.e2eOverseasMS,
          item.jitterMS, item.probeMode, item.failStage, item.failReason, item.errorMsg, item.checkedAt)];
      }
      assert prev[..|prev|] == prev;
      made := [];
      for i := 0 to |nodes|
        invariant made == RowsFor(target, nodes[..i], prev, firstId)
      {
        var x := UNMEASURED;
        if nodes[i].uid in latencyMap {
          var oldVal := latencyMap[nodes[i].uid];
          x := x.(latencyMS := oldVal.latencyMS, scoreMS := oldVal.scoreMS);
          x := x.(tcpMS := oldVal.tcpMS, tlsMS := oldVal.tlsMS, jitterMS := oldVal.jitterMS);
          x := x.(e2eDomesticMS := oldVal.e2eDomesticMS, e2eOverseasMS := oldVal.e2eOverseasMS);
          x := x.(probeMode := oldVal.probeMode, failStage := oldVal.failStage, failReason := oldVal.failReason);
          x := x.(errorMsg := oldVal.errorMsg, checkedAt := oldVal.checkedAt);
        }
        made := made + [Row(firstId + i, target, nodes[i], x)];
      }
      assert nodes[..|nodes|] == nodes;
    }

    /** The carry-over of syncManualNodeList, a text of its own in the source. */
    static method RowsOfSync(target: nat, nodes: seq<Parsed>, prev: seq<Row>, firstId: nat) returns (rows: seq<Row>)
      ensures rows == RowsFor(target, nodes, prev, firstId)
    {
      var latencyMap: map<string, Measures> := map[];
      var k := 0;
      while k < |prev|
        invariant 0 <= k <= |prev|
        invariant forall uid :: uid in latencyMap <==> Known(prev[..k], uid).Some?
        invariant forall uid :: uid in latencyMap ==> Known(prev[..k], uid) == Some(latencyMap[uid])
      {
        assert prev[..k + 1][..k] == prev[..k];
        var item := prev[k].measures;
        latencyMap := latencyMap[prev[k].node.uid := Measures(
          item.latencyMS, item.scoreMS, item.tcpMS, item.tlsMS, item.e2eDomesticMS, item.e2eOverseasMS,
          item.jitterMS, item.probeMode, item.failStage, item.failReason, item.errorMsg, item.checkedAt)];
        k := k + 1;
      }
      assert prev[..k] == prev;
      rows := [];
      while |rows| < |nodes|
        invariant |rows| <= |nodes| && rows == RowsFor(target, nodes[..|rows|], prev, firstId)
      {
        var node := nodes[|rows|];
        var row := Row(firstId + |rows|, target, node, UNMEASURED);
        if node.uid in latencyMap {
          var oldVal := latencyMap[node.uid];
          row := row.(measures := row.measures.(latencyMS := oldVal.latencyMS, scoreMS := oldVal.scoreMS));
          row := row.(measures := row.measures.(tcpMS := oldVal.tcpMS, tlsMS := oldVal.tlsMS));
          row := row.(measures := row.measures.(e2eDomesticMS := oldVal.e2eDomesticMS));
          row := row.(measures := row.measures.(e2eOverseasMS := oldVal.e2eOverseasMS));
          row := row.(measures := row.measures.(jitterMS := oldVal.jitterMS, probeMode := oldVal.probeMode));
          row := row.(measures := row.measures.(failStage := oldVal.failStage, failReason := oldVal.failReason));
          row := row.(measures := row.measures.(errorMsg := oldVal.errorMsg, checkedAt := oldVal.checkedAt));
        }
        rows := rows + [row];
      }
      assert nodes[..|rows|] == nodes;
    }

    /** The two copies of the carry-over, on the same old rows and the same parsed list, make the same rows. */
    static method CarryOversAgree(target: nat, nodes: seq<Parsed>, prev: seq<Row>, firstId: nat)
      returns (refreshed: seq<Row>, synced: seq<Row>)
      ensures refreshed == synced && |refreshed| == |nodes|
      ensures forall k :: 0 <= k < |nodes| ==>
                refreshed[k].node == nodes[k] && refreshed[k].measures == Carried(prev, nodes[k].uid)
    {
      refreshed := RowsOfRefresh(target, nodes, prev, firstId);
      synced := RowsOfSync(target, nodes, prev, firstId);
    }

    /** The transaction of refreshSubscriptionOnce. */
    method RefreshNodes(target: nat, nodes: seq<Parsed>, fails: Faults) returns (err: Option<Error>)
      modifies this
      ensures Refresh(old(View()), target, nodes, fails) == if err == None then Commit(View()) else Abort(err.value)
      ensures err != None ==> View() == old(View())
    {
      var saved := View();
      err := RefreshBody(target, nodes, fails);
      if err != None {
        Rollback(saved);
      }
    }

    method RefreshBody(target: nat, nodes: seq<Parsed>, fails: Faults) returns (err: Option<Error>)
      modifies this
      ensures Refresh(old(View()), target, nodes, fails) == if err == None then Commit(View()) else Abort(err.value)
    {
      if fails(SaveSnapshot) {
        return Some(Database);
      }
      if fails(ReadRows) {
        return Some(Database);
      }
      var prev := Of(rows, target);
      if fails(DeleteRows) {
        return Some(Database);
      }
      rows := Others(rows, target);
      if nodes == [] {
        assert Rebuilt(old(rows), target, nodes, nextId) == rows;
        return None;
      }
      var made := RowsOfRefresh(target, nodes, prev, nextId);
      if fails(InsertRows) {
        return Some(Database);
      }
      rows := rows + made;
      nextId := nextId + |nodes|;
      return None;
    }

    /** The part of a transaction that syncs a node group; its caller rolls back when it returns an error. */
    method SyncManualNodeList(target: nat, uris: seq<string>, f: LineParser, fails: Faults) returns (err: Option<Error>)
      modifies this
      ensures Sync(old(View()), target, uris, f, fails) == if err == None then Commit(View()) else Abort(err.value)
    {
      if uris == [] {
        if fails(DeleteRows) {
          return Some(Database);
        }
        rows := Others(rows, target);
        return None;
      }
      var nodes := ParseLines(f, Lines(JoinLines(uris)));
      if nodes == [] {
        return Some(NoValidNodes);
      }
      err := RebuildFromList(target, nodes, fails);
    }

    method RebuildFromList(target: nat, nodes: seq<Parsed>, fails: Faults) returns (err: Option<Error>)
      requires nodes != []
      modifies this
      ensures Replace(old(View()), target, nodes, fails) == if err == None then Commit(View()) else Abort(Database)
      ensures err == None || err == Some(Database)
    {
      if fails(ReadRows) {
        return Some(Database);
      }
      var prev := Of(rows, target);
      if fails(DeleteRows) {
        return Some(Database);
      }
      rows := Others(rows, target);
      var made := RowsOfSync(target, nodes, prev, nextId);
      if fails(InsertRows) {
        return Some(Database);
      }
      rows := rows + made;
      nextId := nextId + |nodes|;
      return None;
    }

    /** A refresh and a sync of the same parsed list, on equal tables, end with equal tables or both with an error. */
    static method TransactionsAgree(a: Store, b: Store, target: nat, uris: seq<string>, f: LineParser, fails: Faults)
      returns (err: Option<Error>, err': Option<Error>)
      requires a != b && a.View() == b.View() && uris != []
      requires ParseURIList(f, JoinLines(uris)) != [] && !fails(SaveSnapshot)
      modifies a, b
      ensures err == err' && (err == None ==> a.View() == b.View())
    {
      RebuildsAgree(a.View(), target, uris, f, fails);
      var nodes := ParseLines(f, Lines(JoinLines(uris)));
      err := a.RefreshNodes(target, nodes, fails);
      err' := b.SyncManualNodeList(target, uris, f, fails);
    }

    /** CreateTarget: the target, under an id of the database's choice, and a node group's table in one transaction. */
    method CreateTarget(target: nat, kind: string, uris: seq<string>, f: LineParser, fails: Faults)
      returns (err: Option<Error>)
      modifies this
      ensures Create(old(View()), target, kind, uris, f, fails) ==
                if err == None then Commit(View()) else Abort(err.value)
      ensures err != None ==> View() == old(View())
    {
      var saved := View();
      if fails(WriteTarget) || target in targets {
        return Some(Database);
      }
      targets := targets[target := Target(kind, uris)];
      err := None;
      if kind == "node_group" {
        err := SyncManualNodeList(target, uris, f, fails);
      }
      if err != None {
        Rollback(saved);
      }
    }

    /** DeleteTarget leaves the rows of the target behind. */
    method DeleteTarget(target: nat, fails: Faults) returns (err: Option<Error>)
      modifies this
      ensures Drop(old(View()), target, fails) == if err == None then Commit(View()) else Abort(err.value)
      ensures err != None ==> View() == old(View())
    {
      if fails(WriteTarget) {
        return Some(Database);
      }
      targets := targets - {target};
      return None;
    }

    /** UpdateTarget: the configuration and, for a node group, its table, in one transaction. */
    method UpdateTarget(
      target: nat, kind: string, uris: seq<string>, f: LineParser, fails: Faults) returns (err: Option<Error>)
      modifies this
      ensures Update(old(View()), target, kind, uris, f, fails) ==
                if err == None then Commit(View()) else Abort(err.value)
      ensures err != None ==> View() == old(View())
    {
      var saved := View();
      if fails(WriteTarget) {
        return Some(Database);
      }
      if target in targets {
        targets := targets[target := Target(kind, uris)];
      }
      err := None;
      if kind == "node_group" {
        err := SyncManualNodeList(target, uris, f, fails);
      }
      if err != None {
        Rollback(saved);
      }
    }

    static lemma KeptOfMore(f: LineParser, before: seq<string>, u: string, uid: string)
      ensures Kept(f, before + [u], uid) == Kept(f, before, uid) + if Hits(f, u, uid) then [] else [u]
    {
      assert (before + [u])[..|before|] == before;
    }

    /** Whether an entry is taken for the node: the first of its parsed nodes has the UID. */
    static method IsHit(f: LineParser, u: string, uid: string) returns (hit: bool)
      ensures hit == Hits(f, u, uid)
    {
      var parsed := ParseLines(f, Lines(u));
      hit := |parsed| > 0 && parsed[0].uid == uid;
    }

    /** The loop that keeps the entries which do not start with the node. */
    static method KeepOthers(uris: seq<string>, uid: string, f: LineParser) returns (kept: seq<string>, removed: bool)
      ensures kept == Kept(f, uris, uid)
      ensures removed <==> |kept| != |uris|
    {
      kept, removed := [], false;
      var i := 0;
      while i < |uris|
        invariant 0 <= i <= |uris| && |kept| <= i
        invariant kept == Kept(f, uris[..i], uid)
        invariant removed <==> |kept| != i
      {
        assert uris[..i + 1] == uris[..i] + [uris[i]];
        KeptOfMore(f, uris[..i], uris[i], uid);
        var hit := IsHit(f, uris[i], uid);
        if hit {
          removed := true;
        } else {
          kept := kept + [uris[i]];
        }
        i := i + 1;
      }
      assert uris[..i] == uris;
    }

    /** What a deletion does before its transaction: it reads the configuration and decides what to keep. */
    method PlanFromConfig(target: nat, uid: string, f: LineParser) returns (p: Plan)
      ensures p == PlanDeletion(View(), target, uid, f)
    {
      if uid == "" {
        return Decline(UidRequired);
      }
      if target !in targets {
        return Decline(NotFound);
      }
      if targets[target].kind != "subscription" && targets[target].kind != "node_group" {
        return Decline(NotSubscriptionLike);
      }
      if targets[target].kind != "node_group" {
        return Decline(NotNodeGroup);
      }
      var kept, removed := KeepOthers(targets[target].uris, uid, f);
      p := if removed then Keep(kept) else Decline(NotInConfig);
    }

    /** The transaction of a deletion, on whatever has become of the tables since the list was read. */
    method DeleteInTransaction(target: nat, uid: string, kept: seq<string>, f: LineParser, fails: Faults)
      returns (err: Option<Error>)
      modifies this
      ensures DeleteTx(old(View()), target, uid, kept, f, fails) ==
                if err == None then Commit(View()) else Abort(err.value)
      ensures err != None ==> View() == old(View())
    {
      var saved := View();
      if fails(WriteTarget) {
        return Some(Database);
      }
      if target in targets {
        targets := targets[target := targets[target].(uris := kept)];
      }
      err := SyncManualNodeList(target, kept, f, fails);
      if err == None {
        if fails(DeleteChecks) {
          err := Some(Database);
        } else {
          checks := ChecksWithout(checks, target, uid);
        }
      }
      if err != None {
        Rollback(saved);
      }
    }

    /** The whole deletion, when nothing comes between its reading and its transaction. */
    method DeleteFromGroup(target: nat, uid: string, f: LineParser, fails: Faults) returns (r: Deletion)
      modifies this
      ensures (View(), r) == Delete(old(View()), target, uid, f, fails)
    {
      var p := PlanFromConfig(target, uid, f);
      match p
      case Decline(e) =>
        r := Refused(e);
      case Keep(kept) =>
        var err := DeleteInTransaction(target, uid, kept, f, fails);
        r := if err == None then Removed(|kept|) else Refused(err.value);
    }
  }
}
