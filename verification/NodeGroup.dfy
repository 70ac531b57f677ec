/** Manual node groups: the stored node table is an index over the configured list of URIs
    (syncManualNodeList, SubscriptionNodeDeleteFromGroup, CreateTarget, UpdateTarget, DeleteTarget in
    server/internal/service/target_service.go). */
module NodeGroup {
  import opened Text
  import opened UriList
  import opened NodeTable

  /** A target, with its node_uris as parseSubscriptionConfig reads them: trimmed and not empty. */
  datatype Target = Target(kind: string, uris: seq<string>)

  datatype Check = Check(target: nat, uid: string, success: bool, at: int)

  datatype Tables = Tables(targets: map<nat, Target>, rows: seq<Row>, checks: seq<Check>, nextId: nat)

  /** The database operations of a transaction, each of which may fail. */
  datatype Op = WriteTarget | SaveSnapshot | ReadRows | DeleteRows | InsertRows | DeleteChecks

  type Faults = Op -> bool

  datatype Error = UidRequired | NotFound | NotSubscriptionLike | NotNodeGroup | NotInConfig | NoValidNodes | Database

  /** What a transaction body comes to: the new tables, or an error that rolls everything back. */
  datatype Tx = Commit(tables: Tables) | Abort(err: Error)

  /** The part that both rebuilds share: read the old rows, delete them, insert the new ones. */
  function Replace(st: Tables, target: nat, nodes: seq<Parsed>, fails: Faults): Tx {
    if fails(ReadRows) || fails(DeleteRows) then Abort(Database)
    else if nodes != [] && fails(InsertRows) then Abort(Database)
    else Commit(st.(rows := Rebuilt(st.rows, target, nodes, st.nextId), nextId := st.nextId + |nodes|))
  }

  /** The transaction of refreshSubscriptionOnce: an empty list empties the target's table. */
  function Refresh(st: Tables, target: nat, nodes: seq<Parsed>, fails: Faults): Tx {
    if fails(SaveSnapshot) then Abort(Database) else Replace(st, target, nodes, fails)
  }

  /** syncManualNodeList: no URIs empty the target's table, URIs without a valid node are an error. */
  function Sync(st: Tables, target: nat, uris: seq<string>, f: LineParser, fails: Faults): Tx {
    if uris == [] then
      if fails(DeleteRows) then Abort(Database) else Commit(st.(rows := Others(st.rows, target)))
    else
      var nodes := ParseURIList(f, JoinLines(uris));
      if nodes == [] then Abort(NoValidNodes) else Replace(st, target, nodes, fails)
  }

  function WriteUris(st: Tables, target: nat, uris: seq<string>): Tables {
    if target in st.targets then st.(targets := st.targets[target := st.targets[target].(uris := uris)]) else st
  }

  /** Whether a configured entry is taken for the node: its first node has the UID. */
  predicate Hits(f: LineParser, entry: string, uid: string) {
    var nodes := NodesOf(f, entry);
    nodes != [] && nodes[0].uid == uid
  }

  function Kept(f: LineParser, uris: seq<string>, uid: string): seq<string> {
    if uris == [] then []
    else
      var last := uris[|uris| - 1];
      Kept(f, uris[..|uris| - 1], uid) + if Hits(f, last, uid) then [] else [last]
  }

  function ChecksWithout(checks: seq<Check>, target: nat, uid: string): seq<Check> {
    if checks == [] then []
    else
      var last := checks[|checks| - 1];
      ChecksWithout(checks[..|checks| - 1], target, uid) +
      if last.target == target && last.uid == uid then [] else [last]
  }

  /** The transaction of SubscriptionNodeDeleteFromGroup, once it knows which entries to keep. */
  function DeleteTx(st: Tables, target: nat, uid: string, kept: seq<string>, f: LineParser, fails: Faults): Tx {
    if fails(WriteTarget) then Abort(Database)
    else
      match Sync(WriteUris(st, target, kept), target, kept, f, fails)
      case Abort(e) => Abort(e)
      case Commit(st1) =>
        if fails(DeleteChecks) then Abort(Database)
        else Commit(st1.(checks := ChecksWithout(st1.checks, target, uid)))
  }

  /** What a deletion decides when it reads the configuration: the entries to keep, or a refusal. */
  datatype Plan = Keep(uris: seq<string>) | Decline(err: Error)

  /** The reading part of SubscriptionNodeDeleteFromGroup, outside any transaction, for a trimmed UID. */
  function PlanDeletion(st: Tables, target: nat, uid: string, f: LineParser): Plan {
    if uid == "" then Decline(UidRequired)
    else if target !in st.targets then Decline(NotFound)
    else
      var t := st.targets[target];
      if t.kind != "subscription" && t.kind != "node_group" then Decline(NotSubscriptionLike)
      else if t.kind != "node_group" then Decline(NotNodeGroup)
      else if |Kept(f, t.uris, uid)| == |t.uris| then Decline(NotInConfig)
      else Keep(Kept(f, t.uris, uid))
  }

  datatype Deletion = Removed(remaining: nat) | Refused(err: Error)

  /** SubscriptionNodeDeleteFromGroup with nothing between its reading part and its transaction. */
  function Delete(st: Tables, target: nat, uid: string, f: LineParser, fails: Faults): (Tables, Deletion) {
    match PlanDeletion(st, target, uid, f)
    case Decline(e) => (st, Refused(e))
    case Keep(kept) =>
      match DeleteTx(st, target, uid, kept, f, fails)
      case Abort(e) => (st, Refused(e))
      case Commit(st') => (st', Removed(|kept|))
  }

  function WriteConfig(st: Tables, target: nat, kind: string, uris: seq<string>): Tables {
    if target in st.targets then st.(targets := st.targets[target := Target(kind, uris)]) else st
  }

  /** UpdateTarget, which may change the kind; uris is the new list as parseSubscriptionConfig reads it. */
  function Update(st: Tables, target: nat, kind: string, uris: seq<string>, f: LineParser, fails: Faults): Tx {
    if fails(WriteTarget) then Abort(Database)
    else if kind == "node_group" then Sync(WriteConfig(st, target, kind, uris), target, uris, f, fails)
    else Commit(WriteConfig(st, target, kind, uris))
  }

  /** CreateTarget: the database refuses an id that is taken; a node group gets its table at once. */
  function Create(st: Tables, target: nat, kind: string, uris: seq<string>, f: LineParser, fails: Faults): Tx {
    if fails(WriteTarget) || target in st.targets then Abort(Database)
    else
      var st' := st.(targets := st.targets[target := Target(kind, uris)]);
      if kind == "node_group" then Sync(st', target, uris, f, fails) else Commit(st')
  }

  /** DeleteTarget removes the target alone; its rows stay. */
  function Drop(st: Tables, target: nat, fails: Faults): Tx {
    if fails(WriteTarget) then Abort(Database) else Commit(st.(targets := st.targets - {target}))
  }

  /** A probe's measurements, written to the row with this id. */
  function StoreProbe(st: Tables, id: nat, m: Measures): Tables {
    st.(rows := Measured(st.rows, id, m))
  }

  function Measured(rows: seq<Row>, id: nat, m: Measures): (r: seq<Row>)
    ensures |r| == |rows|
  {
    seq(|rows|, k requires 0 <= k < |rows| => if rows[k].id == id then rows[k].(measures := m) else rows[k])
  }

  // ----- The table agrees with the list -----

  function NodesIn(rows: seq<Row>): (r: seq<Parsed>)
    ensures |r| == |rows|
  {
    seq(|rows|, k requires 0 <= k < |rows| => rows[k].node)
  }

  /** The rows of the target are the nodes of its configured list, in order. */
  ghost predicate InSync(st: Tables, target: nat, f: LineParser) {
    target in st.targets &&
    NodesIn(Of(st.rows, target)) == Renumber(NodesOfAll(f, st.targets[target].uris))
  }

  lemma RowsForNodes(target: nat, nodes: seq<Parsed>, prev: seq<Row>, firstId: nat)
    ensures NodesIn(RowsFor(target, nodes, prev, firstId)) == nodes
  {
  }

  /** A committed sync leaves exactly the nodes of the list, numbered in order. */
  lemma SyncIsExact(st: Tables, target: nat, uris: seq<string>, f: LineParser, fails: Faults, other: nat)
    requires f("") == None
    requires Sync(st, target, uris, f, fails).Commit?
    ensures var st' := Sync(st, target, uris, f, fails).tables;
            && Of(st'.rows, target) == RowsFor(target, Renumber(NodesOfAll(f, uris)), Of(st.rows, target), st.nextId)
            && (other != target ==> Of(st'.rows, other) == Of(st.rows, other))
            && st'.targets == st.targets && st'.checks == st.checks
  {
    if uris == [] {
      OthersHasNone(st.rows, target, other);
      assert Renumber(NodesOfAll(f, uris)) == [];
    } else {
      ParseOfJoined(f, uris);
      RebuildIsExact(st.rows, target, Renumber(NodesOfAll(f, uris)), st.nextId, other);
    }
  }

  /** The two rebuilds produce the same table for the same parsed list, and a failed one produces none. */
  lemma RebuildsAgree(st: Tables, target: nat, uris: seq<string>, f: LineParser, fails: Faults)
    requires uris != []
    ensures var nodes := ParseURIList(f, JoinLines(uris));
            && (nodes != [] && !fails(SaveSnapshot) ==>
                  Sync(st, target, uris, f, fails) == Refresh(st, target, nodes, fails))
            && (nodes == [] ==> Sync(st, target, uris, f, fails) == Abort(NoValidNodes))
  {
  }

  /** A committed refresh leaves exactly the parsed nodes in the target's table, and no other table touched. */
  lemma {:induction false} RefreshIsExact(st: Tables, target: nat, nodes: seq<Parsed>, fails: Faults, other: nat)
    requires Refresh(st, target, nodes, fails).Commit?
    ensures var st' := Refresh(st, target, nodes, fails).tables;
            && Of(st'.rows, target) == RowsFor(target, nodes, Of(st.rows, target), st.nextId)
            && (other != target ==> Of(st'.rows, other) == Of(st.rows, other))
            && st'.targets == st.targets && st'.checks == st.checks
  {
    RebuildIsExact(st.rows, target, nodes, st.nextId, other);
  }

  /** A committed update to a node group leaves the table in agreement with the new list. */
  lemma UpdateSyncs(st: Tables, target: nat, uris: seq<string>, f: LineParser, fails: Faults)
    requires f("") == None && target in st.targets
    requires Update(st, target, "node_group", uris, f, fails).Commit?
    ensures InSync(Update(st, target, "node_group", uris, f, fails).tables, target, f)
    ensures Update(st, target, "node_group", uris, f, fails).tables.targets ==
              st.targets[target := Target("node_group", uris)]
  {
    SyncIsExact(WriteConfig(st, target, "node_group", uris), target, uris, f, fails, target);
    RowsForNodes(target, Renumber(NodesOfAll(f, uris)), Of(st.rows, target), st.nextId);
  }

  /** Measuring changes no node. */
  lemma {:induction false} MeasuringKeepsNodes(rows: seq<Row>, id: nat, m: Measures, target: nat)
    ensures NodesIn(Of(Measured(rows, id, m), target)) == NodesIn(Of(rows, target))
  {
    if rows != [] {
      var n := |rows| - 1;
      var all := Measured(rows, id, m);
      assert all[..n] == Measured(rows[..n], id, m);
      MeasuringKeepsNodes(rows[..n], id, m, target);
      assert all[n].node == rows[n].node && all[n].target == rows[n].target;
      assert NodesIn(Of(all, target)) ==
             NodesIn(Of(all[..n], target)) + if rows[n].target == target then [rows[n].node] else [];
      assert NodesIn(Of(rows, target)) ==
             NodesIn(Of(rows[..n], target)) + if rows[n].target == target then [rows[n].node] else [];
    }
  }

  // ----- Deleting a node -----

  lemma {:induction false} KeptIsShorter(f: LineParser, uris: seq<string>, uid: string)
    ensures |Kept(f, uris, uid)| <= |uris|
    ensures |Kept(f, uris, uid)| == |uris| <==> forall u :: u in uris ==> !Hits(f, u, uid)
    ensures forall u :: u in Kept(f, uris, uid) <==> u in uris && !Hits(f, u, uid)
  {
    if uris != [] {
      var before, last := uris[..|uris| - 1], uris[|uris| - 1];
      KeptIsShorter(f, before, uid);
      assert uris == before + [last];
    }
  }

  /** What the transaction of a deletion leaves behind, whatever list was read for it and whenever. */
  lemma {:induction false} DeleteTxIsExact(
    st: Tables, target: nat, uid: string, kept: seq<string>, f: LineParser, fails: Faults, other: nat)
    requires f("") == None
    requires DeleteTx(st, target, uid, kept, f, fails).Commit?
    ensures var st' := DeleteTx(st, target, uid, kept, f, fails).tables;
            && Of(st'.rows, target) == RowsFor(target, Renumber(NodesOfAll(f, kept)), Of(st.rows, target), st.nextId)
            && NodesIn(Of(st'.rows, target)) == Renumber(NodesOfAll(f, kept))
            && (other != target ==> Of(st'.rows, other) == Of(st.rows, other))
            && st'.targets == WriteUris(st, target, kept).targets
            && st'.checks == ChecksWithout(st.checks, target, uid)
  {
    SyncIsExact(WriteUris(st, target, kept), target, kept, f, fails, other);
    RowsForNodes(target, Renumber(NodesOfAll(f, kept)), Of(st.rows, target), st.nextId);
  }

  /** Main result: when a deletion succeeds the stored rows are the nodes of the entries that do not start
      with the node, renumbered; they keep the measurements known for their UID; the checks of the node
      are gone; everything else is as it was. */
  lemma {:induction false} DeleteIsExact(st: Tables, target: nat, uid: string, f: LineParser, fails: Faults, other: nat)
    requires f("") == None
    requires Delete(st, target, uid, f, fails).1.Removed?
    ensures var (st', r) := Delete(st, target, uid, f, fails);
            var kept := Kept(f, st.targets[target].uris, uid);
            && Of(st'.rows, target) == RowsFor(target, Renumber(NodesOfAll(f, kept)), Of(st.rows, target), st.nextId)
            && (other != target ==> Of(st'.rows, other) == Of(st.rows, other))
            && st'.targets == st.targets[target := st.targets[target].(uris := kept)]
            && st'.checks == ChecksWithout(st.checks, target, uid)
            && r.remaining == |kept|
            && InSync(st', target, f)
  {
    DeleteTxIsExact(st, target, uid, Kept(f, st.targets[target].uris, uid), f, fails, other);
  }

  /** Main result: exactly when a deletion succeeds; otherwise nothing at all has changed. In particular a
      node cannot be deleted while what remains of the list is not empty but holds no valid node. */
  lemma {:induction false} DeleteSucceedsIff(st: Tables, target: nat, uid: string, f: LineParser, fails: Faults)
    requires f("") == None
    ensures var (st', r) := Delete(st, target, uid, f, fails);
            && (r.Refused? ==> st' == st)
            && (r.Removed? <==>
                  && uid != "" && target in st.targets && st.targets[target].kind == "node_group"
                  && (exists u :: u in st.targets[target].uris && Hits(f, u, uid))
                  && !fails(WriteTarget) && !fails(DeleteRows) && !fails(DeleteChecks)
                  && var kept := Kept(f, st.targets[target].uris, uid);
                     (kept == [] || (NodesOfAll(f, kept) != [] && !fails(ReadRows) && !fails(InsertRows))))
  {
    if target in st.targets {
      var kept := Kept(f, st.targets[target].uris, uid);
      KeptIsShorter(f, st.targets[target].uris, uid);
      ParseOfJoined(f, kept);
    }
  }

  lemma {:induction false} ChecksAreGone(checks: seq<Check>, target: nat, uid: string)
    ensures forall c :: c in ChecksWithout(checks, target, uid) <==>
              c in checks && !(c.target == target && c.uid == uid)
  {
    if checks != [] {
      var before, last := checks[..|checks| - 1], checks[|checks| - 1];
      ChecksAreGone(before, target, uid);
      assert checks == before + [last];
    }
  }

  // ----- Does the node disappear? -----

  /** Entry u holds a node with this UID behind its first one. */
  ghost predicate Hides(f: LineParser, u: string, uid: string) {
    exists j :: 1 <= j < |NodesOf(f, u)| && NodesOf(f, u)[j].uid == uid
  }

  predicate HasUid(nodes: seq<Parsed>, uid: string) {
    exists k :: 0 <= k < |nodes| && nodes[k].uid == uid
  }

  lemma HasUidConcat(a: seq<Parsed>, b: seq<Parsed>, uid: string)
    ensures HasUid(a + b, uid) <==> HasUid(a, uid) || HasUid(b, uid)
  {
    if HasUid(a, uid) {
      var k :| 0 <= k < |a| && a[k].uid == uid;
      assert (a + b)[k].uid == uid;
    }
    if HasUid(b, uid) {
      var k :| 0 <= k < |b| && b[k].uid == uid;
      assert (a + b)[|a| + k].uid == uid;
    }
  }

  lemma {:induction false} NodesOfAllHave(f: LineParser, uris: seq<string>, uid: string)
    ensures HasUid(NodesOfAll(f, uris), uid) <==> exists u :: u in uris && HasUid(NodesOf(f, u), uid)
  {
    if uris != [] {
      NodesOfAllHave(f, uris[1..], uid);
      HasUidConcat(NodesOf(f, uris[0]), NodesOfAll(f, uris[1..]), uid);
      assert uris == [uris[0]] + uris[1..];
    }
  }

  lemma HidesOrHits(f: LineParser, u: string, uid: string)
    ensures HasUid(NodesOf(f, u), uid) <==> Hits(f, u, uid) || Hides(f, u, uid)
  {
    var nodes := NodesOf(f, u);
    if HasUid(nodes, uid) {
      var k :| 0 <= k < |nodes| && nodes[k].uid == uid;
      assert k == 0 ==> Hits(f, u, uid);
    }
    if Hits(f, u, uid) {
      assert nodes[0].uid == uid;
    }
  }

  lemma RenumberKeepsUids(nodes: seq<Parsed>, uid: string)
    ensures HasUid(Renumber(nodes), uid) <==> HasUid(nodes, uid)
  {
    var r := Renumber(nodes);
    assert forall k :: 0 <= k < |nodes| ==> r[k].uid == nodes[k].uid;
    if HasUid(nodes, uid) {
      var k :| 0 <= k < |nodes| && nodes[k].uid == uid;
      assert r[k].uid == uid;
    }
  }

  /** Main result: a deletion writes back what it read. After its transaction, however much later, a node is in the
      table exactly when an entry that was read and does not start with the deleted node holds it; so a node that
      was deleted in between comes back exactly when an entry read before still holds it. */
  lemma {:induction false} NodeReturnsIff(
    st: Tables, target: nat, uid: string, read: seq<string>, other: string, f: LineParser, fails: Faults)
    requires f("") == None
    requires DeleteTx(st, target, uid, Kept(f, read, uid), f, fails).Commit?
    ensures var rows := Of(DeleteTx(st, target, uid, Kept(f, read, uid), f, fails).tables.rows, target);
            HasUid(NodesIn(rows), other) <==> exists u :: u in read && !Hits(f, u, uid) && HasUid(NodesOf(f, u), other)
  {
    var kept := Kept(f, read, uid);
    DeleteTxIsExact(st, target, uid, kept, f, fails, target);
    KeptIsShorter(f, read, uid);
    NodesOfAllHave(f, kept, other);
    RenumberKeepsUids(NodesOfAll(f, kept), other);
  }

  /** Main result: after a successful deletion a row with the UID remains exactly when some entry that
      does not start with the node holds it further down. */
  lemma RowRemainsIffHidden(st: Tables, target: nat, uid: string, f: LineParser, fails: Faults)
    requires f("") == None
    requires Delete(st, target, uid, f, fails).1.Removed?
    ensures var rows := Of(Delete(st, target, uid, f, fails).0.rows, target);
            HasUid(NodesIn(rows), uid) <==>
              exists u :: u in st.targets[target].uris && !Hits(f, u, uid) && Hides(f, u, uid)
  {
    var uris := st.targets[target].uris;
    NodeReturnsIff(st, target, uid, uris, uid, f, fails);
    forall u | u in uris && !Hits(f, u, uid) ensures HasUid(NodesOf(f, u), uid) <==> Hides(f, u, uid) {
      HidesOrHits(f, u, uid);
    }
  }

  // ----- Entries of one line -----

  function Without(nodes: seq<Parsed>, uid: string): seq<Parsed> {
    if nodes == [] then []
    else
      var last := nodes[|nodes| - 1];
      Without(nodes[..|nodes| - 1], uid) + if last.uid == uid then [] else [last]
  }

  lemma {:induction false} WithoutConcat(a: seq<Parsed>, b: seq<Parsed>, uid: string)
    ensures Without(a + b, uid) == Without(a, uid) + Without(b, uid)
  {
    if b == [] {
      assert a + b == a;
    } else {
      var n := |b| - 1;
      assert (a + b)[..|a + b| - 1] == a + b[..n];
      WithoutConcat(a, b[..n], uid);
    }
  }

  lemma {:induction false} NodesOfAllConcat(f: LineParser, a: seq<string>, b: seq<string>)
    ensures NodesOfAll(f, a + b) == NodesOfAll(f, a) + NodesOfAll(f, b)
  {
    if a == [] {
      assert a + b == b;
    } else {
      assert (a + b)[1..] == a[1..] + b;
      NodesOfAllConcat(f, a[1..], b);
    }
  }

  lemma NodesOfSingle(f: LineParser, u: string)
    ensures NodesOfAll(f, [u]) == NodesOf(f, u)
  {
    assert [u][1..] == [];
  }

  lemma SingleWithout(f: LineParser, u: string, uid: string)
    requires |NodesOf(f, u)| <= 1
    ensures Without(NodesOf(f, u), uid) == if Hits(f, u, uid) then [] else NodesOf(f, u)
  {
    var nodes := NodesOf(f, u);
    if |nodes| == 1 {
      assert nodes[..0] == [] && nodes == [nodes[0]];
    }
  }

  /** Keeping the entries that do not start with the node is removing the node from the parsed list. */
  lemma {:induction false} KeptIsWithout(f: LineParser, uris: seq<string>, uid: string)
    requires forall u :: u in uris ==> |NodesOf(f, u)| <= 1
    ensures NodesOfAll(f, Kept(f, uris, uid)) == Without(NodesOfAll(f, uris), uid)
  {
    if uris != [] {
      var before, last := uris[..|uris| - 1], uris[|uris| - 1];
      assert uris == before + [last];
      KeptIsWithout(f, before, uid);
      NodesOfAllConcat(f, before, [last]);
      NodesOfSingle(f, last);
      WithoutConcat(NodesOfAll(f, before), NodesOf(f, last), uid);
      SingleWithout(f, last, uid);
      NodesOfAllConcat(f, Kept(f, before, uid), if Hits(f, last, uid) then [] else [last]);
    }
  }

  /** Main result: deleting commutes with resync. For entries of one line each, the rows after a successful
      deletion are the nodes of the old list without that UID, renumbered; no row and no check has it any more. */
  lemma DeleteCommutesWithResync(st: Tables, target: nat, uid: string, f: LineParser, fails: Faults)
    requires f("") == None
    requires Delete(st, target, uid, f, fails).1.Removed?
    requires forall u :: u in st.targets[target].uris ==> '\n' !in u
    ensures var st' := Delete(st, target, uid, f, fails).0;
            var left := Without(NodesOfAll(f, st.targets[target].uris), uid);
            && Of(st'.rows, target) == RowsFor(target, Renumber(left), Of(st.rows, target), st.nextId)
            && !HasUid(NodesIn(Of(st'.rows, target)), uid)
            && forall c :: c in st'.checks <==> c in st.checks && !(c.target == target && c.uid == uid)
  {
    var uris := st.targets[target].uris;
    ChecksAreGone(st.checks, target, uid);
    forall u | u in uris ensures |NodesOf(f, u)| <= 1 && !Hides(f, u, uid) {
      OneLineOneNode(f, u);
    }
    DeleteIsExact(st, target, uid, f, fails, target);
    KeptIsWithout(f, uris, uid);
    RowRemainsIffHidden(st, target, uid, f, fails);
  }

  /** A parser that knows the two lines "a" and "b". */
  function KnowsTwo(a: Parsed, b: Parsed): LineParser {
    line => if line == "a" then Some(a) else if line == "b" then Some(b) else None
  }

  lemma TwoLines(a: Parsed, b: Parsed)
    ensures NodesOf(KnowsTwo(a, b), "a\nb") == [a, b] && NodesOf(KnowsTwo(a, b), "b") == [b]
  {
    LinesOfLine("a");
    LinesOfLine("b");
    LinesOfJoin("a", "b");
    assert "a" + ("\n" + "b") == "a\nb";
    var two := ["a", "b"];
    assert Lines("a\nb") == two;
    assert "a"[0] != "b"[0];
    TwoNodes(KnowsTwo(a, b), a, b);
  }

  lemma TwoNodes(f: LineParser, a: Parsed, b: Parsed)
    requires f("a") == Some(a) && f("b") == Some(b)
    ensures NodesOfLines(f, ["a", "b"]) == [a, b] && NodesOfLines(f, ["b"]) == [b]
  {
    var two := ["a", "b"];
    assert two[..1] == ["a"] && two[..1][..0] == [] && ["b"][..0] == [];
    assert NodesOfLines(f, ["a"]) == [a];
  }

  lemma TwoLinesAreKept(a: Parsed, b: Parsed)
    requires a.uid == "a" && b.uid == "b"
    ensures var f := KnowsTwo(a, b);
            && Kept(f, ["a\nb", "b"], "b") == ["a\nb"]
            && Hits(f, "b", "b") && !Hits(f, "a\nb", "b") && Hides(f, "a\nb", "b")
  {
    var f := KnowsTwo(a, b);
    TwoLines(a, b);
    var uris := ["a\nb", "b"];
    assert uris[..1] == ["a\nb"] && uris[..1][..0] == [];
    assert NodesOf(f, "a\nb")[1].uid == "b";
    assert Hides(f, "a\nb", "b");
  }

  /** The restriction to one line is needed: an entry of two lines keeps a node that another entry starts with. */
  lemma TwoLinesKeepTheNode(a: Parsed, b: Parsed, st: Tables, target: nat, fails: Faults)
    requires a.uid == "a" && b.uid == "b"
    requires target in st.targets && st.targets[target] == Target("node_group", ["a\nb", "b"])
    requires forall op :: !fails(op)
    ensures var (st', r) := Delete(st, target, "b", KnowsTwo(a, b), fails);
            r == Removed(1) && HasUid(NodesIn(Of(st'.rows, target)), "b")
  {
    var f := KnowsTwo(a, b);
    TwoLines(a, b);
    TwoLinesAreKept(a, b);
    NodesOfSingle(f, "a\nb");
    assert "b" in st.targets[target].uris && "a\nb" in st.targets[target].uris;
    DeleteSucceedsIff(st, target, "b", f, fails);
    RowRemainsIffHidden(st, target, "b", f, fails);
  }

  // ----- Histories -----

  /** What happens to the tables. A deletion carries the list that its reading part kept, at that time or earlier; a
      refresh carries what it fetched, whatever has become of the target meanwhile. */
  datatype Action =
    | AddTarget(target: nat, kind: string, uris: seq<string>, fails: Faults)
    | SetTarget(target: nat, kind: string, uris: seq<string>, fails: Faults)
    | DropTarget(target: nat, fails: Faults)
    | CommitDeletion(target: nat, uid: string, kept: seq<string>, fails: Faults)
    | RefreshTable(target: nat, nodes: seq<Parsed>, fails: Faults)
    | Measure(id: nat, measures: Measures)

  function TxOf(st: Tables, a: Action, f: LineParser): Tx {
    match a
    case AddTarget(target, kind, uris, fails) => Create(st, target, kind, uris, f, fails)
    case SetTarget(target, kind, uris, fails) => Update(st, target, kind, uris, f, fails)
    case DropTarget(target, fails) => Drop(st, target, fails)
    case CommitDeletion(target, uid, kept, fails) => DeleteTx(st, target, uid, kept, f, fails)
    case RefreshTable(target, nodes, fails) => Refresh(st, target, nodes, fails)
    case Measure(id, m) => Commit(StoreProbe(st, id, m))
  }

  function Act(st: Tables, a: Action, f: LineParser): Tables {
    match TxOf(st, a, f)
    case Commit(st') => st'
    case Abort(_) => st
  }

  function ActAll(st: Tables, actions: seq<Action>, f: LineParser): Tables {
    if actions == [] then st else Act(ActAll(st, actions[..|actions| - 1], f), actions[|actions| - 1], f)
  }

  /** A deletion whose transaction follows its reading at once acts as Delete. */
  lemma PromptDeletion(st: Tables, target: nat, uid: string, f: LineParser, fails: Faults)
    requires PlanDeletion(st, target, uid, f).Keep?
    ensures Act(st, CommitDeletion(target, uid, PlanDeletion(st, target, uid, f).uris, fails), f) ==
            Delete(st, target, uid, f, fails).0
  {
  }

  predicate IsGroup(st: Tables, target: nat) {
    target in st.targets && st.targets[target].kind == "node_group"
  }

  /** While the target is a node group, its table agrees with its list. */
  ghost predicate GroupInSync(st: Tables, target: nat, f: LineParser) {
    IsGroup(st, target) ==> InSync(st, target, f)
  }

  /** Whether the action syncs the group's table with a list. */
  predicate Syncs(a: Action, group: nat) {
    match a
    case AddTarget(target, kind, _, _) => target == group && kind == "node_group"
    case SetTarget(target, kind, _, _) => target == group && kind == "node_group"
    case CommitDeletion(target, _, _, _) => target == group
    case DropTarget(_, _) => false
    case RefreshTable(_, _, _) => false
    case Measure(_, _) => false
  }

  /** What an action makes of the overlay: the nodes of a refresh that lie over the group's list. */
  function Overlay(st: Tables, a: Action, group: nat, f: LineParser, before: Option<seq<Parsed>>): Option<seq<Parsed>> {
    if TxOf(st, a, f).Abort? then before
    else if Syncs(a, group) then None
    else if a.RefreshTable? && a.target == group then Some(a.nodes)
    else before
  }

  /** The nodes of the last committed refresh of the group since its table was last synced. */
  function Overlaid(st: Tables, actions: seq<Action>, group: nat, f: LineParser): Option<seq<Parsed>> {
    if actions == [] then None
    else
      var before := actions[..|actions| - 1];
      Overlay(ActAll(st, before, f), actions[|actions| - 1], group, f, Overlaid(st, before, group, f))
  }

  /** A group's table holds the nodes of the overlay, or else those of its list. */
  ghost predicate TableIs(st: Tables, group: nat, f: LineParser, overlay: Option<seq<Parsed>>) {
    IsGroup(st, group) ==>
      NodesIn(Of(st.rows, group)) ==
        match overlay
        case None => Renumber(NodesOfAll(f, st.targets[group].uris))
        case Some(nodes) => nodes
  }

  lemma {:induction false} CreateKeepsTable(st: Tables, a: Action, group: nat, f: LineParser, o: Option<seq<Parsed>>)
    requires f("") == None && TableIs(st, group, f, o)
    requires a.AddTarget? && TxOf(st, a, f).Commit?
    ensures TableIs(Act(st, a, f), group, f, Overlay(st, a, group, f, o))
  {
    if a.kind == "node_group" {
      var st' := st.(targets := st.targets[a.target := Target(a.kind, a.uris)]);
      SyncIsExact(st', a.target, a.uris, f, a.fails, group);
      RowsForNodes(a.target, Renumber(NodesOfAll(f, a.uris)), Of(st.rows, a.target), st.nextId);
    }
  }

  lemma {:induction false} UpdateKeepsTable(st: Tables, a: Action, group: nat, f: LineParser, o: Option<seq<Parsed>>)
    requires f("") == None && TableIs(st, group, f, o)
    requires a.SetTarget? && TxOf(st, a, f).Commit?
    ensures TableIs(Act(st, a, f), group, f, Overlay(st, a, group, f, o))
  {
    if a.kind == "node_group" {
      if a.target == group && group in st.targets {
        UpdateSyncs(st, group, a.uris, f, a.fails);
      } else {
        SyncIsExact(WriteConfig(st, a.target, a.kind, a.uris), a.target, a.uris, f, a.fails, group);
      }
    }
  }

  lemma {:induction false} DeletionKeepsTable(st: Tables, a: Action, group: nat, f: LineParser, o: Option<seq<Parsed>>)
    requires f("") == None && TableIs(st, group, f, o)
    requires a.CommitDeletion? && TxOf(st, a, f).Commit?
    ensures TableIs(Act(st, a, f), group, f, Overlay(st, a, group, f, o))
  {
    DeleteTxIsExact(st, a.target, a.uid, a.kept, f, a.fails, group);
  }

  lemma {:induction false} RefreshKeepsTable(st: Tables, a: Action, group: nat, f: LineParser, o: Option<seq<Parsed>>)
    requires f("") == None && TableIs(st, group, f, o)
    requires a.RefreshTable? && TxOf(st, a, f).Commit?
    ensures TableIs(Act(st, a, f), group, f, Overlay(st, a, group, f, o))
  {
    RefreshIsExact(st, a.target, a.nodes, a.fails, group);
    RowsForNodes(a.target, a.nodes, Of(st.rows, a.target), st.nextId);
  }

  lemma {:induction false} ActKeepsTable(st: Tables, a: Action, group: nat, f: LineParser, o: Option<seq<Parsed>>)
    requires f("") == None && TableIs(st, group, f, o)
    ensures TableIs(Act(st, a, f), group, f, Overlay(st, a, group, f, o))
  {
    if TxOf(st, a, f).Commit? {
      match a
      case AddTarget(_, _, _, _) => CreateKeepsTable(st, a, group, f, o);
      case SetTarget(_, _, _, _) => UpdateKeepsTable(st, a, group, f, o);
      case DropTarget(_, _) =>
      case CommitDeletion(_, _, _, _) => DeletionKeepsTable(st, a, group, f, o);
      case RefreshTable(_, _, _) => RefreshKeepsTable(st, a, group, f, o);
      case Measure(id, m) => MeasuringKeepsNodes(st.rows, id, m, group);
    }
  }

  lemma {:induction false} HistoryKeepsTable(st: Tables, actions: seq<Action>, group: nat, f: LineParser)
    requires f("") == None && GroupInSync(st, group, f)
    ensures TableIs(ActAll(st, actions, f), group, f, Overlaid(st, actions, group, f))
  {
    if actions != [] {
      var before := actions[..|actions| - 1];
      HistoryKeepsTable(st, before, group, f);
      ActKeepsTable(ActAll(st, before, f), actions[|actions| - 1], group, f, Overlaid(st, before, group, f));
    }
  }

  /** Main result: through any history of creations, edits, also of the kind, removals, deletions whose list was read
      at any time, refreshes of any target, probes and failed transactions, while a target is a node group its
      stored rows are the nodes of its configured list, in order, exactly when no refresh has committed on it
      since its last sync, or the last one fetched just these nodes. */
  lemma {:induction false} GroupInSyncIff(st: Tables, actions: seq<Action>, group: nat, f: LineParser)
    requires f("") == None && GroupInSync(st, group, f)
    ensures var end, over := ActAll(st, actions, f), Overlaid(st, actions, group, f);
            IsGroup(end, group) ==>
              (InSync(end, group, f) <==>
                over == None || over == Some(Renumber(NodesOfAll(f, end.targets[group].uris))))
  {
    HistoryKeepsTable(st, actions, group, f);
  }

  // ----- What commits -----

  /** Exactly when a refresh commits; an empty list needs no insertion. */
  lemma {:induction false} RefreshCommitsIff(st: Tables, target: nat, nodes: seq<Parsed>, fails: Faults)
    ensures Refresh(st, target, nodes, fails).Commit? <==>
              !fails(SaveSnapshot) && !fails(ReadRows) && !fails(DeleteRows) && (nodes != [] ==> !fails(InsertRows))
    ensures Refresh(st, target, nodes, fails).Abort? ==> Refresh(st, target, nodes, fails).err == Database
  {
  }

  /** Exactly when a sync commits: a list must be empty or hold a valid node. */
  lemma {:induction false} SyncCommitsIff(st: Tables, target: nat, uris: seq<string>, f: LineParser, fails: Faults)
    requires f("") == None
    ensures Sync(st, target, uris, f, fails).Commit? <==>
              !fails(DeleteRows) &&
              (uris != [] ==> NodesOfAll(f, uris) != [] && !fails(ReadRows) && !fails(InsertRows))
    ensures Sync(st, target, uris, f, fails).Abort? ==>
              Sync(st, target, uris, f, fails).err ==
              if uris != [] && NodesOfAll(f, uris) == [] then NoValidNodes else Database
  {
    ParseOfJoined(f, uris);
  }

  /** Main result: what every edit of a target comes to. An update or a creation commits exactly when its target can be
      written and, for a group, its list synced; it leaves the target as given and all others alone. A creation never
      takes the place of a target, a removal removes one target and no row. */
  lemma {:induction false} EditsAreExact(st: Tables, a: Action, f: LineParser, other: nat)
    requires f("") == None && (a.AddTarget? || a.SetTarget? || a.DropTarget?) && other != a.target
    ensures var tx := TxOf(st, a, f);
            && (tx.Commit? <==>
                  && !a.fails(WriteTarget) && (a.AddTarget? ==> a.target !in st.targets)
                  && (!a.DropTarget? && a.kind == "node_group" ==>
                        !a.fails(DeleteRows) &&
                        (a.uris != [] ==> NodesOfAll(f, a.uris) != [] && !a.fails(ReadRows) && !a.fails(InsertRows))))
            && (tx.Commit? ==>
                  && tx.tables.checks == st.checks
                  && (other in tx.tables.targets <==> other in st.targets)
                  && (other in st.targets ==> tx.tables.targets[other] == st.targets[other])
                  && (a.target in tx.tables.targets <==> a.AddTarget? || (a.SetTarget? && a.target in st.targets))
                  && (a.target in tx.tables.targets ==> tx.tables.targets[a.target] == Target(a.kind, a.uris))
                  && Of(tx.tables.rows, other) == Of(st.rows, other)
                  && (a.DropTarget? || a.kind != "node_group" ==> tx.tables.rows == st.rows))
  {
    if !a.DropTarget? && a.kind == "node_group" {
      var st' := if a.AddTarget? then st.(targets := st.targets[a.target := Target(a.kind, a.uris)])
                 else WriteConfig(st, a.target, a.kind, a.uris);
      SyncCommitsIff(st', a.target, a.uris, f, a.fails);
      if Sync(st', a.target, a.uris, f, a.fails).Commit? {
        SyncIsExact(st', a.target, a.uris, f, a.fails, other);
      }
    }
  }

  // ----- Row ids -----

  /** No two rows have the same id, and no row has one that is still to be given. */
  ghost predicate IdsAreUnique(st: Tables) {
    && (forall i :: 0 <= i < |st.rows| ==> st.rows[i].id < st.nextId)
    && forall i, j :: 0 <= i < j < |st.rows| ==> st.rows[i].id != st.rows[j].id
  }

  lemma {:induction false} OthersAreSome(rows: seq<Row>, target: nat)
    requires forall i, j :: 0 <= i < j < |rows| ==> rows[i].id != rows[j].id
    ensures var rest := Others(rows, target);
            && (forall r :: r in rest ==> r in rows)
            && forall i, j :: 0 <= i < j < |rest| ==> rest[i].id != rest[j].id
  {
    if rows != [] {
      var n := |rows| - 1;
      OthersAreSome(rows[..n], target);
      assert forall r :: r in rows[..n] ==> r in rows && r.id != rows[n].id;
    }
  }

  lemma {:induction false} OthersKeepIds(st: Tables, target: nat)
    requires IdsAreUnique(st)
    ensures IdsAreUnique(st.(rows := Others(st.rows, target)))
  {
    var rest := Others(st.rows, target);
    OthersAreSome(st.rows, target);
    forall i | 0 <= i < |rest| ensures rest[i].id < st.nextId {
      assert rest[i] in rest && rest[i] in st.rows;
      var k :| 0 <= k < |st.rows| && st.rows[k] == rest[i];
    }
  }

  lemma {:induction false} ReplaceKeepsIds(st: Tables, target: nat, nodes: seq<Parsed>, fails: Faults)
    requires IdsAreUnique(st) && Replace(st, target, nodes, fails).Commit?
    ensures IdsAreUnique(Replace(st, target, nodes, fails).tables)
  {
    OthersKeepIds(st, target);
    var made := RowsFor(target, nodes, Of(st.rows, target), st.nextId);
    assert forall i :: 0 <= i < |made| ==> made[i].id == st.nextId + i;
  }

  lemma {:induction false} SyncKeepsIds(st: Tables, target: nat, uris: seq<string>, f: LineParser, fails: Faults)
    requires IdsAreUnique(st) && Sync(st, target, uris, f, fails).Commit?
    ensures IdsAreUnique(Sync(st, target, uris, f, fails).tables)
  {
    if uris == [] {
      OthersKeepIds(st, target);
    } else {
      ReplaceKeepsIds(st, target, ParseURIList(f, JoinLines(uris)), fails);
    }
  }

  lemma {:induction false} ActKeepsIds(st: Tables, a: Action, f: LineParser)
    requires IdsAreUnique(st)
    ensures IdsAreUnique(Act(st, a, f))
  {
    if TxOf(st, a, f).Commit? {
      match a
      case AddTarget(t, kind, uris, fails) =>
        if kind == "node_group" {
          SyncKeepsIds(st.(targets := st.targets[t := Target(kind, uris)]), t, uris, f, fails);
        }
      case SetTarget(t, kind, uris, fails) =>
        if kind == "node_group" {
          SyncKeepsIds(WriteConfig(st, t, kind, uris), t, uris, f, fails);
        }
      case CommitDeletion(t, _, kept, fails) => SyncKeepsIds(WriteUris(st, t, kept), t, kept, f, fails);
      case RefreshTable(t, nodes, fails) => ReplaceKeepsIds(st, t, nodes, fails);
      case DropTarget(_, _) =>
      case Measure(_, _) =>
    }
  }

  /** Main result: through every history row ids stay unique, so that a probe never writes to the row of another
      node. */
  lemma {:induction false} IdsStayUnique(st: Tables, actions: seq<Action>, f: LineParser)
    requires IdsAreUnique(st)
    ensures IdsAreUnique(ActAll(st, actions, f))
  {
    if actions != [] {
      var n := |actions| - 1;
      IdsStayUnique(st, actions[..n], f);
      ActKeepsIds(ActAll(st, actions[..n], f), actions[n], f);
    }
  }

  // ----- The order of the rows -----

  /** The order of the nodes is the one that they are numbered in, as it is after parsing a list of URIs or of proxies,
      where entries that were passed over leave gaps. */
  ghost predicate IsInOrder(nodes: seq<Parsed>) {
    forall i, j :: 0 <= i < j < |nodes| ==> nodes[i].order < nodes[j].order
  }

  lemma {:induction false} ReplaceNumbers(st: Tables, target: nat, nodes: seq<Parsed>, fails: Faults, other: nat)
    requires Replace(st, target, nodes, fails).Commit?
    ensures var st' := Replace(st, target, nodes, fails).tables;
            && NodesIn(Of(st'.rows, target)) == nodes
            && (other != target ==> Of(st'.rows, other) == Of(st.rows, other))
  {
    RebuildIsExact(st.rows, target, nodes, st.nextId, other);
    RowsForNodes(target, nodes, Of(st.rows, target), st.nextId);
  }

  /** The rows of a committed refresh from a list of URIs have the numbers of the list. */
  lemma {:induction false} RefreshNumbers(st: Tables, target: nat, f: LineParser, text: string, fails: Faults)
    requires Refresh(st, target, ParseURIList(f, text), fails).Commit?
    ensures IsNumbered(NodesIn(Of(Refresh(st, target, ParseURIList(f, text), fails).tables.rows, target)))
  {
    ReplaceNumbers(st, target, ParseURIList(f, text), fails, target);
    ParseIsNumbered(f, text);
  }

  lemma {:induction false} SyncNumbers(
    st: Tables, target: nat, uris: seq<string>, f: LineParser, fails: Faults, other: nat)
    requires Sync(st, target, uris, f, fails).Commit?
    ensures var st' := Sync(st, target, uris, f, fails).tables;
            && IsNumbered(NodesIn(Of(st'.rows, target)))
            && (other != target ==> Of(st'.rows, other) == Of(st.rows, other))
  {
    if uris == [] {
      OthersHasNone(st.rows, target, other);
    } else {
      ReplaceNumbers(st, target, ParseURIList(f, JoinLines(uris)), fails, other);
      ParseIsNumbered(f, JoinLines(uris));
    }
  }

  /** Main result: after every committed sync, that of an edit, a creation or a deletion, the rows of the group are
      numbered from 0 in their order. */
  lemma {:induction false} SyncedRowsAreNumbered(st: Tables, a: Action, f: LineParser)
    requires TxOf(st, a, f).Commit? && !a.Measure? && Syncs(a, a.target)
    ensures IsNumbered(NodesIn(Of(Act(st, a, f).rows, a.target)))
  {
    match a
    case AddTarget(target, kind, uris, fails) =>
      SyncNumbers(st.(targets := st.targets[target := Target(kind, uris)]), target, uris, f, fails, target);
    case SetTarget(target, kind, uris, fails) =>
      SyncNumbers(WriteConfig(st, target, kind, uris), target, uris, f, fails, target);
    case CommitDeletion(target, uid, kept, fails) =>
      SyncNumbers(WriteUris(st, target, kept), target, kept, f, fails, target);
  }

  ghost predicate RowsInOrder(st: Tables, target: nat) {
    IsInOrder(NodesIn(Of(st.rows, target)))
  }

  lemma {:induction false} ActKeepsOrder(st: Tables, a: Action, target: nat, f: LineParser)
    requires RowsInOrder(st, target) && (a.RefreshTable? ==> IsInOrder(a.nodes))
    ensures RowsInOrder(Act(st, a, f), target)
  {
    if TxOf(st, a, f).Commit? {
      match a
      case AddTarget(t, kind, uris, fails) =>
        if kind == "node_group" {
          SyncNumbers(st.(targets := st.targets[t := Target(kind, uris)]), t, uris, f, fails, target);
        }
      case SetTarget(t, kind, uris, fails) =>
        if kind == "node_group" {
          SyncNumbers(WriteConfig(st, t, kind, uris), t, uris, f, fails, target);
        }
      case CommitDeletion(t, _, kept, fails) => SyncNumbers(WriteUris(st, t, kept), t, kept, f, fails, target);
      case RefreshTable(t, nodes, fails) => ReplaceNumbers(st, t, nodes, fails, target);
      case DropTarget(_, _) =>
      case Measure(id, m) => MeasuringKeepsNodes(st.rows, id, m, target);
    }
  }

  /** Main result: through every history whose refreshes bring lists in order, the rows of every target stay in the
      order of their numbers, by which the node list is shown. */
  lemma {:induction false} RowsStayInOrder(st: Tables, actions: seq<Action>, target: nat, f: LineParser)
    requires RowsInOrder(st, target)
    requires forall i :: 0 <= i < |actions| && actions[i].RefreshTable? ==> IsInOrder(actions[i].nodes)
    ensures RowsInOrder(ActAll(st, actions, f), target)
  {
    if actions != [] {
      var n := |actions| - 1;
      RowsStayInOrder(st, actions[..n], target, f);
      ActKeepsOrder(ActAll(st, actions[..n], f), actions[n], target, f);
    }
  }

  lemma ActTwice(st: Tables, a: Action, b: Action, f: LineParser)
    ensures ActAll(st, [a], f) == Act(st, a, f) && ActAll(st, [a, b], f) == Act(Act(st, a, f), b, f)
  {
    assert [a, b][..1] == [a] && [a][..0] == [];
  }

  lemma OneNode(a: Parsed, b: Parsed)
    ensures NodesOf(KnowsTwo(a, b), "a") == [a]
    ensures NodesOfAll(KnowsTwo(a, b), ["a"]) == [a]
  {
    LinesOfLine("a");
    var one := ["a"];
    assert Lines("a") == one && one[..0] == [];
    assert NodesOfLines(KnowsTwo(a, b), one) == [a];
    NodesOfSingle(KnowsTwo(a, b), "a");
  }

  lemma {:induction false} UpdateCommits(st: Tables, target: nat, uris: seq<string>, f: LineParser, ok: Faults)
    requires f("") == None && uris != [] && NodesOfAll(f, uris) != [] && forall op :: !ok(op)
    ensures Update(st, target, "node_group", uris, f, ok).Commit?
  {
    ParseOfJoined(f, uris);
  }

  lemma {:induction false} OverlaidByRefresh(
    st: Tables, a: Action, target: nat, nodes: seq<Parsed>, f: LineParser, ok: Faults)
    requires forall op :: !ok(op)
    ensures var run := [a, RefreshTable(target, nodes, ok)];
            && Overlaid(st, run, target, f) == Some(nodes)
            && ActAll(st, run, f).targets == Act(st, a, f).targets
  {
    ActTwice(st, a, RefreshTable(target, nodes, ok), f);
    assert [a, RefreshTable(target, nodes, ok)][..1] == [a];
  }

  /** A target becomes a node group while a refresh of it is being fetched. */
  lemma {:induction false} LateRefresh(
    st: Tables, target: nat, uris: seq<string>, nodes: seq<Parsed>, f: LineParser, ok: Faults)
    requires f("") == None && uris != [] && NodesOfAll(f, uris) != [] && forall op :: !ok(op)
    requires target in st.targets && GroupInSync(st, target, f)
    ensures var end := ActAll(st, [SetTarget(target, "node_group", uris, ok), RefreshTable(target, nodes, ok)], f);
            && IsGroup(end, target)
            && (InSync(end, target, f) <==> nodes == Renumber(NodesOfAll(f, uris)))
  {
    var edit, refresh := SetTarget(target, "node_group", uris, ok), RefreshTable(target, nodes, ok);
    UpdateCommits(st, target, uris, f, ok);
    UpdateSyncs(st, target, uris, f, ok);
    OverlaidByRefresh(st, edit, target, nodes, f, ok);
    GroupInSyncIff(st, [edit, refresh], target, f);
  }

  /** A refresh that was fetched for a subscription and commits after the target has become a node group: the group
      then has the fetched node instead of its own. */
  lemma {:induction false} RefreshBreaksSync(a: Parsed, b: Parsed, st: Tables, ok: Faults)
    requires a.uid != b.uid && forall op :: !ok(op)
    requires 1 in st.targets && st.targets[1].kind == "subscription"
    ensures var f := KnowsTwo(a, b);
            var end := ActAll(st, [SetTarget(1, "node_group", ["a"], ok), RefreshTable(1, [b], ok)], f);
            IsGroup(end, 1) && !InSync(end, 1, f)
  {
    OneNode(a, b);
    LateRefresh(st, 1, ["a"], [b], KnowsTwo(a, b), ok);
    assert Renumber([a])[0].uid == a.uid;
  }

  // ----- Deletions that overlap -----

  /** Every deletion of the history commits what its reading part found at that time or earlier. */
  ghost predicate DeletionsWereRead(st: Tables, actions: seq<Action>, f: LineParser) {
    forall k :: 0 <= k < |actions| && actions[k].CommitDeletion? ==> WasRead(st, actions[..k], actions[k], f)
  }

  ghost predicate WasRead(st: Tables, before: seq<Action>, a: Action, f: LineParser)
    requires a.CommitDeletion?
  {
    exists j :: 0 <= j <= |before| && PlanDeletion(ActAll(st, before[..j], f), a.target, a.uid, f) == Keep(a.kept)
  }

  lemma KeptOfTwo(a: Parsed, b: Parsed)
    requires a.uid == "a" && b.uid == "b"
    ensures var f := KnowsTwo(a, b);
            && Kept(f, ["a", "b"], "a") == ["b"] && Kept(f, ["a", "b"], "b") == ["a"]
            && !Hits(f, "a", "b") && HasUid(NodesOf(f, "a"), "a")
  {
    OneNode(a, b);
    TwoLines(a, b);
    var uris := ["a", "b"];
    assert uris[..1] == ["a"] && uris[..1][..0] == [];
    assert NodesOf(KnowsTwo(a, b), "a")[0].uid == "a";
  }

  lemma ReadAtOnce(st: Tables, before: seq<Action>, a: Action, f: LineParser)
    requires a.CommitDeletion? && PlanDeletion(st, a.target, a.uid, f) == Keep(a.kept)
    ensures WasRead(st, before, a, f)
  {
    assert ActAll(st, before[..0], f) == st;
  }

  lemma {:induction false} BothWereRead(st: Tables, first: Action, second: Action, f: LineParser)
    requires first.CommitDeletion? && PlanDeletion(st, first.target, first.uid, f) == Keep(first.kept)
    requires second.CommitDeletion? && PlanDeletion(st, second.target, second.uid, f) == Keep(second.kept)
    ensures DeletionsWereRead(st, [first, second], f)
  {
    ReadAtOnce(st, [], first, f);
    ReadAtOnce(st, [first], second, f);
    assert [first, second][..0] == [] && [first, second][..1] == [first];
  }

  /** A deletion commits when no operation fails and the entries to keep have a node. */
  lemma {:induction false} DeletionCommits(
    st: Tables, target: nat, uid: string, kept: seq<string>, f: LineParser, ok: Faults)
    requires f("") == None && kept != [] && NodesOfAll(f, kept) != [] && forall op :: !ok(op)
    ensures DeleteTx(st, target, uid, kept, f, ok).Commit?
    ensures target in st.targets ==>
              DeleteTx(st, target, uid, kept, f, ok).tables.targets ==
                  st.targets[target := st.targets[target].(uris := kept)]
  {
    ParseOfJoined(f, kept);
  }

  lemma {:induction false} DeletionEnds(
    st: Tables, target: nat, x: string, y: string, kept: seq<string>, f: LineParser, ok: Faults)
    requires f("") == None && kept != [] && NodesOfAll(f, kept) != [] && forall op :: !ok(op)
    requires target in st.targets
    ensures var end := Act(st, CommitDeletion(target, y, kept, ok), f);
            && end.targets == st.targets[target := st.targets[target].(uris := kept)]
            && (HasUid(NodesIn(Of(end.rows, target)), x) <==> HasUid(NodesOfAll(f, kept), x))
  {
    DeletionCommits(st, target, y, kept, f, ok);
    DeleteTxIsExact(st, target, y, kept, f, ok, target);
    RenumberKeepsUids(NodesOfAll(f, kept), x);
  }

  /** Two deletions that both read the list before either has written it, both of which commit: what the second one
      kept is written, with all of the first one's node that it kept. */
  lemma {:induction false} OverlappingDeletions(
    st: Tables, target: nat, x: string, y: string, kept: seq<string>, kept': seq<string>, f: LineParser, ok: Faults)
    requires f("") == None && forall op :: !ok(op)
    requires PlanDeletion(st, target, x, f) == Keep(kept) && kept != [] && NodesOfAll(f, kept) != []
    requires PlanDeletion(st, target, y, f) == Keep(kept') && kept' != [] && NodesOfAll(f, kept') != []
    ensures var run := [CommitDeletion(target, x, kept, ok), CommitDeletion(target, y, kept', ok)];
            var end := ActAll(st, run, f);
            && DeletionsWereRead(st, run, f)
            && target in end.targets && end.targets[target].uris == kept'
            && (HasUid(NodesIn(Of(end.rows, target)), x) <==> HasUid(NodesOfAll(f, kept'), x))
  {
    var first, second := CommitDeletion(target, x, kept, ok), CommitDeletion(target, y, kept', ok);
    BothWereRead(st, first, second, f);
    ActTwice(st, first, second, f);
    DeletionEnds(st, target, x, x, kept, f, ok);
    DeletionEnds(Act(st, first, f), target, x, y, kept', f, ok);
  }

  /** So a successful deletion can be lost: from the list of "a" and "b", deleting both at once leaves "a". */
  lemma {:induction false} DeletionIsLost(a: Parsed, b: Parsed, st: Tables, ok: Faults)
    requires a.uid == "a" && b.uid == "b" && forall op :: !ok(op)
    requires 1 in st.targets && st.targets[1] == Target("node_group", ["a", "b"])
    ensures var f := KnowsTwo(a, b);
            var run := [CommitDeletion(1, "a", ["b"], ok), CommitDeletion(1, "b", ["a"], ok)];
            var end := ActAll(st, run, f);
            && DeletionsWereRead(st, run, f)
            && 1 in end.targets && end.targets[1].uris == ["a"] && HasUid(NodesIn(Of(end.rows, 1)), "a")
  {
    var f := KnowsTwo(a, b);
    KeptOfTwo(a, b);
    OneNode(a, b);
    TwoLines(a, b);
    NodesOfSingle(f, "b");
    OverlappingDeletions(st, 1, "a", "b", ["b"], ["a"], f, ok);
  }
}
