/** Share tasks: which targets a share may name and which ones its dashboard lists (normalizeShareTargetIDs,
    parseShareTargetIDs, CreateShareTask, findShareByToken, ShareDashboard in
    server/internal/service/share_service.go). */
module Share {
  import opened Text

  // ----- Normalising ids -----

  /** The ids other than 0, each at its first occurrence. */
  function Normalized(ids: seq<nat>): seq<nat> {
    if ids == [] then []
    else
      var before, id := Normalized(ids[..|ids| - 1]), ids[|ids| - 1];
      if id == 0 || id in before then before else before + [id]
  }

  method Normalize(ids: seq<nat>) returns (uniq: seq<nat>)
    ensures uniq == Normalized(ids)
  {
    uniq := [];
    var seen: set<nat> := {};
    for i := 0 to |ids|
      invariant uniq == Normalized(ids[..i])
      invariant forall id :: id in seen <==> id in uniq
    {
      var id := ids[i];
      assert ids[..i + 1][..i] == ids[..i];
      if id == 0 {
        continue;
      }
      if id in seen {
        continue;
      }
      seen := seen + {id};
      uniq := uniq + [id];
    }
    assert ids[..|ids|] == ids;
  }

  ghost predicate Distinct(ids: seq<nat>) {
    forall i, j :: 0 <= i < j < |ids| ==> ids[i] != ids[j]
  }

  /** a occurs, and before any occurrence of b. */
  ghost predicate ComesFirst(ids: seq<nat>, a: nat, b: nat) {
    exists i :: 0 <= i < |ids| && ids[i] == a && forall j :: 0 <= j <= i ==> ids[j] != b
  }

  lemma {:induction false} NormalizedHas(ids: seq<nat>, id: nat)
    ensures id in Normalized(ids) <==> id != 0 && id in ids
  {
    if ids != [] {
      NormalizedHas(ids[..|ids| - 1], id);
      assert ids == ids[..|ids| - 1] + [ids[|ids| - 1]];
    }
  }

  lemma {:induction false} NormalizedIsDistinct(ids: seq<nat>)
    ensures Distinct(Normalized(ids))
  {
    if ids != [] {
      NormalizedIsDistinct(ids[..|ids| - 1]);
    }
  }

  lemma ComesFirstMore(ids: seq<nat>, a: nat, b: nat, last: nat)
    requires ComesFirst(ids, a, b)
    ensures ComesFirst(ids + [last], a, b)
  {
    var i :| 0 <= i < |ids| && ids[i] == a && forall j :: 0 <= j <= i ==> ids[j] != b;
    var more := ids + [last];
    assert more[i] == a && forall j :: 0 <= j <= i ==> more[j] != b;
  }

  lemma {:induction false} NormalizedKeepsOrder(ids: seq<nat>, i: nat, j: nat)
    requires i < j < |Normalized(ids)|
    ensures ComesFirst(ids, Normalized(ids)[i], Normalized(ids)[j])
  {
    var before, last := ids[..|ids| - 1], ids[|ids| - 1];
    var r := Normalized(before);
    assert ids == before + [last];
    if j < |r| {
      NormalizedKeepsOrder(before, i, j);
      ComesFirstMore(before, r[i], r[j], last);
    } else {
      NormalizedHas(before, r[i]);
      NormalizedHas(before, last);
      var k :| 0 <= k < |before| && before[k] == r[i];
      assert ids[k] == r[i] && forall m :: 0 <= m <= k ==> ids[m] == before[m] != last;
    }
  }

  lemma {:induction false} NormalizedOfDistinct(ids: seq<nat>)
    requires Distinct(ids) && forall i :: 0 <= i < |ids| ==> ids[i] != 0
    ensures Normalized(ids) == ids
  {
    if ids != [] {
      var before := ids[..|ids| - 1];
      NormalizedOfDistinct(before);
      assert ids == before + [ids[|ids| - 1]];
    }
  }

  /** Normalising yields the ids other than 0, without duplicates, in the order of their first
      occurrences, and normalising again changes nothing. */
  lemma {:induction false} NormalizedMeans(ids: seq<nat>)
    ensures Distinct(Normalized(ids))
    ensures forall id :: id in Normalized(ids) <==> id != 0 && id in ids
    ensures forall i: nat, j: nat :: i < j < |Normalized(ids)| ==>
              ComesFirst(ids, Normalized(ids)[i], Normalized(ids)[j])
    ensures Normalized(Normalized(ids)) == Normalized(ids)
  {
    var r := Normalized(ids);
    NormalizedIsDistinct(ids);
    forall id ensures id in r <==> id != 0 && id in ids {
      NormalizedHas(ids, id);
    }
    forall i: nat, j: nat | i < j < |r| ensures ComesFirst(ids, r[i], r[j]) {
      NormalizedKeepsOrder(ids, i, j);
    }
    forall i | 0 <= i < |r| ensures r[i] != 0 {
      NormalizedHas(ids, r[i]);
    }
    NormalizedOfDistinct(r);
  }

  // ----- Counting existing targets -----

  type Targets = map<nat, string>

  /** The rows WHERE id IN ids. */
  function Rows(targets: Targets, ids: seq<nat>): set<nat> {
    set id | id in targets.Keys && id in ids
  }

  /** Their count: each row counts once. */
  function Found(targets: Targets, ids: seq<nat>): nat {
    |Rows(targets, ids)|
  }

  function Members(ids: seq<nat>): set<nat> {
    set id | id in ids
  }

  lemma MembersOfMore(ids: seq<nat>, last: nat)
    ensures Members(ids + [last]) == Members(ids) + {last}
  {
  }

  lemma {:induction false} SizeOfDistinct(ids: seq<nat>)
    requires Distinct(ids)
    ensures |Members(ids)| == |ids|
  {
    if ids != [] {
      var before, last := ids[..|ids| - 1], ids[|ids| - 1];
      SizeOfDistinct(before);
      assert last !in before;
      MembersOfMore(before, last);
      assert ids == before + [last];
    }
  }

  lemma SmallerSubset(a: set<nat>, b: set<nat>, x: nat)
    requires a <= b && x in b && x !in a
    ensures |a| < |b|
  {
    var rest := b - a - {x};
    assert b == a + {x} + rest;
  }

  /** For distinct ids, the count equals their number exactly when every id exists. */
  lemma FoundAllIff(targets: Targets, ids: seq<nat>)
    requires Distinct(ids)
    ensures Found(targets, ids) == |ids| <==> forall i :: 0 <= i < |ids| ==> ids[i] in targets
  {
    var found := Rows(targets, ids);
    SizeOfDistinct(ids);
    if forall i :: 0 <= i < |ids| ==> ids[i] in targets {
      assert found == Members(ids);
    } else {
      var i :| 0 <= i < |ids| && ids[i] !in targets;
      SmallerSubset(found, Members(ids), ids[i]);
    }
  }

  /** Without distinctness the count refuses ids that all exist. */
  lemma DuplicatesAreRefused(targets: Targets, id: nat)
    requires id in targets
    ensures Found(targets, [id, id]) == 1
  {
    assert Rows(targets, [id, id]) == {id};
  }

  // ----- Shares -----

  datatype ShareTask = ShareTask(token: string, ids: seq<nat>, expiresAt: int, enabled: bool)

  datatype Created = Created(share: ShareTask) | NoTargets | ExpiresTooSoon | UnknownTarget | CreateFailed

  datatype Dashboard = Listed(ids: seq<nat>) | NotFound | IsDisabled | HasExpired | BadConfig

  const MINUTE := 60_000

  function CreateOf(targets: Targets, ids: seq<nat>, expiresAt: int, now: int, token: string, fails: bool): Created {
    var wanted := Normalized(ids);
    if wanted == [] then NoTargets
    else if expiresAt < now + MINUTE then ExpiresTooSoon
    else if Found(targets, wanted) != |wanted| then UnknownTarget
    else if fails then CreateFailed
    else Created(ShareTask(token, wanted, expiresAt, true))
  }

  /** The first share with the token. */
  function FindShare(shares: seq<ShareTask>, token: string): Option<ShareTask> {
    if shares == [] then None
    else if shares[0].token == token then Some(shares[0])
    else FindShare(shares[1..], token)
  }

  /** Those of the ids that exist, in their order. */
  function Existing(targets: Targets, ids: seq<nat>): seq<nat> {
    if ids == [] then []
    else Existing(targets, ids[..|ids| - 1]) + if ids[|ids| - 1] in targets then [ids[|ids| - 1]] else []
  }

  function DashboardOf(shares: seq<ShareTask>, targets: Targets, token: string, now: int): Dashboard {
    match FindShare(shares, token)
    case None => NotFound
    case Some(share) =>
      if !share.enabled then IsDisabled
      else if now > share.expiresAt then HasExpired
      else if Normalized(share.ids) == [] then BadConfig
      else Listed(Existing(targets, Normalized(share.ids)))
  }

  class ShareService {
    var shares: seq<ShareTask>
    var targets: Targets

    method Create(ids: seq<nat>, expiresAt: int, now: int, token: string, fails: bool) returns (r: Created)
      modifies this`shares
      ensures r == CreateOf(targets, ids, expiresAt, now, token, fails)
      ensures shares == old(shares) + if r.Created? then [r.share] else []
    {
      var wanted := Normalize(ids);
      if wanted == [] {
        return NoTargets;
      }
      if expiresAt < now + MINUTE {
        return ExpiresTooSoon;
      }
      var found := |Rows(targets, wanted)|;
      if found != |wanted| {
        return UnknownTarget;
      }
      if fails {
        return CreateFailed;
      }
      var share := ShareTask(token, wanted, expiresAt, true);
      shares := shares + [share];
      r := Created(share);
    }

    method Show(token: string, now: int) returns (r: Dashboard)
      ensures r == DashboardOf(shares, targets, token, now)
    {
      var share := FindShare(shares, token);
      if share == None {
        return NotFound;
      }
      if !share.value.enabled {
        return IsDisabled;
      }
      if now > share.value.expiresAt {
        return HasExpired;
      }
      var ids := Normalize(share.value.ids);
      if ids == [] {
        return BadConfig;
      }
      var targetMap := map id | id in targets.Keys && id in ids :: targets[id];
      var ordered: seq<nat> := [];
      for i := 0 to |ids|
        invariant ordered == Existing(targets, ids[..i])
      {
        assert ids[..i + 1][..i] == ids[..i];
        if ids[i] in targetMap {
          ordered := ordered + [ids[i]];
        }
      }
      assert ids[..|ids|] == ids;
      r := Listed(ordered);
    }
  }

  lemma {:induction false} ExistingOfAll(targets: Targets, ids: seq<nat>)
    requires forall i :: 0 <= i < |ids| ==> ids[i] in targets
    ensures Existing(targets, ids) == ids
  {
    if ids != [] {
      ExistingOfAll(targets, ids[..|ids| - 1]);
    }
  }

  lemma {:induction false} FindNew(shares: seq<ShareTask>, share: ShareTask)
    requires forall i :: 0 <= i < |shares| ==> shares[i].token != share.token
    ensures FindShare(shares + [share], share.token) == Some(share)
  {
    if shares != [] {
      assert (shares + [share])[1..] == shares[1..] + [share];
      FindNew(shares[1..], share);
    }
  }

  /** Main result: creation succeeds exactly for some id, each existing, and an expiry a minute ahead; until then
      the dashboard of the share lists the wanted ids that still exist, in the order in which they were first
      given: all of them if no target was removed since. */
  lemma DashboardListsTheShare(
    shares: seq<ShareTask>, targets: Targets, later: Targets, ids: seq<nat>, expiresAt: int, now: int, token: string,
    at: int)
    requires forall i :: 0 <= i < |shares| ==> shares[i].token != token
    ensures var r := CreateOf(targets, ids, expiresAt, now, token, false);
            && (r.Created? <==>
                  (exists id :: id in ids && id != 0) && (forall id :: id in ids && id != 0 ==> id in targets) &&
                  expiresAt >= now + MINUTE)
            && (r.Created? && at <= expiresAt ==>
                  DashboardOf(shares + [r.share], later, token, at) == Listed(Existing(later, Normalized(ids))))
            && (r.Created? && targets.Keys <= later.Keys ==> Existing(later, Normalized(ids)) == Normalized(ids))
  {
    CreatedIff(targets, ids, expiresAt, now, token);
    var r := CreateOf(targets, ids, expiresAt, now, token, false);
    if r.Created? {
      CreatedShare(targets, ids, expiresAt, now, token);
      if at <= expiresAt {
        NewShareIsListed(shares, r.share, later, at);
      }
      if targets.Keys <= later.Keys {
        ExistingOfAll(later, Normalized(ids));
      }
    }
  }

  lemma {:induction false} CreatedShare(targets: Targets, ids: seq<nat>, expiresAt: int, now: int, token: string)
    requires CreateOf(targets, ids, expiresAt, now, token, false).Created?
    ensures CreateOf(targets, ids, expiresAt, now, token, false).share ==
            ShareTask(token, Normalized(ids), expiresAt, true)
    ensures Normalized(ids) != [] && Normalized(Normalized(ids)) == Normalized(ids)
    ensures forall i :: 0 <= i < |Normalized(ids)| ==> Normalized(ids)[i] in targets
  {
    NormalizedMeans(ids);
    FoundAllIff(targets, Normalized(ids));
  }

  lemma {:induction false} NewShareIsListed(shares: seq<ShareTask>, share: ShareTask, targets: Targets, at: int)
    requires forall i :: 0 <= i < |shares| ==> shares[i].token != share.token
    requires share.enabled && at <= share.expiresAt && share.ids != [] && Normalized(share.ids) == share.ids
    ensures DashboardOf(shares + [share], targets, share.token, at) == Listed(Existing(targets, share.ids))
  {
    FindNew(shares, share);
  }

  /** Why a share is refused: no id at all, an expiry less than a minute ahead, or an id that does not exist. */
  lemma {:induction false} RefusalsMean(targets: Targets, ids: seq<nat>, expiresAt: int, now: int, token: string)
    ensures var r, hasId := CreateOf(targets, ids, expiresAt, now, token, false), exists id :: id in ids && id != 0;
            && (r.NoTargets? <==> !hasId)
            && (r.ExpiresTooSoon? <==> hasId && expiresAt < now + 60_000)
            && (r.UnknownTarget? <==>
                  hasId && expiresAt >= now + 60_000 && exists id :: id in ids && id != 0 && id !in targets)
  {
    CreatedIff(targets, ids, expiresAt, now, token);
    NormalizedMeans(ids);
    var wanted := Normalized(ids);
    assert wanted != [] ==> wanted[0] in wanted;
  }

  lemma {:induction false} ExistingHas(targets: Targets, ids: seq<nat>, id: nat)
    ensures id in Existing(targets, ids) <==> id in ids && id in targets
  {
    if ids != [] {
      ExistingHas(targets, ids[..|ids| - 1], id);
      assert ids == ids[..|ids| - 1] + [ids[|ids| - 1]];
    }
  }

  lemma {:induction false} ExistingKeepsOrder(targets: Targets, ids: seq<nat>, i: nat, j: nat)
    requires Distinct(ids) && i < j < |Existing(targets, ids)|
    ensures ComesFirst(ids, Existing(targets, ids)[i], Existing(targets, ids)[j])
  {
    var n := |ids| - 1;
    var before, last := ids[..n], ids[n];
    var r := Existing(targets, before);
    assert ids == before + [last];
    if j < |r| {
      ExistingKeepsOrder(targets, before, i, j);
      ComesFirstMore(before, r[i], r[j], last);
    } else {
      ExistingHas(targets, before, r[i]);
      var k :| 0 <= k < n && before[k] == r[i];
      assert ids[k] == r[i] && forall m :: 0 <= m <= k ==> ids[m] != last;
    }
  }

  /** The first share with the token, if there is one. */
  ghost predicate IsFirstWith(shares: seq<ShareTask>, token: string, i: nat) {
    i < |shares| && shares[i].token == token && forall j :: 0 <= j < i ==> shares[j].token != token
  }

  lemma {:induction false} FindIsFirst(shares: seq<ShareTask>, token: string) returns (i: nat)
    ensures FindShare(shares, token).None? <==> forall j :: 0 <= j < |shares| ==> shares[j].token != token
    ensures FindShare(shares, token).Some? ==>
              IsFirstWith(shares, token, i) && FindShare(shares, token).value == shares[i]
  {
    i := 0;
    if shares != [] && shares[0].token != token {
      var j := FindIsFirst(shares[1..], token);
      i := j + 1;
      assert forall k :: 1 <= k < |shares| ==> shares[k] == shares[1..][k - 1];
    }
  }

  /** Main result: a dashboard is shown exactly for a token that some share has, if the first such share is enabled, not
      past its expiry and names a target; it lists exactly its targets that exist, in the order in which it names them
      first. Otherwise it says which of these it is. */
  lemma {:induction false} DashboardMeans(shares: seq<ShareTask>, targets: Targets, token: string, now: int)
    returns (i: nat)
    ensures var r := DashboardOf(shares, targets, token, now);
            if forall j :: 0 <= j < |shares| ==> shares[j].token != token then r.NotFound?
            else
              && IsFirstWith(shares, token, i)
              && (r.IsDisabled? <==> !shares[i].enabled)
              && (r.HasExpired? <==> shares[i].enabled && now > shares[i].expiresAt)
              && (r.Listed? <==>
                    shares[i].enabled && now <= shares[i].expiresAt && exists id :: id in shares[i].ids && id != 0)
              && (r.Listed? ==>
                    && (forall id :: id in r.ids <==> id in shares[i].ids && id != 0 && id in targets)
                    && forall a: nat, b: nat :: a < b < |r.ids| ==>
                         ComesFirst(Normalized(shares[i].ids), r.ids[a], r.ids[b]))
  {
    i := FindIsFirst(shares, token);
    if FindShare(shares, token).Some? {
      var ids := shares[i].ids;
      var wanted := Normalized(ids);
      NormalizedMeans(ids);
      assert wanted != [] ==> wanted[0] in wanted;
      forall id ensures id in Existing(targets, wanted) <==> id in ids && id != 0 && id in targets {
        ExistingHas(targets, wanted, id);
      }
      forall a: nat, b: nat | a < b < |Existing(targets, wanted)|
        ensures ComesFirst(wanted, Existing(targets, wanted)[a], Existing(targets, wanted)[b])
      {
        ExistingKeepsOrder(targets, wanted, a, b);
      }
    }
  }

  lemma {:induction false} CreatedIff(targets: Targets, ids: seq<nat>, expiresAt: int, now: int, token: string)
    ensures CreateOf(targets, ids, expiresAt, now, token, false).Created? <==>
              (exists id :: id in ids && id != 0) && (forall id :: id in ids && id != 0 ==> id in targets) &&
              expiresAt >= now + MINUTE
  {
    var wanted := Normalized(ids);
    NormalizedMeans(ids);
    FoundAllIff(targets, wanted);
    assert wanted != [] ==> wanted[0] in wanted;
    if forall i :: 0 <= i < |wanted| ==> wanted[i] in targets {
      forall id | id in ids && id != 0 ensures id in targets {
        assert id in wanted;
      }
    }
  }
}
