// Cleaning the caches when an issue is deleted: collecting the parents whose
// children caches may hold it, and pruning lists and children caches.

module DeleteCache {
  import opened Options
  import opened Seqs
  import opened Issues
  import opened IssueTracking
  import opened QueryCache
  import opened IssueKeys

  function ListParent(d: Option<Data>, id: string): Option<string> {
    if d.Some? && d.value.Lists? then
      var loc := FindIssueLocation(d.value.buckets, id);
      if loc.Some? then loc.value.issue.parentId else None
    else None
  }

  function DetailParent(d: Option<Data>): Option<string> {
    if d.Some? && d.value.Detail? then d.value.issue.parentId else None
  }

  function RowOf(d: Option<Data>, id: string): Option<Issue> {
    if d.Some? && d.value.Rows? then FirstWithId(d.value.issues, id) else None
  }

  /** p is a non-empty parent id that some cache names for the issue. */
  predicate NamedByList(data: Store, prefix: Key, id: string, p: string) {
    exists k :: k in data && prefix <= k && ListParent(data[k], id) == Some(p)
  }

  predicate NamedByChildren(data: Store, ws: string, id: string, p: string) {
    exists k :: k in data && ChildrenPrefix(ws) <= k && NamedByQuery(Snapshot(k, data[k]), id, p)
  }

  predicate NamedByQuery(q: Snapshot, id: string, p: string) {
    RowOf(q.value, id).Some? && (RowOf(q.value, id).value.parentId == Some(p) || LastString(q.key) == Some(p))
  }

  predicate IsParentSource(data: Store, ws: string, id: string, p: string) {
    p != "" && (DetailParent(Get(data, DetailKey(ws, id))) == Some(p)
                || NamedByList(data, ListPrefix(ws), id, p) || NamedByList(data, MyPrefix(ws), id, p)
                || NamedByChildren(data, ws, id, p))
  }

  /** In plain terms: a valid list names the parent of the issue that it shows, a detail entry that of its issue, and
      a children cache that of its row and the one it is keyed by. */
  lemma ParentNames(data: Store, ws: string, id: string, p: string, k: Key)
    ensures DetailParent(Get(data, k)) == Some(p)
      <==> Get(data, k).Some? && Get(data, k).value.Detail? && Get(data, k).value.issue.parentId == Some(p)
    ensures Get(data, k).Some? && Get(data, k).value.Lists? && Valid(Get(data, k).value.buckets) ==>
      (ListParent(Get(data, k), id) == Some(p) <==> ShowsUnder(Get(data, k).value.buckets, id, p))
    ensures !(Get(data, k).Some? && Get(data, k).value.Lists?) ==> ListParent(Get(data, k), id) == None
    ensures NamedByQuery(Snapshot(ChildrenKey(ws, p), Get(data, k)), id, p)
      <==> Get(data, k).Some? && Get(data, k).value.Rows? && exists i :: i in Get(data, k).value.issues && i.id == id
  {
    var d := Get(data, k);
    KeysTellApart(ws, p, ws, p);
    if d.Some? && d.value.Lists? && Valid(d.value.buckets) { ListParentIsShown(d.value.buckets, id); }
  }

  /** A children cache names the parent of the first row of the issue, and the parent that it is keyed by. */
  lemma RowNamesParents(key: Key, a: seq<Issue>, i: Issue, b: seq<Issue>, p: string)
    requires forall x :: x in a ==> x.id != i.id
    ensures NamedByQuery(Snapshot(key, Some(Rows(a + [i] + b))), i.id, p)
      <==> i.parentId == Some(p) || (key != [] && key[|key| - 1] == Str(p))
  {
    var rows := a + [i] + b;
    assert rows[|a|] == i && forall j :: 0 <= j < |a| ==> rows[j] == a[j];
    FirstWithIdIsFirst(rows, i.id, |a|);
  }

  /** The list shows the issue as a child of p. */
  ghost predicate ShowsUnder(b: Buckets, id: string, p: string) {
    exists i :: Shows(b, i) && i.id == id && i.parentId == Some(p)
  }

  lemma ListParentIsShown(b: Buckets, id: string)
    requires Valid(b)
    ensures forall p :: ListParent(Some(Lists(b)), id) == Some(p) <==> ShowsUnder(b, id, p)
  {
    LookupIsShown(b, id);
    if Lookup(b, id).Some? {
      assert Shows(b, Lookup(b, id).value);
      assert ListParent(Some(Lists(b)), id) == Lookup(b, id).value.parentId;
    }
  }

  method CollectParentId(parents: seq<string>, p: Option<string>) returns (r: seq<string>)
    ensures forall x :: x in r <==> x in parents || (p == Some(x) && x != "")
    ensures NoDup(parents) ==> NoDup(r)
  {
    r := parents;
    if NonEmpty(p) && p.value !in parents {
      r := parents + [p.value];
    }
  }

  /** All data loaded under the prefix is bucketed; anything else has no buckets to look into. */
  predicate BucketShaped(data: Store, prefix: Key) {
    forall k :: k in data && prefix <= k && data[k].Some? ==> data[k].value.Lists?
  }

  predicate ListsBucketed(data: Store, ws: string) {
    BucketShaped(data, ListPrefix(ws)) && BucketShaped(data, MyPrefix(ws))
  }

  predicate Bucketed(d: Option<Data>) {
    d.Some? ==> d.value.Lists?
  }

  method CollectFromLists(qc: QueryClient, prefix: Key, id: string, parents: seq<string>)
    returns (r: Outcome<seq<string>>)
    requires qc.Valid() && NoDup(parents)
    ensures r.Returned? <==> BucketShaped(qc.data, prefix)
    ensures r.Returned? ==> NoDup(r.value)
    ensures r.Returned? ==>
      forall x :: x in r.value <==> x in parents || (x != "" && NamedByList(qc.data, prefix, id, x))
  {
    var queries := qc.GetQueriesData(prefix);
    var found := parents;
    for i := 0 to |queries|
      invariant NoDup(found)
      invariant forall j :: 0 <= j < i ==> Bucketed(queries[j].value)
      invariant forall x :: x in found <==> x in parents || (x != "" && NamedUpTo(queries, id, i, x))
    {
      QueryInStore(qc.data, prefix, queries, i);
      if !Bucketed(queries[i].value) { return Threw; }
      NamedStep(queries, id, i);
      found := CollectParentId(found, ListParent(queries[i].value, id));
    }
    QueriesNameParents(qc.data, prefix, id, queries);
    return Returned(found);
  }

  /** One of the first n queries names x as the parent. */
  predicate NamedUpTo(queries: seq<Snapshot>, id: string, n: nat, x: string) {
    exists j :: 0 <= j < n <= |queries| && ListParent(queries[j].value, id) == Some(x)
  }

  lemma NamedStep(queries: seq<Snapshot>, id: string, n: nat)
    requires n < |queries|
    ensures forall x ::
      NamedUpTo(queries, id, n + 1, x) <==> NamedUpTo(queries, id, n, x) || ListParent(queries[n].value, id) == Some(x)
  {
  }

  lemma QueriesNameParents(data: Store, prefix: Key, id: string, queries: seq<Snapshot>)
    requires forall s :: s in queries ==> InStore(data, s, prefix)
    requires forall k :: k in data && prefix <= k ==> Snapshot(k, data[k]) in queries
    ensures forall x :: NamedUpTo(queries, id, |queries|, x) <==> NamedByList(data, prefix, id, x)
    ensures (forall j :: 0 <= j < |queries| ==> Bucketed(queries[j].value)) ==> BucketShaped(data, prefix)
  {
    forall x ensures NamedUpTo(queries, id, |queries|, x) <==> NamedByList(data, prefix, id, x) {
      if j :| 0 <= j < |queries| && ListParent(queries[j].value, id) == Some(x) {
        assert queries[j] in queries && InStore(data, queries[j], prefix);
      }
      if k :| k in data && prefix <= k && ListParent(data[k], id) == Some(x) {
        var j :| 0 <= j < |queries| && queries[j] == Snapshot(k, data[k]);
      }
    }
    forall k | k in data && prefix <= k
      ensures (forall j :: 0 <= j < |queries| ==> Bucketed(queries[j].value)) ==> Bucketed(data[k])
    {
      var j :| 0 <= j < |queries| && queries[j] == Snapshot(k, data[k]);
    }
  }

  method CollectFromChildren(qc: QueryClient, ws: string, id: string, parents: seq<string>) returns (r: seq<string>)
    requires qc.Valid() && NoDup(parents)
    ensures NoDup(r)
    ensures forall x :: x in r <==> x in parents || (x != "" && NamedByChildren(qc.data, ws, id, x))
  {
    var queries := qc.GetQueriesData(ChildrenPrefix(ws));
    r := parents;
    for i := 0 to |queries|
      invariant NoDup(r)
      invariant forall x :: x in r <==>
        x in parents || (x != "" && exists j :: 0 <= j < i && NamedByQuery(queries[j], id, x))
    {
      var child := RowOf(queries[i].value, id);
      if child.Some? {
        r := CollectParentId(r, child.value.parentId);
        r := CollectParentId(r, LastString(queries[i].key));
      }
    }
    forall x ensures (exists j :: 0 <= j < |queries| && NamedByQuery(queries[j], id, x))
      <==> NamedByChildren(qc.data, ws, id, x)
    {
      if j :| 0 <= j < |queries| && NamedByQuery(queries[j], id, x) {
        assert queries[j] in queries;
        assert InStore(qc.data, queries[j], ChildrenPrefix(ws));
      }
      if NamedByChildren(qc.data, ws, id, x) {
        var k :| k in qc.data && ChildrenPrefix(ws) <= k && NamedByQuery(Snapshot(k, qc.data[k]), id, x);
        var j :| 0 <= j < |queries| && queries[j] == Snapshot(k, qc.data[k]);
        assert NamedByQuery(queries[j], id, x);
      }
    }
  }

  /** Goes through exactly when all loaded lists and my-lists are bucketed. */
  method CollectDeletedIssueCacheMetadata(qc: QueryClient, ws: string, id: string) returns (r: Outcome<seq<string>>)
    requires qc.Valid()
    ensures r.Returned? <==> ListsBucketed(qc.data, ws)
    ensures r.Returned? ==> NoDup(r.value) && forall p :: p in r.value <==> IsParentSource(qc.data, ws, id, p)
  {
    var detail := if DetailKey(ws, id) in qc.data then qc.data[DetailKey(ws, id)] else None;
    var parents := CollectParentId([], DetailParent(detail));
    r := CollectFromLists(qc, ListPrefix(ws), id, parents);
    if r.Threw? { return; }
    r := CollectFromLists(qc, MyPrefix(ws), id, r.value);
    if r.Threw? { return; }
    parents := CollectFromChildren(qc, ws, id, r.value);
    r := Returned(parents);
  }

  /** Assignee groups of "my issues" lie under the prefix of the my-lists and are not bucketed: while they are
      loaded, no deletion goes through. */
  lemma AssigneeGroupsBlockDeletion(data: Store, ws: string, scope: string, filter: map<string, string>, groups: string)
    requires Get(data, MyAssigneeGroupsKey(ws, scope, filter)) == Some(Other(groups))
    ensures !ListsBucketed(data, ws)
  {
    assert MyPrefix(ws) <= MyAssigneeGroupsKey(ws, scope, filter);
  }

  // ----- Pruning -----

  function ListsPruned(data: Store, ws: string, id: string): Store {
    UpdateUnder(UpdateUnder(data, ListPrefix(ws), RemoveFromLists(id)), MyPrefix(ws), RemoveFromLists(id))
  }

  function ChildrenPruned(data: Store, ws: string, id: string, parents: seq<string>): Store {
    if parents == [] then data
    else
      var n := |parents| - 1;
      UpdateAt(ChildrenPruned(data, ws, id, parents[..n]), ChildrenKey(ws, parents[n]), DropRow(id))
  }

  /** Prunes list after list, up to the first that is not bucketed. */
  method PruneLists(qc: QueryClient, prefix: Key, id: string) returns (ok: bool, ghost done: set<Key>)
    requires qc.Valid()
    modifies qc
    ensures qc.Valid() && (ok <==> BucketShaped(old(qc.data), prefix))
    ensures ok ==> qc.data == UpdateUnder(old(qc.data), prefix, RemoveFromLists(id))
    ensures qc.data == UpdateKeys(old(qc.data), done, RemoveFromLists(id)) && forall k :: k in done ==> prefix <= k
  {
    var queries := qc.GetQueriesData(prefix);
    ghost var before := qc.data;
    done := {};
    for i := 0 to |queries|
      invariant qc.Valid() && qc.data == UpdateKeys(before, done, RemoveFromLists(id))
      invariant AreQueries(before, prefix, queries)
      invariant HandledUpTo(queries, done, i) && forall k :: k in done ==> prefix <= k
    {
      QueryInStore(before, prefix, queries, i);
      if !Bucketed(queries[i].value) { return false, done; }
      qc.RewriteQuery(before, done, RemoveFromLists(id), queries[i]);
      HandledStep(queries, done, i);
      done := done + {queries[i].key};
    }
    AllHandled(before, prefix, RemoveFromLists(id), queries, done);
    ok := true;
  }

  /** All queries under the prefix, as the store holds them. */
  ghost predicate AreQueries(data: Store, prefix: Key, queries: seq<Snapshot>) {
    && (forall s :: s in queries ==> InStore(data, s, prefix))
    && (forall k :: k in data && prefix <= k ==> Snapshot(k, data[k]) in queries)
  }

  ghost predicate HandledUpTo(queries: seq<Snapshot>, done: set<Key>, i: nat) {
    i <= |queries| && forall j :: 0 <= j < i ==> Bucketed(queries[j].value) && queries[j].key in done
  }

  lemma HandledStep(queries: seq<Snapshot>, done: set<Key>, i: nat)
    requires HandledUpTo(queries, done, i) && i < |queries| && Bucketed(queries[i].value)
    ensures HandledUpTo(queries, done + {queries[i].key}, i + 1)
  {
  }

  lemma QueryInStore(data: Store, prefix: Key, queries: seq<Snapshot>, i: nat)
    requires AreQueries(data, prefix, queries) && i < |queries|
    ensures InStore(data, queries[i], prefix)
    ensures !Bucketed(queries[i].value) ==> !BucketShaped(data, prefix)
  {
    assert queries[i] in queries;
  }

  lemma AllHandled(data: Store, prefix: Key, f: Data -> Data, queries: seq<Snapshot>, done: set<Key>)
    requires AreQueries(data, prefix, queries) && HandledUpTo(queries, done, |queries|)
    requires forall k :: k in done ==> prefix <= k
    ensures BucketShaped(data, prefix) && UpdateKeys(data, done, f) == UpdateUnder(data, prefix, f)
  {
    AllKeysDone(data, prefix, done, f, queries);
    QueriesNameParents(data, prefix, "", queries);
  }

  method PruneDeletedIssueFromListCaches(qc: QueryClient, ws: string, id: string)
    returns (ok: bool, ghost done: set<Key>)
    requires qc.Valid()
    modifies qc
    ensures qc.Valid() && (ok <==> ListsBucketed(old(qc.data), ws))
    ensures ok ==> qc.data == ListsPruned(old(qc.data), ws, id)
    ensures qc.data == UpdateKeys(old(qc.data), done, RemoveFromLists(id))
    ensures forall k :: k in done ==> ListPrefix(ws) <= k || MyPrefix(ws) <= k
  {
    ok, done := PruneLists(qc, ListPrefix(ws), id);
    if !ok { return; }
    ghost var mine;
    MyListsUntouched(old(qc.data), ws, done, RemoveFromLists(id));
    ok, mine := PruneLists(qc, MyPrefix(ws), id);
    TwoRounds(old(qc.data), ws, done, mine, RemoveFromLists(id));
    done := done + mine;
  }

  lemma MyListsUntouched(data: Store, ws: string, keys: set<Key>, f: Data -> Data)
    requires forall k :: k in keys ==> ListPrefix(ws) <= k
    ensures BucketShaped(UpdateKeys(data, keys, f), MyPrefix(ws)) <==> BucketShaped(data, MyPrefix(ws))
  {
    var after := UpdateKeys(data, keys, f);
    forall k | k in data && MyPrefix(ws) <= k ensures k in after && after[k] == data[k] {
      FamiliesApart(ws, "", k);
    }
    assert forall k :: k in after ==> k in data;
  }

  lemma TwoRounds(data: Store, ws: string, lists: set<Key>, mine: set<Key>, f: Data -> Data)
    requires forall k :: k in lists ==> ListPrefix(ws) <= k
    requires forall k :: k in mine ==> MyPrefix(ws) <= k
    ensures UpdateKeys(UpdateKeys(data, lists, f), mine, f) == UpdateKeys(data, lists + mine, f)
  {
    forall k | k in lists ensures k !in mine {
      FamiliesApart(ws, "", k);
    }
  }

  method PruneDeletedIssueFromParentChildrenCaches(qc: QueryClient, ws: string, id: string, parents: seq<string>)
    requires qc.Valid()
    modifies qc
    ensures qc.Valid() && qc.data == ChildrenPruned(old(qc.data), ws, id, parents)
  {
    for i := 0 to |parents|
      invariant qc.Valid() && qc.data == ChildrenPruned(old(qc.data), ws, id, parents[..i])
    {
      assert parents[..i + 1][..i] == parents[..i];
      var key := ChildrenKey(ws, parents[i]);
      var current := if key in qc.data then qc.data[key] else None;
      qc.SetQueryData(key, if current.Some? then Some(DropRow(id)(current.value)) else None);
    }
    assert parents[..|parents|] == parents;
  }

  function Pruned(data: Store, ws: string, id: string, parents: seq<string>): Store {
    ChildrenPruned(ListsPruned(data, ws, id), ws, id, parents)
  }

  /** What a deletion leaves: everything pruned, or everything as it was when collecting the parents throws. */
  function DeletedFrom(data: Store, ws: string, id: string, parents: seq<string>): Store {
    if ListsBucketed(data, ws) then Pruned(data, ws, id, parents) else data
  }

  // ----- What is left after pruning -----

  /** Keys under the children prefix are per-parent keys. */
  ghost predicate ChildrenKeysCanonical(data: Store, ws: string) {
    forall k :: k in data && ChildrenPrefix(ws) <= k ==> exists p :: k == ChildrenKey(ws, p)
  }

  lemma {:induction false} ChildrenPrunedAt(data: Store, ws: string, id: string, parents: seq<string>, k: Key)
    requires NoDup(parents)
    ensures ChildrenPruned(data, ws, id, parents).Keys == data.Keys
    ensures k in data ==>
      ChildrenPruned(data, ws, id, parents)[k] ==
        if data[k].Some? && (exists p :: p in parents && k == ChildrenKey(ws, p))
        then Some(DropRow(id)(data[k].value)) else data[k]
  {
    if parents != [] {
      var n := |parents| - 1;
      assert parents == parents[..n] + [parents[n]];
      ChildrenPrunedAt(data, ws, id, parents[..n], k);
      ChildrenPrunedAt(data, ws, id, parents[..n], ChildrenKey(ws, parents[n]));
      assert ChildrenKey(ws, parents[n])[3] == Str(parents[n]);
      if p :| p in parents[..n] && k == ChildrenKey(ws, p) {
        assert k[3] == Str(p);
      }
    }
  }

  lemma WithoutAbsent(issues: seq<Issue>, id: string)
    requires FirstWithId(issues, id).None?
    ensures Without(issues, id) == issues
  {
    FilterAll((i: Issue) => i.id != id, issues);
  }

  /** Every children cache under a non-empty parent loses exactly the deleted issue, and keeps its order,
      when the deletion goes through. */
  lemma ChildrenLoseExactlyTheIssue(data: Store, ws: string, id: string, parents: seq<string>, p: string,
                                    issues: seq<Issue>)
    requires NoDup(parents) && forall x :: x in parents <==> IsParentSource(data, ws, id, x)
    requires Get(data, ChildrenKey(ws, p)) == Some(Rows(issues))
    ensures Get(DeletedFrom(data, ws, id, parents), ChildrenKey(ws, p)) ==
      Some(Rows(if p == "" || !ListsBucketed(data, ws) then issues else Without(issues, id)))
  {
    var k := ChildrenKey(ws, p);
    FamiliesApart(ws, p, k);
    assert ListsPruned(data, ws, id)[k] == data[k];
    ChildrenPrunedAt(ListsPruned(data, ws, id), ws, id, parents, k);
    assert forall x :: k == ChildrenKey(ws, x) ==> k[3] == Str(x);
    if FirstWithId(issues, id).None? {
      WithoutAbsent(issues, id);
    } else {
      assert LastString(k) == Some(p) && RowOf(data[k], id).Some?;
      assert NamedByQuery(Snapshot(k, data[k]), id, p);
      assert p != "" ==> NamedByChildren(data, ws, id, p);
    }
  }

  /** In canonical caches the deleted issue remains in a children cache exactly when that is keyed by the empty
      id or the deletion does not go through. */
  lemma NoChildrenCacheHoldsTheIssue(data: Store, ws: string, id: string, parents: seq<string>, k: Key)
    requires ChildrenKeysCanonical(data, ws)
    requires NoDup(parents) && forall x :: x in parents <==> IsParentSource(data, ws, id, x)
    requires k in data && ChildrenPrefix(ws) <= k
    ensures k in DeletedFrom(data, ws, id, parents)
    ensures HasRow(DeletedFrom(data, ws, id, parents)[k], id)
      <==> HasRow(data[k], id) && (k == ChildrenKey(ws, "") || !ListsBucketed(data, ws))
  {
    var p :| k == ChildrenKey(ws, p);
    assert k[3] == Str(p) && ChildrenKey(ws, "")[3] == Str("");
    if data[k].Some? && data[k].value.Rows? {
      ChildrenLoseExactlyTheIssue(data, ws, id, parents, p, data[k].value.issues);
      assert forall i :: i in Without(data[k].value.issues, id) ==> i.id != id;
    } else {
      FamiliesApart(ws, p, k);
      ChildrenPrunedAt(ListsPruned(data, ws, id), ws, id, parents, k);
    }
  }

  lemma PrunedOutsideChildren(data: Store, ws: string, id: string, parents: seq<string>, k: Key)
    requires !(ChildrenPrefix(ws) <= k)
    ensures k in Pruned(data, ws, id, parents) <==> k in data
    ensures k in data ==>
      Pruned(data, ws, id, parents)[k] ==
      if (ListPrefix(ws) <= k || MyPrefix(ws) <= k) && data[k].Some?
      then Some(RemoveFromLists(id)(data[k].value)) else data[k]
  {
    FamiliesApart(ws, id, k);
    ChildrenPrunedOutside(ListsPruned(data, ws, id), ws, id, parents, k);
  }

  lemma {:induction false} ChildrenPrunedOutside(data: Store, ws: string, id: string, parents: seq<string>, k: Key)
    requires !(ChildrenPrefix(ws) <= k)
    ensures k in ChildrenPruned(data, ws, id, parents) <==> k in data
    ensures k in data ==> ChildrenPruned(data, ws, id, parents)[k] == data[k]
  {
    if parents != [] {
      var n := |parents| - 1;
      ChildrenPrunedOutside(data, ws, id, parents[..n], k);
      assert ChildrenPrefix(ws) <= ChildrenKey(ws, parents[n]);
    }
  }

  /** Every list and my-list cache becomes the cache without the issue when the deletion goes through, and stays
      otherwise; queries outside lists and children are untouched either way. */
  lemma ListsLoseTheIssue(data: Store, ws: string, id: string, parents: seq<string>, k: Key)
    requires k in data && !(ChildrenPrefix(ws) <= k)
    ensures k in DeletedFrom(data, ws, id, parents)
    ensures DeletedFrom(data, ws, id, parents)[k] ==
      if ListsBucketed(data, ws) && (ListPrefix(ws) <= k || MyPrefix(ws) <= k) && data[k].Some?
      then Some(RemoveFromLists(id)(data[k].value)) else data[k]
  {
    PrunedOutsideChildren(data, ws, id, parents, k);
  }

  /** A pruned cache is as bucketed as before. */
  lemma PrunedStaysBucketed(data: Store, ws: string, id: string, parents: seq<string>)
    requires ListsBucketed(data, ws)
    ensures ListsBucketed(Pruned(data, ws, id, parents), ws)
  {
    var after := Pruned(data, ws, id, parents);
    forall k | k in after && (ListPrefix(ws) <= k || MyPrefix(ws) <= k) ensures Bucketed(after[k]) {
      FamiliesApart(ws, id, k);
      PrunedOutsideChildren(data, ws, id, parents, k);
    }
  }

  predicate Holds(b: Buckets, s: Status, id: string) {
    FirstWithId(GetBucket(b, s).issues, id).Some?
  }

  function HoldersOf(b: Buckets, statuses: seq<Status>, id: string): seq<Status> {
    Filter((s: Status) => Holds(b, s, id), statuses)
  }

  lemma HoldersCons(b: Buckets, statuses: seq<Status>, id: string)
    requires statuses != []
    ensures HoldersOf(b, statuses, id) ==
      (if Holds(b, statuses[0], id) then [statuses[0]] else []) + HoldersOf(b, statuses[1..], id)
  {
  }

  /** The deleted id leaves every paginated bucket exactly when no two of them hold it. */
  lemma RemovedEverywhereIffHeldOnce(b: Buckets, id: string)
    ensures FindIssueLocation(RemoveIssueFromBuckets(b, id), id).None?
      <==> |HoldersOf(b, PAGINATED_STATUSES, id)| <= 1
  {
    if FindIssueLocation(b, id).Some? {
      RemovalFreesItsBucket(b, id);
      HeldOnceIn(b, RemoveIssueFromBuckets(b, id), PAGINATED_STATUSES, id, FindIssueLocation(b, id).value.status);
    } else {
      LocateIffHeld(b, PAGINATED_STATUSES, id);
    }
  }

  lemma HeldOnceIn(b: Buckets, after: Buckets, statuses: seq<Status>, id: string, at: Status)
    requires NoDup(statuses) && at in statuses
    requires forall s :: s != at ==> GetBucket(after, s) == GetBucket(b, s)
    requires !Holds(after, at, id) && Holds(b, at, id)
    ensures LocateIn(after, statuses, id).None? <==> |HoldersOf(b, statuses, id)| <= 1
  {
    LocateIffHeld(after, statuses, id);
    HoldersAfterRemoval(b, after, statuses, id, at);
  }

  lemma RemovalFreesItsBucket(b: Buckets, id: string)
    requires FindIssueLocation(b, id).Some?
    ensures var after, at := RemoveIssueFromBuckets(b, id), FindIssueLocation(b, id).value.status;
      && Holds(b, at, id) && !Holds(after, at, id) && at in PAGINATED_STATUSES
      && GetBucket(after, at).issues == Without(GetBucket(b, at).issues, id)
      && forall s :: s != at ==> GetBucket(after, s) == GetBucket(b, s)
  {
  }

  lemma {:induction false} LocateIffHeld(b: Buckets, statuses: seq<Status>, id: string)
    ensures LocateIn(b, statuses, id).None? <==> HoldersOf(b, statuses, id) == []
    ensures LocateIn(b, statuses, id).Some? ==> LocateIn(b, statuses, id).value.status in HoldersOf(b, statuses, id)
  {
    if statuses != [] {
      HoldersCons(b, statuses, id);
      LocateIffHeld(b, statuses[1..], id);
    }
  }

  lemma {:induction false} HoldersAfterRemoval(b: Buckets, after: Buckets, statuses: seq<Status>, id: string,
                                               at: Status)
    requires NoDup(statuses)
    requires forall s :: s != at ==> GetBucket(after, s) == GetBucket(b, s)
    requires !Holds(after, at, id) && Holds(b, at, id)
    ensures |HoldersOf(after, statuses, id)| == |HoldersOf(b, statuses, id)| - if at in statuses then 1 else 0
  {
    if statuses != [] {
      var first, rest := statuses[0], statuses[1..];
      assert statuses == [first] + rest;
      assert forall k :: 0 <= k < |rest| ==> rest[k] == statuses[k + 1];
      HoldersCons(b, statuses, id);
      HoldersCons(after, statuses, id);
      HoldersAfterRemoval(b, after, rest, id, at);
      assert first != at ==> (Holds(after, first, id) <==> Holds(b, first, id));
    }
  }

  /** Where a removal acts, it takes out the issue and nothing else. */
  lemma RemovalKeepsOthersInOrder(b: Buckets, id: string, s: Status)
    requires |HoldersOf(b, PAGINATED_STATUSES, id)| <= 1 && Paginated(s)
    ensures GetBucket(RemoveIssueFromBuckets(b, id), s).issues == Without(GetBucket(b, s).issues, id)
  {
    if FindIssueLocation(b, id).Some? {
      RemovalFreesItsBucket(b, id);
      var at := FindIssueLocation(b, id).value.status;
      SoleHolder(b, PAGINATED_STATUSES, id, s, at);
      if s != at { WithoutAbsent(GetBucket(b, s).issues, id); }
    } else {
      NowhereHeld(b, id, s);
      WithoutAbsent(GetBucket(b, s).issues, id);
    }
  }

  lemma NowhereHeld(b: Buckets, id: string, s: Status)
    requires FindIssueLocation(b, id).None? && Paginated(s)
    ensures !Holds(b, s, id)
  {
  }

  lemma SoleHolder(b: Buckets, statuses: seq<Status>, id: string, s: Status, t: Status)
    requires |HoldersOf(b, statuses, id)| <= 1 && s in statuses && t in statuses && Holds(b, t, id)
    ensures Holds(b, s, id) ==> s == t
  {
    var holders := HoldersOf(b, statuses, id);
    assert t in holders && holders[0] == t;
    assert Holds(b, s, id) ==> s in holders;
  }
}
