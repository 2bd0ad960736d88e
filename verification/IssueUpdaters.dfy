// Server events applied to the query cache: issues created, updated, deleted.

module IssueUpdaters {
  import opened Options
  import opened Seqs
  import opened Issues
  import opened IssueTracking
  import opened QueryCache
  import opened IssueKeys
  import opened DeleteCache
  import opened IssueMutations

  /** Every cached list has taken the event's step, and no list was added or lost. */
  ghost predicate ListsFollow(before: Store, after: Store, ws: string, e: Event) {
    forall k | ListPrefix(ws) <= k ::
      && (k in before <==> k in after)
      && (k in before && before[k].Some? && before[k].value.Lists? ==>
            after[k] == Some(Lists(CacheStep(before[k].value.buckets, e))))
  }

  method OnIssueCreated(qc: QueryClient, ws: string, issue: Issue)
    requires qc.Valid()
    modifies qc
    ensures qc.Valid() && qc.data == UpdateUnder(old(qc.data), ListPrefix(ws), AddToLists(issue))
    ensures ListsFollow(old(qc.data), qc.data, ws, Created(issue))
    ensures MarkedStale(qc, MyPrefix(ws)) && MarkedStale(qc, GanttPrefix(ws))
    ensures NonEmpty(issue.parentId) ==> MarkedStale(qc, ChildrenKey(ws, issue.parentId.value))
  {
    qc.UpdateQueries(ListPrefix(ws), AddToLists(issue));
    qc.InvalidateQueries(MyPrefix(ws));
    qc.InvalidateQueries(GanttPrefix(ws));
    if NonEmpty(issue.parentId) {
      qc.InvalidateQueries(ChildrenKey(ws, issue.parentId.value));
    }
  }

  function NewParent(p: Patch): Option<string> {
    if p.parentId.Some? then p.parentId.value else None
  }

  predicate ParentChanged(p: Patch, oldParent: Option<string>) {
    p.parentId.Some? && NewParent(p) != oldParent
  }

  /** The old parent, if the patch leaves the issue there. */
  function StayingParent(p: Patch, oldParent: Option<string>): Option<string> {
    if ParentChanged(p, oldParent) then None else oldParent
  }

  function AfterUpdate(data: Store, ws: string, id: string, p: Patch, oldParent: Option<string>): Store {
    CopiesUpdated(UpdateUnder(data, ListPrefix(ws), PatchLists(id, p)), ws, id, p, oldParent)
  }

  function CopiesUpdated(data: Store, ws: string, id: string, p: Patch, oldParent: Option<string>): Store {
    var withDetail := UpdateAt(data, DetailKey(ws, id), PatchDetail(p));
    if NonEmpty(oldParent) && !ParentChanged(p, oldParent)
    then UpdateAt(withDetail, ChildrenKey(ws, oldParent.value), PatchRows({id}, p))
    else withDetail
  }

  method OnIssueUpdated(qc: QueryClient, ws: string, id: string, patch: Patch)
    returns (ghost oldParentId: Option<string>)
    requires qc.Valid()
    modifies qc
    ensures qc.Valid() && qc.data == AfterUpdate(old(qc.data), ws, id, patch, oldParentId)
    ensures CachesTakePatch(old(qc.data), qc.data, ws, id, patch, StayingParent(patch, oldParentId))
    ensures NonEmpty(oldParentId) && (patch.parentId.None? || patch.parentId.value == oldParentId) ==>
      RowsTakePatch(Get(old(qc.data), ChildrenKey(ws, oldParentId.value)),
                    Get(qc.data, ChildrenKey(ws, oldParentId.value)), {id}, patch)
    ensures patch.parentId.Some? && patch.parentId.value != oldParentId ==>
      && (NonEmpty(oldParentId) ==> MarkedStale(qc, ChildrenKey(ws, oldParentId.value)))
      && (NonEmpty(patch.parentId.value) ==> MarkedStale(qc, ChildrenKey(ws, patch.parentId.value.value)))
    ensures oldParentId == NamedParent(Get(old(qc.data), DetailKey(ws, id)), old(qc.FirstUnder(ListPrefix(ws))), id)
    ensures ListsFollow(old(qc.data), qc.data, ws, Updated(id, patch))
    ensures MarkedStale(qc, MyPrefix(ws)) && MarkedStale(qc, GanttPrefix(ws))
    ensures patch.position.Some? ==> MarkedStale(qc, ListPrefix(ws))
  {
    var listQueries := SnapshotQueries(qc, ListPrefix(ws));
    var detail := qc.GetQueryData(DetailKey(ws, id));
    var oldParent := NamedParent(detail, FirstValue(listQueries), id);
    var changed := ParentChanged(patch, oldParent);
    oldParentId := oldParent;
    ghost var before := qc.data;

    qc.UpdateQueries(ListPrefix(ws), PatchLists(id, patch));
    MarkLists(qc, ws, patch.position.Some?);
    UpdateCopies(qc, ws, id, patch, oldParent);
    if changed { MarkParents(qc, ws, oldParent, NewParent(patch)); }
    UpdateFollows(before, ws, id, patch, oldParent);
    UpdateShowsPatch(before, ws, id, patch, StayingParent(patch, oldParent));
  }

  method MarkLists(qc: QueryClient, ws: string, positionChanged: bool)
    requires qc.Valid()
    modifies qc`stale
    ensures MarkedStale(qc, MyPrefix(ws)) && MarkedStale(qc, GanttPrefix(ws))
    ensures positionChanged ==> MarkedStale(qc, ListPrefix(ws))
    ensures old(qc.stale) <= qc.stale
  {
    if positionChanged { qc.InvalidateQueries(ListPrefix(ws)); }
    qc.InvalidateQueries(MyPrefix(ws));
    qc.InvalidateQueries(GanttPrefix(ws));
  }

  method MarkParents(qc: QueryClient, ws: string, oldParent: Option<string>, newParent: Option<string>)
    requires qc.Valid()
    modifies qc`stale
    ensures NonEmpty(oldParent) ==> MarkedStale(qc, ChildrenKey(ws, oldParent.value))
    ensures NonEmpty(newParent) ==> MarkedStale(qc, ChildrenKey(ws, newParent.value))
    ensures old(qc.stale) <= qc.stale
  {
    if NonEmpty(oldParent) { qc.InvalidateQueries(ChildrenKey(ws, oldParent.value)); }
    if NonEmpty(newParent) { qc.InvalidateQueries(ChildrenKey(ws, newParent.value)); }
  }

  /** The detail entry, and the row in the children cache of a parent that stays. */
  method UpdateCopies(qc: QueryClient, ws: string, id: string, patch: Patch, oldParent: Option<string>)
    requires qc.Valid()
    modifies qc
    ensures qc.Valid() && qc.data == CopiesUpdated(old(qc.data), ws, id, patch, oldParent)
    ensures DetailTakesPatch(Get(old(qc.data), DetailKey(ws, id)), Get(qc.data, DetailKey(ws, id)), patch)
    ensures var parent := StayingParent(patch, oldParent);
      NonEmpty(parent) ==>
        RowsTakePatch(Get(old(qc.data), ChildrenKey(ws, parent.value)), Get(qc.data, ChildrenKey(ws, parent.value)),
                      {id}, patch)
    ensures old(MarkedStale(qc, ListPrefix(ws))) ==> MarkedStale(qc, ListPrefix(ws))
    ensures old(MarkedStale(qc, MyPrefix(ws))) ==> MarkedStale(qc, MyPrefix(ws))
    ensures old(MarkedStale(qc, GanttPrefix(ws))) ==> MarkedStale(qc, GanttPrefix(ws))
  {
    CopyKeysApart(ws, id);
    CopiesTakePatch(qc.data, ws, id, patch, oldParent);
    UpdateOne(qc, DetailKey(ws, id), PatchDetail(patch));
    if NonEmpty(oldParent) && !ParentChanged(patch, oldParent) {
      CopyKeysApart(ws, oldParent.value);
      UpdateOne(qc, ChildrenKey(ws, oldParent.value), PatchRows({id}, patch));
    }
  }

  lemma CopiesTakePatch(data: Store, ws: string, id: string, p: Patch, oldParent: Option<string>)
    ensures var after, parent := CopiesUpdated(data, ws, id, p, oldParent), StayingParent(p, oldParent);
      && DetailTakesPatch(Get(data, DetailKey(ws, id)), Get(after, DetailKey(ws, id)), p)
      && (NonEmpty(parent) ==>
            RowsTakePatch(Get(data, ChildrenKey(ws, parent.value)), Get(after, ChildrenKey(ws, parent.value)), {id}, p))
  {
    FamiliesApart(ws, id, DetailKey(ws, id));
    PatchDetailTakesPatch(Get(data, DetailKey(ws, id)), p);
    if NonEmpty(oldParent) {
      FamiliesApart(ws, oldParent.value, ChildrenKey(ws, oldParent.value));
      PatchRowsTakePatch(Get(data, ChildrenKey(ws, oldParent.value)), {id}, p);
    }
  }

  predicate OutsideLists(ws: string, k: Key) {
    !(ListPrefix(ws) <= k) && !(MyPrefix(ws) <= k) && !(GanttPrefix(ws) <= k)
  }

  lemma CopyKeysApart(ws: string, id: string)
    ensures OutsideLists(ws, DetailKey(ws, id)) && OutsideLists(ws, ChildrenKey(ws, id))
  {
    FamiliesApart(ws, id, DetailKey(ws, id));
    FamiliesApart(ws, id, ChildrenKey(ws, id));
  }

  lemma UpdateFollows(data: Store, ws: string, id: string, p: Patch, oldParent: Option<string>)
    ensures ListsFollow(data, AfterUpdate(data, ws, id, p, oldParent), ws, Updated(id, p))
  {
    forall k | ListPrefix(ws) <= k
      ensures Get(AfterUpdate(data, ws, id, p, oldParent), k)
        == Get(UpdateUnder(data, ListPrefix(ws), PatchLists(id, p)), k)
      ensures k in AfterUpdate(data, ws, id, p, oldParent) <==> k in data
    {
      FamiliesApart(ws, id, k);
      if NonEmpty(oldParent) { FamiliesApart(ws, oldParent.value, k); }
    }
  }

  // ----- Deletion -----

  /** Per-issue queries whose keys carry no workspace id. */
  function ScopedKeys(id: string): seq<Key> {
    [[Str("issues"), Str("timeline"), Str(id)], [Str("issues"), Str("reactions"), Str(id)],
     [Str("issues"), Str("subscribers"), Str(id)], [Str("issues"), Str("usage"), Str(id)],
     [Str("issues"), Str("attachments"), Str(id)], [Str("issues"), Str("tasks"), Str(id)]]
  }

  /** The workspace id is not the name of one of those families. */
  predicate PlainWorkspace(ws: string) {
    forall i :: 0 <= i < |ScopedKeys("")| ==> ScopedKeys("")[i][1] != Str(ws)
  }

  function RemovedAll(data: Store, prefixes: seq<Key>): Store {
    if prefixes == [] then data
    else RemoveUnder(RemovedAll(data, prefixes[..|prefixes| - 1]), prefixes[|prefixes| - 1])
  }

  function RemovedKeys(ws: string, id: string): seq<Key> {
    [DetailKey(ws, id)] + ScopedKeys(id) + [ChildrenKey(ws, id), LabelsKey(ws, id)]
  }

  function CleanedUp(data: Store, ws: string, id: string, parents: seq<string>): Store {
    RemovedAll(Pruned(data, ws, id, parents), RemovedKeys(ws, id))
  }

  method RemoveAll(qc: QueryClient, prefixes: seq<Key>)
    requires qc.Valid()
    modifies qc
    ensures qc.Valid() && qc.data == RemovedAll(old(qc.data), prefixes)
    ensures forall prefix :: old(MarkedStale(qc, prefix)) ==> MarkedStale(qc, prefix)
  {
    for i := 0 to |prefixes|
      invariant qc.Valid() && qc.data == RemovedAll(old(qc.data), prefixes[..i])
      invariant forall k :: k in qc.data ==> k in old(qc.data)
      invariant forall k :: k in old(qc.stale) && k in qc.data ==> k in qc.stale
    {
      assert prefixes[..i + 1][..i] == prefixes[..i];
      qc.RemoveQueries(prefixes[i]);
    }
    assert prefixes[..|prefixes|] == prefixes;
  }

  method InvalidateDeletedIssueParentCaches(qc: QueryClient, ws: string, parents: seq<string>)
    requires qc.Valid()
    modifies qc`stale
    ensures forall p :: p in parents ==> MarkedStale(qc, ChildrenKey(ws, p))
    ensures old(qc.stale) <= qc.stale
  {
    for i := 0 to |parents|
      invariant qc.Valid() && old(qc.stale) <= qc.stale
      invariant forall j :: 0 <= j < i ==> MarkedStale(qc, ChildrenKey(ws, parents[j]))
    {
      qc.InvalidateQueries(ChildrenKey(ws, parents[i]));
    }
  }

  /** The cleanup with parents collected earlier: it goes through exactly when all loaded lists and my-lists are
      bucketed now, and otherwise stops after some of them. */
  method CleanupDeletedIssueCaches(qc: QueryClient, ws: string, id: string, parents: seq<string>)
    returns (ok: bool, ghost done: set<Key>)
    requires qc.Valid()
    modifies qc
    ensures qc.Valid() && (ok <==> ListsBucketed(old(qc.data), ws))
    ensures !ok ==> qc.data == UpdateKeys(old(qc.data), done, RemoveFromLists(id))
    ensures !ok ==> forall k :: k in done ==> ListPrefix(ws) <= k || MyPrefix(ws) <= k
    ensures ok ==> qc.data == CleanedUp(old(qc.data), ws, id, parents)
    ensures ok ==> MarkedStale(qc, ListPrefix(ws)) && MarkedStale(qc, MyPrefix(ws)) && MarkedStale(qc, GanttPrefix(ws))
    ensures ok ==> forall p :: p in parents ==> MarkedStale(qc, ChildrenKey(ws, p))
  {
    ok, done := PruneDeletedIssueFromListCaches(qc, ws, id);
    if !ok { return; }
    PruneDeletedIssueFromParentChildrenCaches(qc, ws, id, parents);
    InvalidateDeletedIssueParentCaches(qc, ws, parents);
    RemoveAll(qc, RemovedKeys(ws, id));
    qc.InvalidateQueries(ListPrefix(ws));
    qc.InvalidateQueries(MyPrefix(ws));
    qc.InvalidateQueries(GanttPrefix(ws));
  }

  /** The event goes through exactly when all loaded lists and my-lists are bucketed; otherwise it throws while
      collecting the parents and changes nothing. */
  method OnIssueDeleted(qc: QueryClient, ws: string, id: string) returns (parents: Outcome<seq<string>>)
    requires qc.Valid()
    modifies qc
    ensures qc.Valid() && (parents.Returned? <==> ListsBucketed(old(qc.data), ws))
    ensures parents.Threw? ==> qc.data == old(qc.data) && qc.stale == old(qc.stale)
    ensures parents.Returned? ==>
      && NoDup(parents.value) && (forall p :: p in parents.value <==> IsParentSource(old(qc.data), ws, id, p))
      && qc.data == CleanedUp(old(qc.data), ws, id, parents.value)
      && (PlainWorkspace(ws) ==> ListsFollow(old(qc.data), qc.data, ws, Deleted(id)))
      && MarkedStale(qc, ListPrefix(ws)) && MarkedStale(qc, MyPrefix(ws)) && MarkedStale(qc, GanttPrefix(ws))
      && forall p :: p in parents.value ==> MarkedStale(qc, ChildrenKey(ws, p))
  {
    parents := CollectDeletedIssueCacheMetadata(qc, ws, id);
    if parents.Threw? { return; }
    if PlainWorkspace(ws) { CleanupFollows(qc.data, ws, id, parents.value); }
    var ok, _ := CleanupDeletedIssueCaches(qc, ws, id, parents.value);
  }

  predicate StartsWithAny(k: Key, prefixes: seq<Key>) {
    exists p :: p in prefixes && p <= k
  }

  lemma {:induction false} RemovedAllAt(data: Store, prefixes: seq<Key>, k: Key)
    ensures k in RemovedAll(data, prefixes) <==> k in data && !StartsWithAny(k, prefixes)
    ensures k in RemovedAll(data, prefixes) ==> RemovedAll(data, prefixes)[k] == data[k]
  {
    if prefixes != [] {
      var n := |prefixes| - 1;
      assert prefixes == prefixes[..n] + [prefixes[n]];
      RemovedAllAt(data, prefixes[..n], k);
      if p :| p in prefixes && p <= k {
        assert p in prefixes[..n] || p == prefixes[n];
      }
      if p :| p in prefixes[..n] && p <= k {
        assert p in prefixes;
      }
      var last := prefixes[n];
      assert last in prefixes && (last <= k ==> StartsWithAny(k, prefixes));
      assert RemovedAll(data, prefixes) == RemoveUnder(RemovedAll(data, prefixes[..n]), last);
    }
  }

  /** Queries about the issue itself, by the words of their keys. */
  predicate OwnQuery(ws: string, id: string, k: Key) {
    || [Str("issues"), Str(ws), Str("detail"), Str(id)] <= k
    || [Str("issues"), Str(ws), Str("children"), Str(id)] <= k
    || [Str("labels"), Str(ws), Str("issue"), Str(id)] <= k
    || (|k| >= 3 && k[0] == Str("issues") && k[1].Str? && k[2] == Str(id)
        && k[1].s in {"timeline", "reactions", "subscribers", "usage", "attachments", "tasks"})
  }

  /** The cleanup removes exactly the queries about the issue itself; the others keep what the pruning left. */
  lemma CleanupRemovesOwnQueries(data: Store, ws: string, id: string, parents: seq<string>, k: Key)
    ensures k in CleanedUp(data, ws, id, parents) <==> k in Pruned(data, ws, id, parents) && !OwnQuery(ws, id, k)
    ensures k in CleanedUp(data, ws, id, parents) ==>
      CleanedUp(data, ws, id, parents)[k] == Pruned(data, ws, id, parents)[k]
  {
    RemovedAllAt(Pruned(data, ws, id, parents), RemovedKeys(ws, id), k);
    OwnQueryIs(ws, id, k);
  }

  lemma OwnQueryIs(ws: string, id: string, k: Key)
    ensures StartsWithAny(k, RemovedKeys(ws, id)) <==> OwnQuery(ws, id, k)
  {
    var scoped := ScopedKeys(id);
    StartsWithEither(k, [DetailKey(ws, id)] + scoped, [ChildrenKey(ws, id), LabelsKey(ws, id)]);
    StartsWithEither(k, [DetailKey(ws, id)], scoped);
    assert [DetailKey(ws, id)][0] in [DetailKey(ws, id)];
    var own := [ChildrenKey(ws, id), LabelsKey(ws, id)];
    assert own[0] in own && own[1] in own;
    assert scoped[0] in scoped && scoped[1] in scoped && scoped[2] in scoped;
    assert scoped[3] in scoped && scoped[4] in scoped && scoped[5] in scoped;
  }

  lemma StartsWithEither(k: Key, a: seq<Key>, b: seq<Key>)
    ensures StartsWithAny(k, a + b) <==> StartsWithAny(k, a) || StartsWithAny(k, b)
  {
    if p :| p in a && p <= k { assert p in a + b; }
    if p :| p in b && p <= k { assert p in a + b; }
  }

  lemma CleanupFollows(data: Store, ws: string, id: string, parents: seq<string>)
    requires PlainWorkspace(ws)
    ensures ListsFollow(data, CleanedUp(data, ws, id, parents), ws, Deleted(id))
  {
    var pruned := Pruned(data, ws, id, parents);
    forall k | ListPrefix(ws) <= k
      ensures k in CleanedUp(data, ws, id, parents) <==> k in data
      ensures k in data ==>
        CleanedUp(data, ws, id, parents)[k] ==
          if data[k].Some? then Some(RemoveFromLists(id)(data[k].value)) else data[k]
    {
      RemovedAllAt(pruned, RemovedKeys(ws, id), k);
      ListKeyIsKept(ws, id, k);
      FamiliesApart(ws, id, k);
      PrunedOutsideChildren(data, ws, id, parents, k);
    }
  }

  lemma ListKeyIsKept(ws: string, id: string, k: Key)
    requires PlainWorkspace(ws) && ListPrefix(ws) <= k
    ensures forall p :: p in RemovedKeys(ws, id) ==> !(p <= k)
  {
    FamiliesApart(ws, id, k);
    assert ChildrenPrefix(ws) == ChildrenKey(ws, id)[..3];
    assert k[1] == Str(ws);
    var scoped := ScopedKeys(id);
    forall p | p in scoped ensures !(p <= k) {
      var i :| 0 <= i < |scoped| && scoped[i] == p;
      assert p[1] == ScopedKeys("")[i][1];
    }
  }

  // ----- Runs -----

  /** A cached list that follows every event of a run holds the state the run computes. */
  lemma {:induction false} ListFollowsRun(stores: seq<Store>, ws: string, events: seq<Event>, k: Key, w: World)
    requires |stores| == |events| + 1 && ListPrefix(ws) <= k
    requires forall i :: 0 <= i < |events| ==> FollowsAt(stores, ws, events, i)
    requires Get(stores[0], k) == Some(Lists(w.resp))
    ensures Get(stores[|events|], k) == Some(Lists(Run(w, events).resp))
    decreases |events|
  {
    if events != [] {
      assert FollowsAt(stores, ws, events, 0);
      assert forall i :: 0 <= i < |events| - 1 ==>
        (FollowsAt(stores[1..], ws, events[1..], i) <== FollowsAt(stores, ws, events, i + 1));
      ListFollowsRun(stores[1..], ws, events[1..], k, Step(w, events[0]));
    }
  }

  ghost predicate FollowsAt(stores: seq<Store>, ws: string, events: seq<Event>, i: nat)
    requires i < |events| && |stores| == |events| + 1
  {
    ListsFollow(stores[i], stores[i + 1], ws, events[i])
  }

  /** After any run of server events without returns, every cached list that was fully loaded shows
      exactly the server's issues in paginated statuses. */
  lemma CachedListsEqualServer(stores: seq<Store>, ws: string, events: seq<Event>, k: Key, resp: Buckets,
                               server: Server)
    requires |stores| == |events| + 1 && ListPrefix(ws) <= k
    requires forall i :: 0 <= i < |events| ==> FollowsAt(stores, ws, events, i)
    requires Get(stores[0], k) == Some(Lists(resp))
    requires Valid(resp) && ServerValid(server) && Tracks(resp, server, {})
    requires LegalRun(server, events) && !SomeReturn(server, events)
    ensures var last := Get(stores[|events|], k);
      && last.Some? && last.value.Lists? && Valid(last.value.buckets)
      && Tracks(last.value.buckets, Run(World(resp, server, {}), events).server, {})
  {
    ListFollowsRun(stores, ws, events, k, World(resp, server, {}));
    FullyLoadedStaysEqual(resp, server, events);
  }
}
