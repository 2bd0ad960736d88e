// The optimistic issue mutations: each onMutate snapshots what it is about to
// rewrite, and onError puts the snapshots back.

module IssueMutations {
  import opened Options
  import opened Seqs
  import opened Issues
  import opened IssueTracking
  import opened QueryCache
  import opened IssueKeys
  import opened DeleteCache

  // ----- Update -----

  datatype UpdateContext = UpdateContext(
    prevLists: seq<Snapshot>, prevDetail: Option<Data>, prevChildren: Option<Data>, parentId: Option<string>,
    id: string)

  /** The parent named by the detail, else by the first list; an empty name still counts as named. */
  function NamedParent(detail: Option<Data>, firstList: Option<Data>, id: string): Option<string> {
    if DetailParent(detail).Some? then DetailParent(detail) else ListParent(firstList, id)
  }

  function FirstValue(snaps: seq<Snapshot>): Option<Data> {
    if snaps == [] then None else snaps[0].value
  }

  /** The parent whose children cache is the first to hold the issue. */
  function FirstHolder(snaps: seq<Snapshot>, id: string): Option<string> {
    if snaps == [] then None
    else if HasRow(snaps[0].value, id) && LastString(snaps[0].key).Some? then LastString(snaps[0].key)
    else FirstHolder(snaps[1..], id)
  }

  function UpdateMutated(data: Store, ws: string, id: string, p: Patch, parent: Option<string>): Store {
    var withLists := UpdateUnder(data, ListPrefix(ws), PatchLists(id, p));
    var withDetail := UpdateAt(withLists, DetailKey(ws, id), PatchDetail(p));
    if NonEmpty(parent) then UpdateAt(withDetail, ChildrenKey(ws, parent.value), PatchRows({id}, p)) else withDetail
  }

  /** The detail entry names the parent when it has one; otherwise the first list does, if it shows the issue. */
  lemma NamedParentIs(detail: Option<Data>, firstList: Option<Data>, id: string)
    ensures detail.Some? && detail.value.Detail? && detail.value.issue.parentId.Some? ==>
      NamedParent(detail, firstList, id) == detail.value.issue.parentId
    ensures !(detail.Some? && detail.value.Detail? && detail.value.issue.parentId.Some?) ==>
      NamedParent(detail, firstList, id) ==
        if firstList.Some? && firstList.value.Lists? && Lookup(firstList.value.buckets, id).Some?
        then Lookup(firstList.value.buckets, id).value.parentId else None
  {
  }

  /** The cache under key k is keyed by a parent and holds a row of the issue. */
  predicate HoldsRow(s: Snapshot, id: string) {
    && s.key != [] && s.key[|s.key| - 1].Str?
    && s.value.Some? && s.value.value.Rows? && exists i :: i in s.value.value.issues && i.id == id
  }

  lemma HoldsRowIs(s: Snapshot, id: string)
    ensures HoldsRow(s, id) <==> HasRow(s.value, id) && LastString(s.key).Some?
  {
    if s.value.Some? && s.value.value.Rows? {
      assert forall i :: 0 <= i < |s.value.value.issues| ==> s.value.value.issues[i] in s.value.value.issues;
    }
  }

  /** A non-empty named parent decides; otherwise the first children cache that holds the issue does, if any. */
  lemma ConcernedParentIs(named: Option<string>, children: seq<Snapshot>, id: string)
    ensures named.Some? && named.value != "" ==> ConcernedParent(named, children, id) == named
    ensures (forall s :: s in children ==> !HoldsRow(s, id)) ==> ConcernedParent(named, children, id) == named
    ensures named.None? || named.value == "" ==>
      forall k: nat | FirstHolderAt(children, id, k) :: ConcernedParent(named, children, id) == ParentPart(children[k])
  {
    if forall s :: s in children ==> !HoldsRow(s, id) { NoHolder(children, id); }
    forall k: nat | FirstHolderAt(children, id, k) { FirstHolderIs(children, id, k); }
  }

  predicate FirstHolderAt(children: seq<Snapshot>, id: string, k: nat) {
    k < |children| && HoldsRow(children[k], id) && forall j :: 0 <= j < k ==> !HoldsRow(children[j], id)
  }

  function ParentPart(s: Snapshot): Option<string>
    requires s.key != [] && s.key[|s.key| - 1].Str?
  {
    Some(s.key[|s.key| - 1].s)
  }

  lemma {:induction false} FirstHolderIs(children: seq<Snapshot>, id: string, k: nat)
    requires FirstHolderAt(children, id, k)
    ensures FirstHolder(children, id) == ParentPart(children[k])
  {
    HoldsRowIs(children[0], id);
    if k > 0 {
      assert forall j :: 0 <= j < k ==> children[1..][j] == children[j + 1];
      FirstHolderIs(children[1..], id, k - 1);
    }
  }

  lemma {:induction false} NoHolder(children: seq<Snapshot>, id: string)
    requires forall s :: s in children ==> !HoldsRow(s, id)
    ensures FirstHolder(children, id) == None
  {
    if children != [] {
      HoldsRowIs(children[0], id);
      NoHolder(children[1..], id);
    }
  }

  /** The optimistic update shows the patch, field by field, wherever it reaches. */
  lemma UpdateShowsPatch(data: Store, ws: string, id: string, p: Patch, parent: Option<string>)
    ensures CachesTakePatch(data, UpdateMutated(data, ws, id, p, parent), ws, id, p, parent)
  {
    var after := UpdateMutated(data, ws, id, p, parent);
    UpdatedAt(data, ws, id, p, parent);
    FamiliesApart(ws, id, DetailKey(ws, id));
    PatchListsTakePatch(data, ws, id, p);
    PatchDetailTakesPatch(Get(data, DetailKey(ws, id)), p);
    if NonEmpty(parent) {
      FamiliesApart(ws, parent.value, ChildrenKey(ws, parent.value));
      FamiliesApart(ws, id, ChildrenKey(ws, parent.value));
      PatchRowsTakePatch(Get(data, ChildrenKey(ws, parent.value)), {id}, p);
    }
  }

  lemma UpdatedAt(data: Store, ws: string, id: string, p: Patch, parent: Option<string>)
    ensures UpdateMutated(data, ws, id, p, parent).Keys == data.Keys
    ensures forall k ::
      Get(UpdateMutated(data, ws, id, p, parent), k) == (
        if Get(data, k).None? then None
        else if ListPrefix(ws) <= k then Some(PatchLists(id, p)(data[k].value))
        else if k == DetailKey(ws, id) then Some(PatchDetail(p)(data[k].value))
        else if IsChildrenOf(ws, parent, k) then Some(PatchRows({id}, p)(data[k].value))
        else Get(data, k))
  {
    FamiliesApart(ws, id, DetailKey(ws, id));
    if NonEmpty(parent) { FamiliesApart(ws, parent.value, ChildrenKey(ws, parent.value)); }
    FamiliesApart(ws, id, if NonEmpty(parent) then ChildrenKey(ws, parent.value) else []);
  }

  ghost predicate IsUpdateContext(data: Store, ws: string, id: string, ctx: UpdateContext) {
    && ctx.id == id
    && Snapshots(data, ctx.prevLists, (k: Key) => ListPrefix(ws) <= k)
    && ctx.prevDetail == Get(data, DetailKey(ws, id))
    && (NonEmpty(ctx.parentId) ==> ctx.prevChildren == Get(data, ChildrenKey(ws, ctx.parentId.value)))
  }

  method FindHolder(snaps: seq<Snapshot>, id: string) returns (parentId: Option<string>)
    ensures parentId == FirstHolder(snaps, id)
  {
    parentId := None;
    var i := 0;
    while i < |snaps| && parentId.None?
      invariant 0 <= i <= |snaps|
      invariant FirstHolder(snaps, id) == if parentId.Some? then parentId else FirstHolder(snaps[i..], id)
    {
      if HasRow(snaps[i].value, id) {
        parentId := LastString(snaps[i].key);
      }
      assert snaps[i..][1..] == snaps[i + 1..];
      i := i + 1;
    }
  }

  /** The parent that an update concerns: the named one, else the first children cache that holds the issue. */
  function ConcernedParent(named: Option<string>, children: seq<Snapshot>, id: string): Option<string> {
    if NonEmpty(named) then named
    else if FirstHolder(children, id).Some? then FirstHolder(children, id) else named
  }

  method PrepareUpdate(qc: QueryClient, ws: string, id: string)
    returns (ctx: UpdateContext, ghost children: seq<Snapshot>)
    requires qc.Valid()
    ensures IsUpdateContext(qc.data, ws, id, ctx)
    ensures Snapshots(qc.data, children, (k: Key) => ChildrenPrefix(ws) <= k)
    ensures ctx.parentId ==
      ConcernedParent(NamedParent(Get(qc.data, DetailKey(ws, id)), qc.FirstUnder(ListPrefix(ws)), id), children, id)
  {
    var prevLists := SnapshotQueries(qc, ListPrefix(ws));
    var prevDetail := qc.GetQueryData(DetailKey(ws, id));
    var parentId := NamedParent(prevDetail, FirstValue(prevLists), id);
    var childrenCaches := SnapshotQueries(qc, ChildrenPrefix(ws));
    if !NonEmpty(parentId) {
      var holder := FindHolder(childrenCaches, id);
      if holder.Some? { parentId := holder; }
    }
    var prevChildren := None;
    if NonEmpty(parentId) {
      prevChildren := qc.GetQueryData(ChildrenKey(ws, parentId.value));
    }
    ctx, children := UpdateContext(prevLists, prevDetail, prevChildren, parentId, id), childrenCaches;
  }

  method SnapshotQueries(qc: QueryClient, prefix: Key) returns (snaps: seq<Snapshot>)
    requires qc.Valid()
    ensures Snapshots(qc.data, snaps, (k: Key) => prefix <= k)
    ensures NoDup(snaps) && forall s :: s in snaps ==> s.key in qc.data
    ensures |snaps| == |qc.Matching(prefix)| && forall i :: 0 <= i < |snaps| ==> snaps[i].key == qc.Matching(prefix)[i]
    ensures FirstValue(snaps) == qc.FirstUnder(prefix)
  {
    snaps := qc.GetQueriesData(prefix);
    assert snaps != [] ==> snaps[0] in snaps;
    forall s | s in snaps ensures s.key in qc.data && prefix <= s.key && s.value == Get(qc.data, s.key) {
      assert InStore(qc.data, s, prefix);
    }
  }

  method UpdateOnMutate(qc: QueryClient, ws: string, id: string, patch: Patch)
    returns (ctx: UpdateContext, ghost children: seq<Snapshot>)
    requires qc.Valid()
    modifies qc
    ensures qc.Valid() && qc.data == UpdateMutated(old(qc.data), ws, id, patch, ctx.parentId)
    ensures CachesTakePatch(old(qc.data), qc.data, ws, id, patch, ctx.parentId)
    ensures IsUpdateContext(old(qc.data), ws, id, ctx)
    ensures Snapshots(old(qc.data), children, (k: Key) => ChildrenPrefix(ws) <= k)
    ensures ctx.parentId ==
      ConcernedParent(NamedParent(Get(old(qc.data), DetailKey(ws, id)), old(qc.FirstUnder(ListPrefix(ws))), id),
                      children, id)
  {
    ctx, children := PrepareUpdate(qc, ws, id);
    UpdateShowsPatch(qc.data, ws, id, patch, ctx.parentId);
    ApplyUpdate(qc, ws, id, patch, ctx.parentId);
  }

  method ApplyUpdate(qc: QueryClient, ws: string, id: string, patch: Patch, parentId: Option<string>)
    requires qc.Valid()
    modifies qc
    ensures qc.Valid() && qc.data == UpdateMutated(old(qc.data), ws, id, patch, parentId)
  {
    qc.UpdateQueries(ListPrefix(ws), PatchLists(id, patch));
    UpdateOne(qc, DetailKey(ws, id), PatchDetail(patch));
    if NonEmpty(parentId) {
      UpdateOne(qc, ChildrenKey(ws, parentId.value), PatchRows({id}, patch));
    }
  }

  /** `setQueryData` with an updater that leaves missing data missing. */
  method UpdateOne(qc: QueryClient, key: Key, f: Data -> Data)
    requires qc.Valid()
    modifies qc
    ensures qc.Valid() && qc.data == UpdateAt(old(qc.data), key, f)
    ensures forall prefix :: !(prefix <= key) && old(MarkedStale(qc, prefix)) ==> MarkedStale(qc, prefix)
  {
    var current := qc.GetQueryData(key);
    qc.SetQueryData(key, if current.Some? then Some(f(current.value)) else None);
  }

  function UpdateSnapshots(ws: string, ctx: UpdateContext): seq<Snapshot> {
    ctx.prevLists + [Snapshot(DetailKey(ws, ctx.id), ctx.prevDetail)]
    + if NonEmpty(ctx.parentId) then [Snapshot(ChildrenKey(ws, ctx.parentId.value), ctx.prevChildren)] else []
  }

  method UpdateOnError(qc: QueryClient, ws: string, ctx: UpdateContext)
    requires qc.Valid()
    modifies qc
    ensures qc.Valid() && qc.data == Restore(old(qc.data), UpdateSnapshots(ws, ctx))
  {
    RestoreConcat(qc.data, ctx.prevLists, [Snapshot(DetailKey(ws, ctx.id), ctx.prevDetail)]);
    ghost var before := qc.data;
    qc.RestoreQueries(ctx.prevLists);
    if ctx.prevDetail.Some? {
      qc.SetQueryData(DetailKey(ws, ctx.id), ctx.prevDetail);
    }
    var two := ctx.prevLists + [Snapshot(DetailKey(ws, ctx.id), ctx.prevDetail)];
    assert two[..|two| - 1] == ctx.prevLists;
    assert qc.data == Restore(before, two);
    if NonEmpty(ctx.parentId) {
      var three := two + [Snapshot(ChildrenKey(ws, ctx.parentId.value), ctx.prevChildren)];
      assert three[..|three| - 1] == two;
      if ctx.prevChildren.Some? {
        qc.SetQueryData(ChildrenKey(ws, ctx.parentId.value), ctx.prevChildren);
      }
    } else {
      assert two + [] == two;
    }
  }

  lemma SingleSnapshot(data: Store, key: Key, value: Option<Data>)
    requires value == Get(data, key)
    ensures Snapshots(data, [Snapshot(key, value)], (k: Key) => k == key)
  {
  }

  /** A failed update leaves every cache as it was, whatever the caches hold. */
  lemma UpdateRollsBack(data: Store, ws: string, id: string, p: Patch, ctx: UpdateContext)
    requires IsUpdateContext(data, ws, id, ctx)
    ensures Restore(UpdateMutated(data, ws, id, p, ctx.parentId), UpdateSnapshots(ws, ctx)) == data
  {
    var lists, detail := (k: Key) => ListPrefix(ws) <= k, (k: Key) => k == DetailKey(ws, id);
    var touched := (k: Key) => ListPrefix(ws) <= k || k == DetailKey(ws, id)
      || (NonEmpty(ctx.parentId) && k == ChildrenKey(ws, ctx.parentId.value));
    var a := UpdateUnder(data, ListPrefix(ws), PatchLists(id, p));
    var b := UpdateAt(a, DetailKey(ws, id), PatchDetail(p));
    UpdateUnderRewrites(data, ListPrefix(ws), PatchLists(id, p), touched);
    UpdateAtRewrites(a, DetailKey(ws, id), PatchDetail(p), touched);
    RewritesTrans(data, a, b, touched);

    var two := ctx.prevLists + [Snapshot(DetailKey(ws, id), ctx.prevDetail)];
    SingleSnapshot(data, DetailKey(ws, id), ctx.prevDetail);
    SnapshotsConcat(data, ctx.prevLists, [Snapshot(DetailKey(ws, id), ctx.prevDetail)], lists, detail,
      (k: Key) => ListPrefix(ws) <= k || k == DetailKey(ws, id));
    if NonEmpty(ctx.parentId) {
      var key := ChildrenKey(ws, ctx.parentId.value);
      var c := UpdateAt(b, key, PatchRows({id}, p));
      UpdateAtRewrites(b, key, PatchRows({id}, p), touched);
      RewritesTrans(data, b, c, touched);
      SingleSnapshot(data, key, ctx.prevChildren);
      SnapshotsConcat(data, two, [Snapshot(key, ctx.prevChildren)],
        (k: Key) => ListPrefix(ws) <= k || k == DetailKey(ws, id), (k: Key) => k == key, touched);
      SnapshotsUndo(data, c, two + [Snapshot(key, ctx.prevChildren)], touched);
    } else {
      assert two + [] == two;
      SnapshotsUndo(data, b, two, touched);
    }
  }

  // ----- Delete -----

  datatype DeleteContext = DeleteContext(
    id: string, parents: seq<string>, prevLists: seq<Snapshot>, prevMyLists: seq<Snapshot>,
    prevDetail: Option<Data>, prevChildren: seq<Snapshot>)

  /** The keys that pruning an issue with these parents may rewrite. */
  function PruneTouches(ws: string, parents: seq<string>): Key -> bool {
    (k: Key) => ListPrefix(ws) <= k || MyPrefix(ws) <= k || (exists p :: p in parents && k == ChildrenKey(ws, p))
  }

  function PruneSnapshots(ctx: DeleteContext): seq<Snapshot> {
    ctx.prevLists + ctx.prevMyLists + ctx.prevChildren
  }

  ghost predicate IsDeleteContext(data: Store, ws: string, id: string, ctx: DeleteContext) {
    && ctx.id == id && NoDup(ctx.parents)
    && (forall p :: p in ctx.parents <==> IsParentSource(data, ws, id, p))
    && Snapshots(data, PruneSnapshots(ctx), PruneTouches(ws, ctx.parents))
    && ctx.prevDetail == Get(data, DetailKey(ws, id))
  }

  method SnapshotChildren(qc: QueryClient, ws: string, parents: seq<string>) returns (snaps: seq<Snapshot>)
    ensures Snapshots(qc.data, snaps, (k: Key) => exists p :: p in parents && k == ChildrenKey(ws, p))
  {
    snaps := [];
    for i := 0 to |parents|
      invariant |snaps| == i
      invariant forall j :: 0 <= j < i ==>
        snaps[j] == Snapshot(ChildrenKey(ws, parents[j]), Get(qc.data, ChildrenKey(ws, parents[j])))
    {
      var value := qc.GetQueryData(ChildrenKey(ws, parents[i]));
      snaps := snaps + [Snapshot(ChildrenKey(ws, parents[i]), value)];
    }
    forall k, p | k in qc.data && p in parents && k == ChildrenKey(ws, p)
      ensures Snapshot(k, qc.data[k]) in snaps
    {
      var j :| 0 <= j < |parents| && parents[j] == p;
      assert snaps[j] == Snapshot(k, qc.data[k]);
    }
  }

  lemma PruneSnapshotsCover(data: Store, ws: string, parents: seq<string>,
                            lists: seq<Snapshot>, mine: seq<Snapshot>, children: seq<Snapshot>)
    requires Snapshots(data, lists, (k: Key) => ListPrefix(ws) <= k)
    requires Snapshots(data, mine, (k: Key) => MyPrefix(ws) <= k)
    requires Snapshots(data, children, (k: Key) => exists p :: p in parents && k == ChildrenKey(ws, p))
    ensures Snapshots(data, lists + mine + children, PruneTouches(ws, parents))
  {
    SnapshotsConcat(data, lists, mine, (k: Key) => ListPrefix(ws) <= k, (k: Key) => MyPrefix(ws) <= k,
      (k: Key) => ListPrefix(ws) <= k || MyPrefix(ws) <= k);
    SnapshotsConcat(data, lists + mine, children, (k: Key) => ListPrefix(ws) <= k || MyPrefix(ws) <= k,
      (k: Key) => exists p :: p in parents && k == ChildrenKey(ws, p), PruneTouches(ws, parents));
  }

  /** Throws before anything is changed unless all loaded lists and my-lists are bucketed. */
  method DeleteOnMutate(qc: QueryClient, ws: string, id: string) returns (ctx: Outcome<DeleteContext>)
    requires qc.Valid()
    modifies qc
    ensures qc.Valid() && (ctx.Returned? <==> ListsBucketed(old(qc.data), ws))
    ensures ctx.Threw? ==> qc.data == old(qc.data) && qc.stale == old(qc.stale)
    ensures ctx.Returned? ==>
      && qc.data == RemoveUnder(Pruned(old(qc.data), ws, id, ctx.value.parents), DetailKey(ws, id))
      && IsDeleteContext(old(qc.data), ws, id, ctx.value)
  {
    var metadata := CollectDeletedIssueCacheMetadata(qc, ws, id);
    if metadata.Threw? { return Threw; }
    var context := SnapshotForDelete(qc, ws, id, metadata.value);
    PruneAfterCollect(qc, ws, id, metadata.value);
    qc.RemoveQueries(DetailKey(ws, id));
    return Returned(context);
  }

  method SnapshotForDelete(qc: QueryClient, ws: string, id: string, parents: seq<string>) returns (ctx: DeleteContext)
    requires qc.Valid() && NoDup(parents) && forall p :: p in parents <==> IsParentSource(qc.data, ws, id, p)
    ensures IsDeleteContext(qc.data, ws, id, ctx) && ctx.parents == parents
  {
    var prevLists := SnapshotQueries(qc, ListPrefix(ws));
    var prevMyLists := SnapshotQueries(qc, MyPrefix(ws));
    var prevDetail := qc.GetQueryData(DetailKey(ws, id));
    var prevChildren := SnapshotChildren(qc, ws, parents);
    PruneSnapshotsCover(qc.data, ws, parents, prevLists, prevMyLists, prevChildren);
    ctx := DeleteContext(id, parents, prevLists, prevMyLists, prevDetail, prevChildren);
  }

  /** Both prunes; they cannot throw once the parents have been collected. */
  method PruneAfterCollect(qc: QueryClient, ws: string, id: string, parents: seq<string>)
    requires qc.Valid() && ListsBucketed(qc.data, ws)
    modifies qc
    ensures qc.Valid() && qc.data == Pruned(old(qc.data), ws, id, parents) && ListsBucketed(qc.data, ws)
  {
    PrunedStaysBucketed(qc.data, ws, id, parents);
    var ok, _ := PruneDeletedIssueFromListCaches(qc, ws, id);
    PruneDeletedIssueFromParentChildrenCaches(qc, ws, id, parents);
  }

  function DeleteSnapshots(ws: string, ctx: DeleteContext): seq<Snapshot> {
    ctx.prevLists + ctx.prevMyLists + [Snapshot(DetailKey(ws, ctx.id), ctx.prevDetail)] + ctx.prevChildren
  }

  /** Without a context, as after an onMutate that threw, nothing is restored. */
  method DeleteOnError(qc: QueryClient, ws: string, ctx: Outcome<DeleteContext>)
    requires qc.Valid()
    modifies qc
    ensures qc.Valid()
    ensures qc.data == if ctx.Returned? then Restore(old(qc.data), DeleteSnapshots(ws, ctx.value)) else old(qc.data)
  {
    if ctx.Returned? { RestoreDeleted(qc, ws, ctx.value); }
  }

  method RestoreDeleted(qc: QueryClient, ws: string, ctx: DeleteContext)
    requires qc.Valid()
    modifies qc
    ensures qc.Valid() && qc.data == Restore(old(qc.data), DeleteSnapshots(ws, ctx))
  {
    ghost var before, detail := qc.data, [Snapshot(DetailKey(ws, ctx.id), ctx.prevDetail)];
    RestoreConcat(before, ctx.prevLists, ctx.prevMyLists);
    RestoreConcat(before, ctx.prevLists + ctx.prevMyLists, detail);
    RestoreConcat(before, ctx.prevLists + ctx.prevMyLists + detail, ctx.prevChildren);
    qc.RestoreQueries(ctx.prevLists);
    qc.RestoreQueries(ctx.prevMyLists);
    RestoreOne(qc.data, DetailKey(ws, ctx.id), ctx.prevDetail);
    if ctx.prevDetail.Some? {
      qc.SetQueryData(DetailKey(ws, ctx.id), ctx.prevDetail);
    }
    qc.RestoreQueries(ctx.prevChildren);
  }

  lemma RestoreOne(data: Store, key: Key, value: Option<Data>)
    ensures Restore(data, [Snapshot(key, value)]) == Put(data, key, value)
  {
    var one := [Snapshot(key, value)];
    assert one[..0] == [] && Restore(data, one[..0]) == data;
  }

  lemma {:induction false} PruneRewrites(data: Store, ws: string, id: string, parents: seq<string>)
    ensures Rewrites(data, Pruned(data, ws, id, parents), PruneTouches(ws, parents))
  {
    var touches, f := PruneTouches(ws, parents), RemoveFromLists(id);
    var a := UpdateUnder(data, ListPrefix(ws), f);
    UpdateUnderRewrites(data, ListPrefix(ws), f, touches);
    UpdateUnderRewrites(a, MyPrefix(ws), f, touches);
    RewritesTrans(data, a, ListsPruned(data, ws, id), touches);
    ChildrenRewrites(ListsPruned(data, ws, id), ws, id, parents, touches);
    RewritesTrans(data, ListsPruned(data, ws, id), Pruned(data, ws, id, parents), touches);
  }

  lemma {:induction false} ChildrenRewrites(data: Store, ws: string, id: string, parents: seq<string>,
                                            touches: Key -> bool)
    requires forall p :: p in parents ==> touches(ChildrenKey(ws, p))
    ensures Rewrites(data, ChildrenPruned(data, ws, id, parents), touches)
  {
    if parents != [] {
      var n := |parents| - 1;
      ChildrenRewrites(data, ws, id, parents[..n], touches);
      var a := ChildrenPruned(data, ws, id, parents[..n]);
      UpdateAtRewrites(a, ChildrenKey(ws, parents[n]), DropRow(id), touches);
      RewritesTrans(data, a, ChildrenPruned(data, ws, id, parents), touches);
    }
  }

  /** The detail entry is the only loaded query stored under its own key. */
  ghost predicate NothingBelowDetail(data: Store, ws: string, id: string) {
    forall k :: k in data && data[k].Some? && DetailKey(ws, id) <= k ==> k == DetailKey(ws, id)
  }

  /** A failed delete gives back everything that was loaded, exactly when no loaded query extends the
      detail key: such a query is removed and in no snapshot. */
  lemma DeleteRollsBackIff(data: Store, ws: string, id: string, ctx: DeleteContext)
    requires IsDeleteContext(data, ws, id, ctx)
    ensures var after := RemoveUnder(Pruned(data, ws, id, ctx.parents), DetailKey(ws, id));
      Loaded(Restore(after, DeleteSnapshots(ws, ctx))) == Loaded(data) <==> NothingBelowDetail(data, ws, id)
  {
    var after := RemoveUnder(Pruned(data, ws, id, ctx.parents), DetailKey(ws, id));
    var restored := Restore(after, DeleteSnapshots(ws, ctx));
    forall k ensures Get(restored, k) ==
      if DetailKey(ws, id) <= k && k != DetailKey(ws, id) then None else Get(data, k)
    {
      DeleteRestoresAt(data, ws, id, ctx, k);
    }
    SameLoadedIff(restored, data);
  }

  lemma SameLoadedIff(a: Store, b: Store)
    ensures Loaded(a) == Loaded(b) <==> forall k :: Get(a, k) == Get(b, k)
  {
    LoadedIsGet(a);
    LoadedIsGet(b);
    if Loaded(a) == Loaded(b) {
      forall k ensures Get(a, k) == Get(b, k) {
        assert k in Loaded(a) <==> k in Loaded(b);
      }
    }
    if forall k :: Get(a, k) == Get(b, k) {
      assert forall k :: k in Loaded(a) <==> k in Loaded(b);
      assert Loaded(a) == Loaded(b);
    }
  }

  lemma LoadedIsGet(data: Store)
    ensures forall k :: k in Loaded(data) <==> Get(data, k).Some?
    ensures forall k :: k in Loaded(data) ==> Get(data, k) == Some(Loaded(data)[k])
  {
  }

  ghost predicate RestoredAt(data: Store, ws: string, id: string, after: Store, snaps: seq<Snapshot>, k: Key) {
    Get(Restore(after, snaps), k) ==
      if DetailKey(ws, id) <= k && k != DetailKey(ws, id) then None else Get(data, k)
  }

  lemma DeleteRestoresAt(data: Store, ws: string, id: string, ctx: DeleteContext, k: Key)
    requires IsDeleteContext(data, ws, id, ctx)
    ensures RestoredAt(data, ws, id, RemoveUnder(Pruned(data, ws, id, ctx.parents), DetailKey(ws, id)),
                       DeleteSnapshots(ws, ctx), k)
  {
    var pruned := Pruned(data, ws, id, ctx.parents);
    var after, snaps := RemoveUnder(pruned, DetailKey(ws, id)), DeleteSnapshots(ws, ctx);
    var detail := Snapshot(DetailKey(ws, id), ctx.prevDetail);
    PruneRewrites(data, ws, id, ctx.parents);
    RestoreValue(after, snaps, k);
    FamiliesApart(ws, id, k);
    forall p | k == ChildrenKey(ws, p) ensures !(DetailKey(ws, id) <= k) {
      FamiliesApart(ws, p, k);
    }
    assert forall s :: s in snaps <==> s in PruneSnapshots(ctx) || s == detail;
    assert forall s :: s in PruneSnapshots(ctx) ==> PruneTouches(ws, ctx.parents)(s.key) && s.value == Get(data, s.key);
    if k in data && PruneTouches(ws, ctx.parents)(k) {
      assert Snapshot(k, data[k]) in PruneSnapshots(ctx);
    }
  }

  // ----- Batch update -----

  datatype BatchUpdateContext = BatchUpdateContext(prevLists: seq<Snapshot>, prevChildren: seq<Snapshot>)

  predicate HasAnyRow(d: Option<Data>, ids: set<string>) {
    d.Some? && d.value.Rows? && Any((i: Issue) => i.id in ids, d.value.issues)
  }

  /** A children cache that holds one of the issues, under a key that ends in a parent id. */
  predicate Affected(c: Snapshot, idSet: set<string>) {
    HasAnyRow(c.value, idSet) && LastString(c.key).Some?
  }

  /** The affected children caches patched in turn, each under the key of its parent. */
  function ChildrenPatched(data: Store, ws: string, idSet: set<string>, p: Patch, caches: seq<Snapshot>): Store {
    if caches == [] then data
    else
      var n := |caches| - 1;
      var init := ChildrenPatched(data, ws, idSet, p, caches[..n]);
      if Affected(caches[n], idSet)
      then UpdateAt(init, ChildrenKey(ws, LastString(caches[n].key).value), PatchRows(idSet, p))
      else init
  }

  /** What is remembered of them, by parent. */
  function ChildrenSaved(ws: string, idSet: set<string>, caches: seq<Snapshot>): seq<Snapshot> {
    if caches == [] then []
    else
      var n := |caches| - 1;
      ChildrenSaved(ws, idSet, caches[..n]) +
      if Affected(caches[n], idSet) then [Snapshot(ChildrenKey(ws, LastString(caches[n].key).value), caches[n].value)]
      else []
  }

  function BatchUpdated(data: Store, ws: string, ids: seq<string>, p: Patch, caches: seq<Snapshot>): Store {
    ChildrenPatched(UpdateUnder(data, ListPrefix(ws), PatchListsAll(ids, p)), ws, IdSetOf(ids), p, caches)
  }

  ghost predicate IsBatchUpdateContext(data: Store, ws: string, ids: seq<string>, ctx: BatchUpdateContext,
                                       caches: seq<Snapshot>) {
    && Snapshots(data, ctx.prevLists, (k: Key) => ListPrefix(ws) <= k)
    && Snapshots(data, caches, (k: Key) => ChildrenPrefix(ws) <= k)
    && NoDup(caches) && (forall c :: c in caches ==> c.key in data)
    && ctx.prevChildren == ChildrenSaved(ws, IdSetOf(ids), caches)
  }

  method BatchUpdateOnMutate(qc: QueryClient, ws: string, ids: seq<string>, patch: Patch)
    returns (ctx: BatchUpdateContext, ghost caches: seq<Snapshot>)
    requires qc.Valid()
    modifies qc
    ensures qc.Valid() && qc.data == BatchUpdated(old(qc.data), ws, ids, patch, caches)
    ensures IsBatchUpdateContext(old(qc.data), ws, ids, ctx, caches)
    ensures ListsTakePatch(old(qc.data), qc.data, ws, IdSetOf(ids), patch)
    ensures ChildrenKeysCanonical(old(qc.data), ws) ==>
      ChildrenTakePatch(old(qc.data), qc.data, ws, IdSetOf(ids), patch)
    ensures forall k | !(ListPrefix(ws) <= k) && !(ChildrenPrefix(ws) <= k) :: Get(qc.data, k) == Get(old(qc.data), k)
  {
    ghost var before := qc.data;
    var prevLists := SnapshotQueries(qc, ListPrefix(ws));
    qc.UpdateQueries(ListPrefix(ws), PatchListsAll(ids, patch));
    var childrenCaches := SnapshotQueries(qc, ChildrenPrefix(ws));
    ListUpdateKeepsChildren(before, ws, PatchListsAll(ids, patch), childrenCaches);
    var prevChildren := PatchChildrenCaches(qc, ws, IdSetOf(ids), patch, childrenCaches);
    ctx, caches := BatchUpdateContext(prevLists, prevChildren), childrenCaches;
    BatchShowsPatch(before, ws, ids, patch, caches);
  }

  /** Every children cache shows the issues of ids with the patch, and the others as before. */
  ghost predicate ChildrenTakePatch(before: Store, after: Store, ws: string, ids: set<string>, p: Patch) {
    forall k | ChildrenPrefix(ws) <= k :: RowsTakePatch(Get(before, k), Get(after, k), ids, p)
  }

  /** The optimistic batch shows the patch, field by field, in every list and, under per-parent keys, in every
      children cache; it touches nothing else. */
  lemma BatchShowsPatch(data: Store, ws: string, ids: seq<string>, p: Patch, caches: seq<Snapshot>)
    requires NoDup(caches) && Snapshots(data, caches, (k: Key) => ChildrenPrefix(ws) <= k)
    requires forall c :: c in caches ==> c.key in data
    ensures var after := BatchUpdated(data, ws, ids, p, caches);
      && ListsTakePatch(data, after, ws, IdSetOf(ids), p)
      && (ChildrenKeysCanonical(data, ws) ==> ChildrenTakePatch(data, after, ws, IdSetOf(ids), p))
      && forall k | !(ListPrefix(ws) <= k) && !(ChildrenPrefix(ws) <= k) :: Get(after, k) == Get(data, k)
  {
    var mid := UpdateUnder(data, ListPrefix(ws), PatchListsAll(ids, p));
    PatchListsAllTakePatch(data, ws, ids, p);
    forall k | !(ChildrenPrefix(ws) <= k) { ChildrenPatchedOutside(mid, ws, IdSetOf(ids), p, caches, k); }
    forall k | ListPrefix(ws) <= k ensures Get(BatchUpdated(data, ws, ids, p, caches), k) == Get(mid, k) {
      FamiliesApart(ws, "", k);
    }
    if ChildrenKeysCanonical(data, ws) {
      SnapshotsAreCanonical(data, ws, caches);
      forall k | ChildrenPrefix(ws) <= k ensures Get(mid, k) == Get(data, k) { FamiliesApart(ws, "", k); }
      ChildrenPatchedAre(mid, ws, IdSetOf(ids), p, caches);
      forall k | ChildrenPrefix(ws) <= k
        ensures RowsTakePatch(Get(data, k), Get(BatchUpdated(data, ws, ids, p, caches), k), IdSetOf(ids), p)
      {
        PatchRowsTakePatch(Get(data, k), IdSetOf(ids), p);
        if k in data { assert Snapshot(k, data[k]) in caches; }
      }
    }
  }

  lemma {:induction false} ChildrenPatchedOutside(data: Store, ws: string, idSet: set<string>, p: Patch,
                                                  caches: seq<Snapshot>, k: Key)
    requires !(ChildrenPrefix(ws) <= k)
    ensures Get(ChildrenPatched(data, ws, idSet, p, caches), k) == Get(data, k)
  {
    if caches != [] {
      var n := |caches| - 1;
      ChildrenPatchedOutside(data, ws, idSet, p, caches[..n], k);
      if Affected(caches[n], idSet) {
        KeysTellApart(ws, LastString(caches[n].key).value, ws, LastString(caches[n].key).value);
      }
    }
  }

  /** A list update is not seen under the children prefix. */
  lemma ListUpdateKeepsChildren(data: Store, ws: string, f: Data -> Data, caches: seq<Snapshot>)
    ensures var mid := UpdateUnder(data, ListPrefix(ws), f);
      Snapshots(mid, caches, (k: Key) => ChildrenPrefix(ws) <= k)
      <==> Snapshots(data, caches, (k: Key) => ChildrenPrefix(ws) <= k)
  {
    var mid := UpdateUnder(data, ListPrefix(ws), f);
    forall k | ChildrenPrefix(ws) <= k ensures Get(mid, k) == Get(data, k) && (k in mid <==> k in data) {
      FamiliesApart(ws, "", k);
    }
  }

  method PatchChildrenCaches(qc: QueryClient, ws: string, idSet: set<string>, patch: Patch, caches: seq<Snapshot>)
    returns (prevChildren: seq<Snapshot>)
    requires qc.Valid()
    modifies qc
    ensures qc.Valid() && qc.data == ChildrenPatched(old(qc.data), ws, idSet, patch, caches)
    ensures prevChildren == ChildrenSaved(ws, idSet, caches)
  {
    prevChildren := [];
    for i := 0 to |caches|
      invariant qc.Valid() && qc.data == ChildrenPatched(old(qc.data), ws, idSet, patch, caches[..i])
      invariant prevChildren == ChildrenSaved(ws, idSet, caches[..i])
    {
      assert caches[..i + 1][..i] == caches[..i];
      if !HasAnyRow(caches[i].value, idSet) { continue; }
      var parentId := LastString(caches[i].key);
      if parentId.None? { continue; }
      var key := ChildrenKey(ws, parentId.value);
      prevChildren := prevChildren + [Snapshot(key, caches[i].value)];
      UpdateOne(qc, key, PatchRows(idSet, patch));
    }
    assert caches[..|caches|] == caches;
  }

  method BatchUpdateOnError(qc: QueryClient, ctx: BatchUpdateContext)
    requires qc.Valid()
    modifies qc
    ensures qc.Valid() && qc.data == Restore(old(qc.data), ctx.prevLists + ctx.prevChildren)
  {
    RestoreConcat(qc.data, ctx.prevLists, ctx.prevChildren);
    qc.RestoreQueries(ctx.prevLists);
    qc.RestoreQueries(ctx.prevChildren);
  }

  function KeysOf(snaps: seq<Snapshot>): set<Key> {
    set s | s in snaps :: s.key
  }

  /** Snapshots of per-parent caches, one per key. */
  ghost predicate CanonicalCaches(data: Store, ws: string, caches: seq<Snapshot>) {
    && (forall i, j :: 0 <= i < j < |caches| ==> caches[i].key != caches[j].key)
    && forall c :: c in caches ==> c.value == Get(data, c.key) && IsChildrenKey(ws, c.key)
  }

  predicate IsChildrenKey(ws: string, k: Key) {
    LastString(k).Some? && ChildrenKey(ws, LastString(k).value) == k
  }

  lemma {:induction false} ChildrenPatchedAre(data: Store, ws: string, idSet: set<string>, p: Patch,
                                              caches: seq<Snapshot>)
    requires CanonicalCaches(data, ws, caches)
    ensures ChildrenPatched(data, ws, idSet, p, caches) == UpdateKeys(data, KeysOf(caches), PatchRows(idSet, p))
    ensures forall s :: s in ChildrenSaved(ws, idSet, caches) <==> s in caches && HasAnyRow(s.value, idSet)
  {
    if caches != [] {
      var n, f := |caches| - 1, PatchRows(idSet, p);
      var init, last := caches[..n], caches[n];
      assert caches == init + [last];
      ChildrenPatchedAre(data, ws, idSet, p, init);
      assert KeysOf(caches) == KeysOf(init) + {last.key} && last in caches;
      assert last.key !in KeysOf(init);
      if HasAnyRow(last.value, idSet) {
        UpdateOneMore(data, KeysOf(init), f, last.key);
      } else {
        RowsUnaffected(last.value, idSet, p);
        UpdateNothing(data, KeysOf(init), f, last.key);
      }
    }
  }

  lemma UpdateOneMore(data: Store, done: set<Key>, f: Data -> Data, k: Key)
    requires k !in done
    ensures UpdateKeys(data, done + {k}, f) == UpdateAt(UpdateKeys(data, done, f), k, f)
  {
  }

  lemma UpdateNothing(data: Store, done: set<Key>, f: Data -> Data, k: Key)
    requires Get(data, k).Some? ==> f(Get(data, k).value) == Get(data, k).value
    ensures UpdateKeys(data, done + {k}, f) == UpdateKeys(data, done, f)
  {
  }

  lemma RowsUnaffected(d: Option<Data>, idSet: set<string>, patch: Patch)
    requires !HasAnyRow(d, idSet)
    ensures d.Some? ==> PatchRows(idSet, patch)(d.value) == d.value
  {
    if d.Some? && d.value.Rows? {
      assert forall i :: 0 <= i < |d.value.issues| ==> d.value.issues[i].id !in idSet;
    }
  }

  lemma SnapshotsAreCanonical(data: Store, ws: string, caches: seq<Snapshot>)
    requires ChildrenKeysCanonical(data, ws) && NoDup(caches)
    requires forall c :: c in caches ==> c.key in data
    requires Snapshots(data, caches, (k: Key) => ChildrenPrefix(ws) <= k)
    ensures CanonicalCaches(data, ws, caches)
  {
    forall i, j | 0 <= i < j < |caches| ensures caches[i].key != caches[j].key {
      assert caches[i] in caches && caches[j] in caches;
    }
  }

  /** The keys that a batch update rewrites. */
  function BatchTouches(data: Store, ws: string, idSet: set<string>): Key -> bool {
    (k: Key) => ListPrefix(ws) <= k || (ChildrenPrefix(ws) <= k && HasAnyRow(Get(data, k), idSet))
  }

  lemma RowUpdateRewrites(data: Store, mid: Store, ws: string, idSet: set<string>, p: Patch, keys: set<Key>)
    requires forall k :: k in keys ==> ChildrenPrefix(ws) <= k && Get(mid, k) == Get(data, k)
    ensures Rewrites(mid, UpdateKeys(mid, keys, PatchRows(idSet, p)), BatchTouches(data, ws, idSet))
  {
    forall k | k in keys && k in mid && !HasAnyRow(Get(data, k), idSet)
      ensures UpdateKeys(mid, keys, PatchRows(idSet, p))[k] == mid[k]
    {
      RowsUnaffected(mid[k], idSet, p);
    }
  }

  /** A failed batch update of any length leaves every cache as it was, whatever the caches hold under
      per-parent children keys. */
  lemma BatchUpdateRollsBack(data: Store, ws: string, ids: seq<string>, p: Patch, ctx: BatchUpdateContext,
                             caches: seq<Snapshot>)
    requires IsBatchUpdateContext(data, ws, ids, ctx, caches) && ChildrenKeysCanonical(data, ws)
    ensures Restore(BatchUpdated(data, ws, ids, p, caches), ctx.prevLists + ctx.prevChildren) == data
  {
    var idSet, touched := IdSetOf(ids), BatchTouches(data, ws, IdSetOf(ids));
    var mid := UpdateUnder(data, ListPrefix(ws), PatchListsAll(ids, p));
    UpdateUnderRewrites(data, ListPrefix(ws), PatchListsAll(ids, p), touched);
    SnapshotsAreCanonical(data, ws, caches);
    forall c | c in caches ensures Get(mid, c.key) == Get(data, c.key) { FamiliesApart(ws, "", c.key); }
    ChildrenPatchedAre(mid, ws, idSet, p, caches);
    RowUpdateRewrites(data, mid, ws, idSet, p, KeysOf(caches));
    RewritesTrans(data, mid, BatchUpdated(data, ws, ids, p, caches), touched);
    SnapshotsConcat(data, ctx.prevLists, ctx.prevChildren, (k: Key) => ListPrefix(ws) <= k,
      (k: Key) => ChildrenPrefix(ws) <= k && HasAnyRow(Get(data, k), idSet), touched);
    SnapshotsUndo(data, BatchUpdated(data, ws, ids, p, caches), ctx.prevLists + ctx.prevChildren, touched);
  }

  // ----- Batch delete -----

  datatype BatchDeleteContext = BatchDeleteContext(
    parentsById: map<string, seq<string>>, parents: seq<string>,
    prevLists: seq<Snapshot>, prevMyLists: seq<Snapshot>, prevChildren: seq<Snapshot>)

  function BatchPruned(data: Store, ws: string, ids: seq<string>, parentsById: map<string, seq<string>>): Store {
    if ids == [] then data
    else
      var n := |ids| - 1;
      var init := BatchPruned(data, ws, ids[..n], parentsById);
      Pruned(init, ws, ids[n], if ids[n] in parentsById then parentsById[ids[n]] else [])
  }

  ghost predicate IsBatchDeleteContext(data: Store, ws: string, ids: seq<string>, ctx: BatchDeleteContext) {
    && AreParents(data, ws, ids, ctx.parentsById, ctx.parents)
    && Snapshots(data, ctx.prevLists + ctx.prevMyLists + ctx.prevChildren, PruneTouches(ws, ctx.parents))
  }

  /** The parents of every issue, unless there is something to collect and a list is not bucketed. */
  method CollectAll(qc: QueryClient, ws: string, ids: seq<string>)
    returns (parentsById: Outcome<map<string, seq<string>>>, parents: seq<string>)
    requires qc.Valid()
    ensures parentsById.Returned? <==> ids == [] || ListsBucketed(qc.data, ws)
    ensures parentsById.Returned? ==> AreParents(qc.data, ws, ids, parentsById.value, parents)
  {
    var found: map<string, seq<string>> := map[];
    parents := [];
    for i := 0 to |ids|
      invariant i > 0 ==> ListsBucketed(qc.data, ws)
      invariant AreParents(qc.data, ws, ids[..i], found, parents)
    {
      assert ids[..i + 1] == ids[..i] + [ids[i]];
      var metadata := CollectDeletedIssueCacheMetadata(qc, ws, ids[i]);
      if metadata.Threw? { return Threw, []; }
      found := found[ids[i] := metadata.value];
      parents := parents + metadata.value;
    }
    assert ids[..|ids|] == ids;
    parentsById := Returned(found);
  }

  ghost predicate AreParents(data: Store, ws: string, ids: seq<string>, parentsById: map<string, seq<string>>,
                             parents: seq<string>) {
    && (forall id :: id in parentsById <==> id in ids)
    && (forall id :: id in parentsById ==> NoDup(parentsById[id]))
    && (forall id, p :: id in parentsById && p in parentsById[id] ==> p in parents)
    && (forall id, p :: id in parentsById ==> (p in parentsById[id] <==> IsParentSource(data, ws, id, p)))
  }

  /** Throws before anything is changed when there is an issue to delete and a list or my-list is not bucketed. */
  method BatchDeleteOnMutate(qc: QueryClient, ws: string, ids: seq<string>) returns (ctx: Outcome<BatchDeleteContext>)
    requires qc.Valid()
    modifies qc
    ensures qc.Valid() && (ctx.Returned? <==> ids == [] || ListsBucketed(old(qc.data), ws))
    ensures ctx.Threw? ==> qc.data == old(qc.data) && qc.stale == old(qc.stale)
    ensures ctx.Returned? ==>
      && qc.data == BatchPruned(old(qc.data), ws, ids, ctx.value.parentsById)
      && IsBatchDeleteContext(old(qc.data), ws, ids, ctx.value)
      && forall k :: BatchPrunedAt(old(qc.data), qc.data, ws, ids, k)
  {
    var parentsById, parents := CollectAll(qc, ws, ids);
    if parentsById.Threw? { return Threw; }
    var prevLists := SnapshotQueries(qc, ListPrefix(ws));
    var prevMyLists := SnapshotQueries(qc, MyPrefix(ws));
    var prevChildren := SnapshotChildren(qc, ws, parents);
    PruneSnapshotsCover(qc.data, ws, parents, prevLists, prevMyLists, prevChildren);
    ghost var before := qc.data;
    PruneAll(qc, ws, ids, parentsById.value);
    var context := BatchDeleteContext(parentsById.value, parents, prevLists, prevMyLists, prevChildren);
    forall k { BatchPruneRemovesEach(before, ws, ids, context, k); }
    return Returned(context);
  }

  method PruneAll(qc: QueryClient, ws: string, ids: seq<string>, parentsById: map<string, seq<string>>)
    requires qc.Valid() && (ids != [] ==> ListsBucketed(qc.data, ws))
    modifies qc
    ensures qc.Valid() && qc.data == BatchPruned(old(qc.data), ws, ids, parentsById)
  {
    for i := 0 to |ids|
      invariant qc.Valid() && qc.data == BatchPruned(old(qc.data), ws, ids[..i], parentsById)
      invariant ids != [] ==> ListsBucketed(qc.data, ws)
    {
      assert ids[..i + 1][..i] == ids[..i];
      PruneAfterCollect(qc, ws, ids[i], if ids[i] in parentsById then parentsById[ids[i]] else []);
    }
    assert ids[..|ids|] == ids;
  }

  method BatchDeleteOnError(qc: QueryClient, ctx: Outcome<BatchDeleteContext>)
    requires qc.Valid()
    modifies qc
    ensures qc.Valid()
    ensures qc.data == if ctx.Returned? then Restore(old(qc.data), BatchDeleteSnapshots(ctx.value)) else old(qc.data)
  {
    if ctx.Returned? {
      var c := ctx.value;
      RestoreConcat(qc.data, c.prevLists, c.prevMyLists);
      RestoreConcat(qc.data, c.prevLists + c.prevMyLists, c.prevChildren);
      qc.RestoreQueries(c.prevLists);
      qc.RestoreQueries(c.prevMyLists);
      qc.RestoreQueries(c.prevChildren);
    }
  }

  function BatchDeleteSnapshots(ctx: BatchDeleteContext): seq<Snapshot> {
    ctx.prevLists + ctx.prevMyLists + ctx.prevChildren
  }

  lemma {:induction false} BatchPruneRewrites(data: Store, ws: string, ids: seq<string>,
                                              parentsById: map<string, seq<string>>, parents: seq<string>)
    requires forall id, p :: id in parentsById && p in parentsById[id] ==> p in parents
    ensures Rewrites(data, BatchPruned(data, ws, ids, parentsById), PruneTouches(ws, parents))
  {
    if ids != [] {
      var n := |ids| - 1;
      BatchPruneRewrites(data, ws, ids[..n], parentsById, parents);
      var init := BatchPruned(data, ws, ids[..n], parentsById);
      var own := if ids[n] in parentsById then parentsById[ids[n]] else [];
      PruneRewrites(init, ws, ids[n], own);
      assert forall k :: PruneTouches(ws, own)(k) ==> PruneTouches(ws, parents)(k);
      RewritesTrans(data, init, BatchPruned(data, ws, ids, parentsById), PruneTouches(ws, parents));
    }
  }

  /** After the optimistic batch no list shows an issue of the batch, and every children cache of a non-empty parent
      has lost exactly those; all else is as it was. */
  lemma BatchPruneRemovesEach(data: Store, ws: string, ids: seq<string>, ctx: BatchDeleteContext, k: Key)
    requires IsBatchDeleteContext(data, ws, ids, ctx) && (ids != [] ==> ListsBucketed(data, ws))
    ensures BatchPrunedAt(data, BatchPruned(data, ws, ids, ctx.parentsById), ws, ids, k)
  {
    BatchPruneRemoves(data, ws, ids, ids, ctx.parentsById, k);
  }

  ghost predicate BatchPrunedAt(data: Store, after: Store, ws: string, ids: seq<string>, k: Key) {
    var d := Get(data, k);
    if (ListPrefix(ws) <= k || MyPrefix(ws) <= k) && d.Some? && ids != [] then
      && d.value.Lists? && Get(after, k).Some? && Get(after, k).value.Lists?
      && (Valid(d.value.buckets) ==> ListLoses(d.value.buckets, Get(after, k).value.buckets, ids))
    else if d.Some? && d.value.Rows? && IsParentKey(ws, k) then
      Get(after, k) == Some(Rows(Filter((i: Issue) => i.id !in ids, d.value.issues)))
    else
      Get(after, k) == d
  }

  /** The list shows every issue that it did, but those of ids. */
  ghost predicate ListLoses(before: Buckets, after: Buckets, ids: seq<string>) {
    Valid(after) && forall x :: Lookup(after, x) == if x in ids then None else Lookup(before, x)
  }

  predicate IsParentKey(ws: string, k: Key) {
    IsChildrenKey(ws, k) && LastString(k) != Some("")
  }

  lemma {:induction false} BatchPruneRemoves(data: Store, ws: string, ids: seq<string>, all: seq<string>,
                                             parentsById: map<string, seq<string>>, k: Key)
    requires (all != [] ==> ListsBucketed(data, ws)) && forall id :: id in ids ==> id in all
    requires exists parents :: AreParents(data, ws, all, parentsById, parents)
    ensures BatchPrunedAt(data, BatchPruned(data, ws, ids, parentsById), ws, ids, k)
    decreases |ids|
  {
    if ids != [] {
      var n := |ids| - 1;
      var init, id := ids[..n], ids[n];
      assert ids == init + [id];
      BatchPruneRemoves(data, ws, init, all, parentsById, k);
      PruneOneMore(data, BatchPruned(data, ws, init, parentsById), ws, init, id, parentsById[id], k);
      assert init + [id] == ids;
    } else if Get(data, k).Some? && data[k].value.Rows? {
      FilterAll((i: Issue) => i.id !in ids, data[k].value.issues);
    }
  }

  lemma PruneOneMore(data: Store, mid: Store, ws: string, init: seq<string>, id: string, parents: seq<string>, k: Key)
    requires ListsBucketed(data, ws) && BatchPrunedAt(data, mid, ws, init, k)
    requires NoDup(parents) && forall p :: p in parents <==> IsParentSource(data, ws, id, p)
    ensures BatchPrunedAt(data, Pruned(mid, ws, id, parents), ws, init + [id], k)
  {
    var d := Get(data, k);
    FamiliesApart(ws, id, k);
    if (ListPrefix(ws) <= k || MyPrefix(ws) <= k) && d.Some? {
      PrunedOutsideChildren(mid, ws, id, parents, k);
      if Valid(d.value.buckets) { ListLosesOneMore(d.value.buckets, mid[k].value.buckets, init, id); }
    } else if ChildrenPrefix(ws) <= k {
      PruneChildrenOnce(data, mid, ws, init, id, parents, k);
    } else {
      PrunedOutsideChildren(mid, ws, id, parents, k);
    }
  }

  lemma ListLosesOneMore(b: Buckets, mid: Buckets, init: seq<string>, id: string)
    requires Valid(b) && ListLoses(b, mid, init)
    ensures ListLoses(b, RemoveIssueFromBuckets(mid, id), init + [id])
  {
    LookupAfterDelete(mid, id, id);
    forall x ensures Lookup(RemoveIssueFromBuckets(mid, id), x) == if x in init + [id] then None else Lookup(b, x) {
      LookupAfterDelete(mid, id, x);
    }
  }

  lemma PruneChildrenOnce(data: Store, mid: Store, ws: string, init: seq<string>, id: string, parents: seq<string>,
                          k: Key)
    requires ChildrenPrefix(ws) <= k && BatchPrunedAt(data, mid, ws, init, k)
    requires NoDup(parents) && forall p :: p in parents <==> IsParentSource(data, ws, id, p)
    ensures BatchPrunedAt(data, Pruned(mid, ws, id, parents), ws, init + [id], k)
  {
    var d, lists := Get(data, k), ListsPruned(mid, ws, id);
    FamiliesApart(ws, id, k);
    assert Get(lists, k) == Get(mid, k);
    ChildrenPrunedAt(lists, ws, id, parents, k);
    assert forall p :: k == ChildrenKey(ws, p) ==> k[3] == Str(p) && |k| == 4;
    if d.Some? && d.value.Rows? && IsParentKey(ws, k) {
      var p := LastString(k).value;
      var left := Filter((i: Issue) => i.id !in init, d.value.issues);
      FilterTwice(d.value.issues, init, id);
      if p !in parents {
        RowNamesParent(data, ws, id, p, k);
        WithoutAbsent(left, id);
      }
    }
  }

  /** A children cache of a non-empty parent that holds the issue names that parent. */
  lemma RowNamesParent(data: Store, ws: string, id: string, p: string, k: Key)
    requires k == ChildrenKey(ws, p) && p != "" && Get(data, k).Some? && Get(data, k).value.Rows?
    ensures FirstWithId(data[k].value.issues, id).Some? ==> IsParentSource(data, ws, id, p)
    ensures FirstWithId(data[k].value.issues, id).None? ==> forall i :: i in data[k].value.issues ==> i.id != id
  {
    FamiliesApart(ws, p, k);
    KeysTellApart(ws, p, ws, p);
    if FirstWithId(data[k].value.issues, id).Some? {
      assert NamedByQuery(Snapshot(k, data[k]), id, p);
      assert NamedByChildren(data, ws, id, p);
    }
  }

  lemma {:induction false} FilterTwice(issues: seq<Issue>, init: seq<string>, id: string)
    ensures Without(Filter((i: Issue) => i.id !in init, issues), id)
      == Filter((i: Issue) => i.id !in init + [id], issues)
  {
    if issues != [] {
      var first, rest := issues[0], issues[1..];
      assert issues == [first] + rest;
      FilterTwice(rest, init, id);
      FilterCons((i: Issue) => i.id !in init, first, rest);
      FilterCons((i: Issue) => i.id !in init + [id], first, rest);
      FilterCons((i: Issue) => i.id != id, first, Filter((i: Issue) => i.id !in init, rest));
    }
  }

  /** A failed batch delete of any length leaves every cache as it was. */
  lemma BatchDeleteRollsBack(data: Store, ws: string, ids: seq<string>, ctx: BatchDeleteContext)
    requires IsBatchDeleteContext(data, ws, ids, ctx)
    ensures Restore(BatchPruned(data, ws, ids, ctx.parentsById), BatchDeleteSnapshots(ctx)) == data
  {
    BatchPruneRewrites(data, ws, ids, ctx.parentsById, ctx.parents);
    SnapshotsUndo(data, BatchPruned(data, ws, ids, ctx.parentsById),
      ctx.prevLists + ctx.prevMyLists + ctx.prevChildren, PruneTouches(ws, ctx.parents));
  }

  // ----- Requests that fail: the optimistic step and then its error handler -----

  method FailedUpdate(qc: QueryClient, ws: string, id: string, patch: Patch)
    requires qc.Valid()
    modifies qc
    ensures qc.Valid() && qc.data == old(qc.data)
  {
    var ctx, _ := UpdateOnMutate(qc, ws, id, patch);
    UpdateOnError(qc, ws, ctx);
    UpdateRollsBack(old(qc.data), ws, id, patch, ctx);
  }

  method FailedDelete(qc: QueryClient, ws: string, id: string)
    requires qc.Valid()
    modifies qc
    ensures qc.Valid()
    ensures Loaded(qc.data) == Loaded(old(qc.data))
      <==> !ListsBucketed(old(qc.data), ws) || NothingBelowDetail(old(qc.data), ws, id)
  {
    var ctx := DeleteOnMutate(qc, ws, id);
    DeleteOnError(qc, ws, ctx);
    if ctx.Returned? { DeleteRollsBackIff(old(qc.data), ws, id, ctx.value); }
  }

  method FailedBatchUpdate(qc: QueryClient, ws: string, ids: seq<string>, patch: Patch)
    requires qc.Valid()
    modifies qc
    ensures qc.Valid() && (ChildrenKeysCanonical(old(qc.data), ws) ==> qc.data == old(qc.data))
  {
    ghost var caches;
    var ctx;
    ctx, caches := BatchUpdateOnMutate(qc, ws, ids, patch);
    BatchUpdateOnError(qc, ctx);
    if ChildrenKeysCanonical(old(qc.data), ws) {
      BatchUpdateRollsBack(old(qc.data), ws, ids, patch, ctx, caches);
    }
  }

  method FailedBatchDelete(qc: QueryClient, ws: string, ids: seq<string>)
    requires qc.Valid()
    modifies qc
    ensures qc.Valid() && qc.data == old(qc.data)
  {
    var ctx := BatchDeleteOnMutate(qc, ws, ids);
    BatchDeleteOnError(qc, ctx);
    if ctx.Returned? { BatchDeleteRollsBack(old(qc.data), ws, ids, ctx.value); }
  }
}
