// Query keys of issue data, and the rewrites applied to what they hold.

module IssueKeys {
  import opened Options
  import opened Seqs
  import opened Issues
  import opened IssueTracking
  import opened QueryCache

  function ListPrefix(ws: string): Key { [Str("issues"), Str(ws), Str("list")] }
  function MyPrefix(ws: string): Key { [Str("issues"), Str(ws), Str("my")] }
  function MyAssigneeGroupsKey(ws: string, scope: string, filter: map<string, string>): Key {
    MyPrefix(ws) + [Str("assignee-groups"), Str(scope), Obj(filter)]
  }
  function GanttPrefix(ws: string): Key { [Str("issues"), Str(ws), Str("project-gantt")] }
  function ChildrenPrefix(ws: string): Key { [Str("issues"), Str(ws), Str("children")] }
  function DetailKey(ws: string, id: string): Key { [Str("issues"), Str(ws), Str("detail"), Str(id)] }
  function ChildrenKey(ws: string, id: string): Key { [Str("issues"), Str(ws), Str("children"), Str(id)] }
  function LabelListKey(ws: string): Key { [Str("labels"), Str(ws), Str("list")] }
  function LabelsKey(ws: string, id: string): Key { [Str("labels"), Str(ws), Str("issue"), Str(id)] }

  /** The third component tells the families of issue keys apart. */
  lemma FamiliesApart(ws: string, id: string, k: Key)
    ensures DetailKey(ws, id) <= k ==> !(ListPrefix(ws) <= k) && !(MyPrefix(ws) <= k) && !(ChildrenPrefix(ws) <= k)
    ensures ListPrefix(ws) <= k ==> !(MyPrefix(ws) <= k) && !(ChildrenPrefix(ws) <= k) && !(GanttPrefix(ws) <= k)
    ensures MyPrefix(ws) <= k ==> !(ChildrenPrefix(ws) <= k)
    ensures GanttPrefix(ws) <= k ==> !(MyPrefix(ws) <= k) && !(DetailKey(ws, id) <= k) && !(ChildrenPrefix(ws) <= k)
    ensures LabelsKey(ws, id) <= k ==> !(ListPrefix(ws) <= k) && !(GanttPrefix(ws) <= k) && !(DetailKey(ws, id) <= k)
    ensures LabelsKey(ws, id) <= k ==> !(MyPrefix(ws) <= k) && !(ChildrenPrefix(ws) <= k)
    ensures ChildrenPrefix(ws) <= ChildrenKey(ws, id)
  {
    if |k| > 2 {
      assert ListPrefix(ws) <= k ==> k[2] == Str("list");
      assert MyPrefix(ws) <= k ==> k[2] == Str("my");
      assert GanttPrefix(ws) <= k ==> k[2] == Str("project-gantt");
      assert ChildrenPrefix(ws) <= k ==> k[2] == Str("children");
      assert DetailKey(ws, id) <= k ==> k[2] == Str("detail");
      assert |"list"| == 4 && |"my"| == 2 && |"project-gantt"| == 13 && |"children"| == 8 && |"detail"| == 6;
      assert LabelsKey(ws, id) <= k ==> k[0] == Str("labels") && "labels"[0] == 'l' && "issues"[0] == 'i';
      assert ListPrefix(ws) <= k ==> k[0] == Str("issues");
      assert GanttPrefix(ws) <= k ==> k[0] == Str("issues");
      assert DetailKey(ws, id) <= k ==> k[0] == Str("issues");
      assert MyPrefix(ws) <= k ==> k[0] == Str("issues");
      assert ChildrenPrefix(ws) <= k ==> k[0] == Str("issues");
    }
  }

  /** Keys of different workspaces or issues are different, and none lies under a prefix of another workspace. */
  lemma KeysTellApart(ws: string, id: string, other: string, x: string)
    ensures DetailKey(ws, id) == DetailKey(other, x) <==> ws == other && id == x
    ensures ChildrenKey(ws, id) == ChildrenKey(other, x) <==> ws == other && id == x
    ensures LabelsKey(ws, id) == LabelsKey(other, x) <==> ws == other && id == x
    ensures LabelListKey(ws) == LabelListKey(other) <==> ws == other
    ensures ChildrenPrefix(ws) <= ChildrenKey(other, x) <==> ws == other
    ensures DetailKey(ws, id) <= DetailKey(other, x) <==> ws == other && id == x
    ensures LastString(ChildrenKey(ws, id)) == Some(id)
  {
    assert DetailKey(ws, id)[1] == Str(ws) && DetailKey(ws, id)[3] == Str(id);
    assert ChildrenKey(ws, id)[1] == Str(ws) && ChildrenKey(ws, id)[3] == Str(id);
    assert LabelsKey(ws, id)[1] == Str(ws) && LabelsKey(ws, id)[3] == Str(id);
    assert LabelListKey(ws)[1] == Str(ws) && ChildrenPrefix(ws)[1] == Str(ws);
    assert ChildrenKey(ws, x)[..3] == ChildrenPrefix(ws);
  }

  lemma WorkspacesApart(ws: string, other: string, k: Key)
    requires ws != other
    ensures ListPrefix(ws) <= k ==> !(ListPrefix(other) <= k)
    ensures MyPrefix(ws) <= k ==> !(MyPrefix(other) <= k)
    ensures GanttPrefix(ws) <= k ==> !(GanttPrefix(other) <= k)
    ensures ChildrenPrefix(ws) <= k ==> !(ChildrenPrefix(other) <= k)
  {
    if |k| > 2 {
      assert ListPrefix(ws) <= k ==> k[1] == Str(ws);
      assert ListPrefix(other) <= k ==> k[1] == Str(other);
      assert MyPrefix(ws) <= k ==> k[1] == Str(ws);
      assert MyPrefix(other) <= k ==> k[1] == Str(other);
      assert GanttPrefix(ws) <= k ==> k[1] == Str(ws);
      assert GanttPrefix(other) <= k ==> k[1] == Str(other);
      assert ChildrenPrefix(ws) <= k ==> k[1] == Str(ws);
      assert ChildrenPrefix(other) <= k ==> k[1] == Str(other);
    }
  }

  predicate NonEmpty(s: Option<string>) {
    s.Some? && s.value != ""
  }

  /** The last key component, when it is a string. */
  function LastString(k: Key): Option<string> {
    if k != [] && k[|k| - 1].Str? then Some(k[|k| - 1].s) else None
  }

  predicate HasRow(d: Option<Data>, id: string) {
    d.Some? && d.value.Rows? && Any((i: Issue) => i.id == id, d.value.issues)
  }

  // ----- Rewrites of cached data; data of another shape is left alone -----

  function PatchLists(id: string, p: Patch): Data -> Data {
    (d: Data) => if d.Lists? then Lists(PatchIssueInBuckets(d.buckets, id, p)) else d
  }

  function PatchListsAll(ids: seq<string>, p: Patch): Data -> Data {
    (d: Data) => if d.Lists? then Lists(PatchAll(d.buckets, ids, p)) else d
  }

  function PatchAll(b: Buckets, ids: seq<string>, p: Patch): Buckets {
    if ids == [] then b
    else PatchIssueInBuckets(PatchAll(b, ids[..|ids| - 1], p), ids[|ids| - 1], p)
  }

  function AddToLists(issue: Issue): Data -> Data {
    (d: Data) => if d.Lists? then Lists(AddIssueToBuckets(d.buckets, issue)) else d
  }

  function RemoveFromLists(id: string): Data -> Data {
    (d: Data) => if d.Lists? then Lists(RemoveIssueFromBuckets(d.buckets, id)) else d
  }

  function PatchDetail(p: Patch): Data -> Data {
    (d: Data) => if d.Detail? then Detail(Merge(d.issue, p)) else d
  }

  function PatchRows(ids: set<string>, p: Patch): Data -> Data {
    (d: Data) => if d.Rows? then Rows(Map((i: Issue) => if i.id in ids then Merge(i, p) else i, d.issues)) else d
  }

  function DropRow(id: string): Data -> Data {
    (d: Data) => if d.Rows? then Rows(Without(d.issues, id)) else d
  }

  function RelabelRows(id: string, labels: seq<Label>): Data -> Data {
    (d: Data) =>
      if d.Rows? then Rows(Map((i: Issue) => if i.id == id then i.(labels := Some(labels)) else i, d.issues)) else d
  }

  // ----- What the rewrites mean -----

  function IdSetOf(ids: seq<string>): set<string> {
    set id | id in ids
  }

  /** A batch patches each of its issues once, however often and wherever the batch names it, and no other. */
  lemma {:induction false} PatchAllPatchesEach(b: Buckets, ids: seq<string>, p: Patch, x: string)
    requires Valid(b)
    ensures Valid(PatchAll(b, ids, p))
    ensures Lookup(PatchAll(b, ids, p), x)
      == if x in ids then Lookup(PatchIssueInBuckets(b, x, p), x) else Lookup(b, x)
  {
    LookupAfterPatch(b, x, p, x);
    if ids != [] {
      var init, last := ids[..|ids| - 1], ids[|ids| - 1];
      assert ids == init + [last];
      PatchAllPatchesEach(b, init, p, x);
      LookupAfterPatch(PatchAll(b, init, p), last, p, x);
      if Lookup(b, x).Some? { MergeTwice(Lookup(b, x).value, p); }
      LookupIsShown(b, x);
    }
  }

  lemma MergeTwice(i: Issue, p: Patch)
    ensures Merge(Merge(i, p), p) == Merge(i, p)
  {
  }

  /** Field by field: the list shows every issue of the batch with the patch. */
  lemma BatchPatchedListTakesPatch(b: Buckets, ids: seq<string>, p: Patch)
    requires Valid(b)
    ensures Valid(PatchAll(b, ids, p))
    ensures ListTakesPatch(b, PatchAll(b, ids, p), IdSetOf(ids), p)
  {
    PatchAllPatchesEach(b, ids, p, "");
    forall x ensures ShownTakesPatch(Lookup(b, x), Lookup(PatchAll(b, ids, p), x), x in ids, p) {
      PatchAllPatchesEach(b, ids, p, x);
      PatchedListTakesPatch(b, x, p);
      assert ShownTakesPatch(Lookup(b, x), Lookup(PatchIssueInBuckets(b, x, p), x), x in {x}, p);
    }
  }

  /** Every loaded valid list shows the issues of ids with the patch, and the others as before. */
  ghost predicate ListsTakePatch(before: Store, after: Store, ws: string, ids: set<string>, p: Patch) {
    forall k | ListPrefix(ws) <= k :: DataTakesPatch(Get(before, k), Get(after, k), ids, p)
  }

  ghost predicate DataTakesPatch(before: Option<Data>, after: Option<Data>, ids: set<string>, p: Patch) {
    if before.Some? && before.value.Lists? then
      && after.Some? && after.value.Lists?
      && (Valid(before.value.buckets) ==>
            Valid(after.value.buckets) && ListTakesPatch(before.value.buckets, after.value.buckets, ids, p))
    else after == before
  }

  predicate DetailTakesPatch(before: Option<Data>, after: Option<Data>, p: Patch) {
    if before.Some? && before.value.Detail?
    then after.Some? && after.value.Detail? && TakesPatch(before.value.issue, after.value.issue, p)
    else after == before
  }

  ghost predicate RowsTakePatch(before: Option<Data>, after: Option<Data>, ids: set<string>, p: Patch) {
    if before.Some? && before.value.Rows? then
      && after.Some? && after.value.Rows? && |after.value.issues| == |before.value.issues|
      && forall i :: 0 <= i < |before.value.issues| ==>
        RowTakesPatch(before.value.issues[i], after.value.issues[i], ids, p)
    else after == before
  }

  predicate RowTakesPatch(before: Issue, after: Issue, ids: set<string>, p: Patch) {
    if before.id in ids then TakesPatch(before, after, p) else after == before
  }

  lemma PatchRowsTakePatch(d: Option<Data>, ids: set<string>, p: Patch)
    ensures RowsTakePatch(d, if d.Some? then Some(PatchRows(ids, p)(d.value)) else None, ids, p)
  {
    if d.Some? && d.value.Rows? {
      forall i | 0 <= i < |d.value.issues| { MergeTakesPatch(d.value.issues[i], p); }
    }
  }

  lemma PatchDetailTakesPatch(d: Option<Data>, p: Patch)
    ensures DetailTakesPatch(d, if d.Some? then Some(PatchDetail(p)(d.value)) else None, p)
  {
    if d.Some? && d.value.Detail? { MergeTakesPatch(d.value.issue, p); }
  }

  lemma PatchListsTakePatch(data: Store, ws: string, id: string, p: Patch)
    ensures ListsTakePatch(data, UpdateUnder(data, ListPrefix(ws), PatchLists(id, p)), ws, {id}, p)
  {
    forall k | ListPrefix(ws) <= k && Get(data, k).Some? && data[k].value.Lists? && Valid(data[k].value.buckets) {
      PatchedListTakesPatch(data[k].value.buckets, id, p);
    }
  }

  lemma PatchListsAllTakePatch(data: Store, ws: string, ids: seq<string>, p: Patch)
    ensures ListsTakePatch(data, UpdateUnder(data, ListPrefix(ws), PatchListsAll(ids, p)), ws, IdSetOf(ids), p)
  {
    forall k | ListPrefix(ws) <= k && Get(data, k).Some? && data[k].value.Lists? && Valid(data[k].value.buckets) {
      BatchPatchedListTakesPatch(data[k].value.buckets, ids, p);
    }
  }

  /** The lists, the detail entry and the children cache of parent, if that is a name at all, take the patch of one
      issue; every other query is left alone. */
  ghost predicate CachesTakePatch(before: Store, after: Store, ws: string, id: string, p: Patch,
                                  parent: Option<string>) {
    && before.Keys == after.Keys
    && ListsTakePatch(before, after, ws, {id}, p)
    && DetailTakesPatch(Get(before, DetailKey(ws, id)), Get(after, DetailKey(ws, id)), p)
    && (NonEmpty(parent) ==>
          RowsTakePatch(Get(before, ChildrenKey(ws, parent.value)), Get(after, ChildrenKey(ws, parent.value)), {id}, p))
    && forall k | !(ListPrefix(ws) <= k) && k != DetailKey(ws, id) && !IsChildrenOf(ws, parent, k) ::
      Get(after, k) == Get(before, k)
  }

  predicate IsChildrenOf(ws: string, parent: Option<string>, k: Key) {
    NonEmpty(parent) && k == ChildrenKey(ws, parent.value)
  }

  // ----- Changes confined to some keys -----

  /** after has the same keys, and differs only in loaded data under keys satisfying p. */
  ghost predicate Rewrites(before: Store, after: Store, p: Key -> bool) {
    && before.Keys == after.Keys
    && forall k :: k in before ==> after[k] == before[k] || (p(k) && before[k].Some? && after[k].Some?)
  }

  lemma RewritesTrans(a: Store, b: Store, c: Store, p: Key -> bool)
    requires Rewrites(a, b, p) && Rewrites(b, c, p)
    ensures Rewrites(a, c, p)
  {
  }

  lemma UpdateUnderRewrites(data: Store, prefix: Key, f: Data -> Data, p: Key -> bool)
    requires forall k :: prefix <= k ==> p(k)
    ensures Rewrites(data, UpdateUnder(data, prefix, f), p)
  {
  }

  lemma UpdateAtRewrites(data: Store, key: Key, f: Data -> Data, p: Key -> bool)
    requires p(key)
    ensures Rewrites(data, UpdateAt(data, key, f), p)
  {
  }

  /** snaps holds the old data of every registered key satisfying p, and nothing invented. */
  ghost predicate Snapshots(data: Store, snaps: seq<Snapshot>, p: Key -> bool) {
    && (forall s :: s in snaps ==> p(s.key) && s.value == Get(data, s.key))
    && (forall k :: k in data && p(k) ==> Snapshot(k, data[k]) in snaps)
  }

  /** Rewrites confined to snapshotted keys are undone by restoring the snapshots. */
  lemma SnapshotsUndo(before: Store, after: Store, snaps: seq<Snapshot>, p: Key -> bool)
    requires Rewrites(before, after, p) && Snapshots(before, snaps, p)
    ensures Restore(after, snaps) == before
  {
    RestoreUndoes(before, after, snaps);
  }

  lemma SnapshotsConcat(data: Store, a: seq<Snapshot>, b: seq<Snapshot>, p: Key -> bool, q: Key -> bool, r: Key -> bool)
    requires Snapshots(data, a, p) && Snapshots(data, b, q)
    requires forall k :: r(k) <==> p(k) || q(k)
    ensures Snapshots(data, a + b, r)
  {
  }

  lemma {:induction false} RestoreConcat(data: Store, a: seq<Snapshot>, b: seq<Snapshot>)
    ensures Restore(data, a + b) == Restore(Restore(data, a), b)
  {
    if b == [] {
      assert a + b == a;
    } else {
      RestoreConcat(data, a, b[..|b| - 1]);
      assert (a + b)[..|a + b| - 1] == a + b[..|b| - 1];
    }
  }
}
