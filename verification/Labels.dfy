// Attaching and detaching labels: every cached copy of an issue shows the same
// label list after every optimistic patch, rollback, server answer and event.

module Labels {
  import opened Options
  import opened Seqs
  import opened Issues
  import opened IssueTracking
  import opened QueryCache
  import opened IssueKeys
  import opened DeleteCache
  import opened IssueMutations

  function LabelPatch(labels: seq<Label>): Patch {
    Patch(None, None, None, None, None, Some(labels))
  }

  function SetDetailLabels(labels: seq<Label>): Data -> Data {
    PatchDetail(LabelPatch(labels))
  }

  function SetIssueLabels(labels: seq<Label>): Data -> Data {
    (d: Data) => if d.IssueLabels? then IssueLabels(labels) else d
  }

  /** All copies of the issue rewritten to one label list. */
  function Relabelled(data: Store, ws: string, id: string, labels: seq<Label>): Store {
    var a := UpdateUnder(data, ListPrefix(ws), PatchLists(id, LabelPatch(labels)));
    var b := UpdateAt(a, DetailKey(ws, id), SetDetailLabels(labels));
    var c := UpdateAt(b, LabelsKey(ws, id), SetIssueLabels(labels));
    UpdateUnder(c, GanttPrefix(ws), RelabelRows(id, labels))
  }

  /** Every copy of the issue takes the labels and keeps its other fields; nothing else changes. */
  ghost predicate CopiesTakeLabels(before: Store, after: Store, ws: string, id: string, labels: seq<Label>) {
    && before.Keys == after.Keys
    && ListsTakePatch(before, after, ws, {id}, LabelPatch(labels))
    && DetailTakesPatch(Get(before, DetailKey(ws, id)), Get(after, DetailKey(ws, id)), LabelPatch(labels))
    && (forall k | GanttPrefix(ws) <= k :: RowsTakePatch(Get(before, k), Get(after, k), {id}, LabelPatch(labels)))
    && Get(after, LabelsKey(ws, id)) == (
      if LabelsOf(Get(before, LabelsKey(ws, id))).Some? then Some(IssueLabels(labels))
      else Get(before, LabelsKey(ws, id)))
    && forall k | !HoldsCopies(ws, id, k) :: Get(after, k) == Get(before, k)
  }

  predicate HoldsCopies(ws: string, id: string, k: Key) {
    ListPrefix(ws) <= k || GanttPrefix(ws) <= k || k == DetailKey(ws, id) || k == LabelsKey(ws, id)
  }

  lemma LabelPatchSetsLabels(i: Issue, labels: seq<Label>)
    ensures forall j :: TakesPatch(i, j, LabelPatch(labels)) <==> j == i.(labels := Some(labels))
  {
  }

  lemma RelabelledShows(data: Store, ws: string, id: string, labels: seq<Label>)
    ensures CopiesTakeLabels(data, Relabelled(data, ws, id, labels), ws, id, labels)
  {
    var after := Relabelled(data, ws, id, labels);
    RelabelledCopies(data, ws, id, labels);
    PatchListsTakePatch(data, ws, id, LabelPatch(labels));
    forall k | ListPrefix(ws) <= k
      ensures Get(after, k) == Get(UpdateUnder(data, ListPrefix(ws), PatchLists(id, LabelPatch(labels))), k)
    {
      RelabelledAt(data, ws, id, labels, k);
    }
    forall k | GanttPrefix(ws) <= k { RelabelledRows(data, ws, id, labels, k); }
    forall k | !HoldsCopies(ws, id, k) { RelabelledAt(data, ws, id, labels, k); }
  }

  lemma RelabelledRows(data: Store, ws: string, id: string, labels: seq<Label>, k: Key)
    requires GanttPrefix(ws) <= k
    ensures RowsTakePatch(Get(data, k), Get(Relabelled(data, ws, id, labels), k), {id}, LabelPatch(labels))
  {
    RelabelledAt(data, ws, id, labels, k);
    FamiliesApart(ws, id, k);
  }

  lemma RelabelledCopies(data: Store, ws: string, id: string, labels: seq<Label>)
    ensures var after := Relabelled(data, ws, id, labels);
      && data.Keys == after.Keys
      && DetailTakesPatch(Get(data, DetailKey(ws, id)), Get(after, DetailKey(ws, id)), LabelPatch(labels))
      && Get(after, LabelsKey(ws, id)) == (
        if LabelsOf(Get(data, LabelsKey(ws, id))).Some? then Some(IssueLabels(labels))
        else Get(data, LabelsKey(ws, id)))
  {
    forall k ensures k in Relabelled(data, ws, id, labels) <==> k in data { RelabelledAt(data, ws, id, labels, k); }
    RelabelledAt(data, ws, id, labels, DetailKey(ws, id));
    RelabelledAt(data, ws, id, labels, LabelsKey(ws, id));
    FamiliesApart(ws, id, DetailKey(ws, id));
    FamiliesApart(ws, id, LabelsKey(ws, id));
    PatchDetailTakesPatch(Get(data, DetailKey(ws, id)), LabelPatch(labels));
  }

  method OnIssueLabelsChanged(qc: QueryClient, ws: string, id: string, labels: seq<Label>)
    requires qc.Valid()
    modifies qc
    ensures qc.Valid() && qc.data == Relabelled(old(qc.data), ws, id, labels)
    ensures CopiesTakeLabels(old(qc.data), qc.data, ws, id, labels)
    ensures MarkedStale(qc, MyPrefix(ws))
  {
    RelabelledShows(qc.data, ws, id, labels);
    qc.UpdateQueries(ListPrefix(ws), PatchLists(id, LabelPatch(labels)));
    UpdateOne(qc, DetailKey(ws, id), SetDetailLabels(labels));
    UpdateOne(qc, LabelsKey(ws, id), SetIssueLabels(labels));
    qc.UpdateQueries(GanttPrefix(ws), RelabelRows(id, labels));
    qc.InvalidateQueries(MyPrefix(ws));
  }

  function LabelsOf(d: Option<Data>): Option<seq<Label>> {
    if d.Some? && d.value.IssueLabels? then Some(d.value.labels) else None
  }

  predicate HasLabel(labels: seq<Label>, labelId: string) {
    Any((l: Label) => l.id == labelId, labels)
  }

  function FindLabel(d: Option<Data>, labelId: string): Option<Label> {
    if d.Some? && d.value.AllLabels? then FirstLabel(d.value.labels, labelId) else None
  }

  function FirstLabel(labels: seq<Label>, labelId: string): Option<Label> {
    if labels == [] then None
    else if labels[0].id == labelId then Some(labels[0]) else FirstLabel(labels[1..], labelId)
  }

  /** The list attach works towards: unknown, present and unlisted labels change nothing. */
  function AttachTarget(data: Store, ws: string, id: string, labelId: string): Option<seq<Label>> {
    var current, found := LabelsOf(Get(data, LabelsKey(ws, id))), FindLabel(Get(data, LabelListKey(ws)), labelId);
    if current.Some? && !HasLabel(current.value, labelId) && found.Some? then Some(current.value + [found.value])
    else None
  }

  function DetachTarget(data: Store, ws: string, id: string, labelId: string): Option<seq<Label>> {
    var current := LabelsOf(Get(data, LabelsKey(ws, id)));
    if current.Some? then Some(Filter((l: Label) => l.id != labelId, current.value)) else None
  }

  /** An attach adds the listed label at the end: exactly when both lists are loaded, the label is listed in the
      workspace and the issue does not have it. */
  lemma AttachAddsTheLabel(data: Store, ws: string, id: string, labelId: string)
    ensures var own, all := Get(data, LabelsKey(ws, id)), Get(data, LabelListKey(ws));
      var t := AttachTarget(data, ws, id, labelId);
      if own.Some? && own.value.IssueLabels? && all.Some? && all.value.AllLabels?
         && ListsLabel(all.value.labels, labelId) && !ListsLabel(own.value.labels, labelId) then
        && t.Some? && |t.value| == |own.value.labels| + 1 && t.value[..|own.value.labels|] == own.value.labels
        && IsListed(all.value.labels, labelId, t.value[|own.value.labels|])
      else t.None?
  {
    var own, all := Get(data, LabelsKey(ws, id)), Get(data, LabelListKey(ws));
    if all.Some? && all.value.AllLabels? { FirstLabelIs(all.value.labels, labelId); }
    if own.Some? && own.value.IssueLabels? { HasLabelIs(own.value.labels, labelId); }
  }

  predicate ListsLabel(labels: seq<Label>, labelId: string) {
    exists l :: l in labels && l.id == labelId
  }

  /** l is the first listed label with the id. */
  ghost predicate IsListed(labels: seq<Label>, labelId: string, l: Label) {
    exists k: nat :: IsFirstAt(labels, labelId, k) && labels[k] == l
  }

  predicate IsFirstAt(labels: seq<Label>, labelId: string, k: nat) {
    k < |labels| && labels[k].id == labelId && forall j :: 0 <= j < k ==> labels[j].id != labelId
  }

  lemma HasLabelIs(labels: seq<Label>, labelId: string)
    ensures HasLabel(labels, labelId) <==> ListsLabel(labels, labelId)
  {
    assert forall k :: 0 <= k < |labels| ==> labels[k] in labels;
  }

  lemma {:induction false} FirstLabelIs(labels: seq<Label>, labelId: string)
    ensures FirstLabel(labels, labelId).Some? <==> ListsLabel(labels, labelId)
    ensures FirstLabel(labels, labelId).Some? ==> IsListed(labels, labelId, FirstLabel(labels, labelId).value)
  {
    if labels != [] {
      var rest := labels[1..];
      assert labels == [labels[0]] + rest;
      FirstLabelIs(rest, labelId);
      if labels[0].id == labelId {
        assert IsFirstAt(labels, labelId, 0);
      } else if FirstLabel(rest, labelId).Some? {
        var k: nat :| IsFirstAt(rest, labelId, k) && rest[k] == FirstLabel(rest, labelId).value;
        assert forall j :: 0 <= j < |rest| ==> rest[j] == labels[j + 1];
        assert IsFirstAt(labels, labelId, k + 1);
      }
    }
  }

  /** A detach takes out the label wherever it stands, and nothing else; without a loaded list it does nothing. */
  lemma DetachTakesOutTheLabel(data: Store, ws: string, id: string, labelId: string, a: seq<Label>, l: Label,
                               b: seq<Label>)
    requires l.id == labelId && !ListsLabel(a, labelId) && !ListsLabel(b, labelId)
    ensures Get(data, LabelsKey(ws, id)) == Some(IssueLabels(a + [l] + b)) ==>
      DetachTarget(data, ws, id, labelId) == Some(a + b)
    ensures Get(data, LabelsKey(ws, id)) == Some(IssueLabels(a + b)) ==>
      DetachTarget(data, ws, id, labelId) == Some(a + b)
    ensures LabelsOf(Get(data, LabelsKey(ws, id))).None? ==> DetachTarget(data, ws, id, labelId).None?
  {
    OthersAreKept((x: Label) => x.id != labelId, a, l, b);
  }

  lemma OthersAreKept(other: Label -> bool, a: seq<Label>, l: Label, b: seq<Label>)
    requires !other(l) && (forall x :: x in a ==> other(x)) && forall x :: x in b ==> other(x)
    ensures Filter(other, a + [l] + b) == a + b && Filter(other, a + b) == a + b
  {
    FilterAll(other, a);
    FilterAll(other, b);
    FilterNone(other, [l]);
    FilterConcat(other, a + [l], b);
    FilterConcat(other, a, [l]);
    FilterConcat(other, a, b);
    assert a + [] == a;
  }

  /** The byIssue entry is written first, then the list is spread to all copies. */
  function Spread(data: Store, ws: string, id: string, target: Option<seq<Label>>): Store {
    if target.Some?
    then Relabelled(data[LabelsKey(ws, id) := Some(IssueLabels(target.value))], ws, id, target.value)
    else data
  }

  method SpreadLabels(qc: QueryClient, ws: string, id: string, labels: seq<Label>)
    requires qc.Valid()
    modifies qc
    ensures qc.Valid() && qc.data == Spread(old(qc.data), ws, id, Some(labels))
    ensures Get(qc.data, LabelsKey(ws, id)) == Some(IssueLabels(labels))
  {
    qc.SetQueryData(LabelsKey(ws, id), Some(IssueLabels(labels)));
    OnIssueLabelsChanged(qc, ws, id, labels);
  }

  method AttachOnMutate(qc: QueryClient, ws: string, id: string, labelId: string) returns (prev: Option<seq<Label>>)
    requires qc.Valid()
    modifies qc
    ensures qc.Valid() && prev == LabelsOf(Get(old(qc.data), LabelsKey(ws, id)))
    ensures qc.data == Spread(old(qc.data), ws, id, AttachTarget(old(qc.data), ws, id, labelId))
  {
    var current := qc.GetQueryData(LabelsKey(ws, id));
    prev := LabelsOf(current);
    if prev.None? { return; }
    if HasLabel(prev.value, labelId) { return; }
    var list := qc.GetQueryData(LabelListKey(ws));
    var found := FindLabel(list, labelId);
    if found.None? { return; }
    SpreadLabels(qc, ws, id, prev.value + [found.value]);
  }

  method DetachOnMutate(qc: QueryClient, ws: string, id: string, labelId: string) returns (prev: Option<seq<Label>>)
    requires qc.Valid()
    modifies qc
    ensures qc.Valid() && prev == LabelsOf(Get(old(qc.data), LabelsKey(ws, id)))
    ensures qc.data == Spread(old(qc.data), ws, id, DetachTarget(old(qc.data), ws, id, labelId))
  {
    var current := qc.GetQueryData(LabelsKey(ws, id));
    prev := LabelsOf(current);
    if prev.Some? {
      SpreadLabels(qc, ws, id, Filter((l: Label) => l.id != labelId, prev.value));
    }
  }

  /** Both `onError` (with the previous list) and `onSuccess` (with the server's list, when it sent one). */
  method OnSettledWith(qc: QueryClient, ws: string, id: string, labels: Option<seq<Label>>)
    requires qc.Valid()
    modifies qc
    ensures qc.Valid() && qc.data == Spread(old(qc.data), ws, id, labels)
  {
    if labels.Some? {
      SpreadLabels(qc, ws, id, labels.value);
    }
  }

  // ----- Coherence -----

  ghost predicate BucketsAgree(b: Buckets, id: string, labels: seq<Label>) {
    forall s, i :: Paginated(s) && i in GetBucket(b, s).issues && i.id == id ==> i.labels == Some(labels)
  }

  ghost predicate RowsAgree(issues: seq<Issue>, id: string, labels: seq<Label>) {
    forall i :: i in issues && i.id == id ==> i.labels == Some(labels)
  }

  /** Under key k, every copy of the issue shows these labels. */
  ghost predicate AgreeAt(data: Store, ws: string, id: string, labels: seq<Label>, k: Key) {
    var d := Get(data, k);
    && (k == LabelsKey(ws, id) && d.Some? && d.value.IssueLabels? ==> d.value.labels == labels)
    && (k == DetailKey(ws, id) && d.Some? && d.value.Detail? ==> d.value.issue.labels == Some(labels))
    && (ListPrefix(ws) <= k && d.Some? && d.value.Lists? ==> BucketsAgree(d.value.buckets, id, labels))
    && (GanttPrefix(ws) <= k && d.Some? && d.value.Rows? ==> RowsAgree(d.value.issues, id, labels))
  }

  ghost predicate Agree(data: Store, ws: string, id: string, labels: seq<Label>) {
    forall k :: AgreeAt(data, ws, id, labels, k)
  }

  ghost predicate Coherent(data: Store, ws: string, id: string) {
    exists labels :: Agree(data, ws, id, labels)
  }

  /** No cached list holds the issue in two paginated buckets. */
  ghost predicate HeldOnce(data: Store, ws: string, id: string) {
    forall k :: HeldOnceAt(data, ws, id, k)
  }

  ghost predicate HeldOnceAt(data: Store, ws: string, id: string, k: Key) {
    ListPrefix(ws) <= k && Get(data, k).Some? && Get(data, k).value.Lists? ==>
      |HoldersOf(Get(data, k).value.buckets, PAGINATED_STATUSES, id)| <= 1
  }

  lemma PatchedBucketsAgree(b: Buckets, id: string, labels: seq<Label>)
    requires |HoldersOf(b, PAGINATED_STATUSES, id)| <= 1
    ensures var after := PatchIssueInBuckets(b, id, LabelPatch(labels));
      BucketsAgree(after, id, labels) && |HoldersOf(after, PAGINATED_STATUSES, id)| <= 1
  {
    if FindIssueLocation(b, id).None? {
      forall s | Paginated(s) { NowhereHeld(b, id, s); }
    } else {
      LabelPatchAt(b, id, labels);
      LocatedHolds(b, id);
      OneBucketAgrees(b, PatchIssueInBuckets(b, id, LabelPatch(labels)), PAGINATED_STATUSES, id, labels,
        FindIssueLocation(b, id).value.status);
    }
  }

  lemma OneBucketAgrees(b: Buckets, after: Buckets, statuses: seq<Status>, id: string, labels: seq<Label>, at: Status)
    requires at in statuses && Holds(b, at, id) && |HoldersOf(b, statuses, id)| <= 1
    requires forall s :: s != at ==> GetBucket(after, s) == GetBucket(b, s)
    requires Holds(after, at, id)
    requires forall i :: i in GetBucket(after, at).issues && i.id == id ==> i.labels == Some(labels)
    ensures forall s, i :: s in statuses && i in GetBucket(after, s).issues && i.id == id ==> i.labels == Some(labels)
    ensures |HoldersOf(after, statuses, id)| <= 1
  {
    SameHolders(b, after, statuses, id);
    forall s, i | s in statuses && i in GetBucket(after, s).issues && i.id == id ensures i.labels == Some(labels) {
      SoleHolder(b, statuses, id, s, at);
    }
  }

  /** A label patch stays in its bucket and gives every copy there the new labels. */
  lemma LabelPatchAt(b: Buckets, id: string, labels: seq<Label>)
    requires FindIssueLocation(b, id).Some?
    ensures var after, at := PatchIssueInBuckets(b, id, LabelPatch(labels)), FindIssueLocation(b, id).value.status;
      && (forall s :: s != at ==> GetBucket(after, s) == GetBucket(b, s))
      && (Holds(after, at, id) <==> Holds(b, at, id))
      && (forall i :: i in GetBucket(after, at).issues && i.id == id ==> i.labels == Some(labels))
  {
    var loc := FindIssueLocation(b, id).value;
    ReplacedHolds(GetBucket(b, loc.status).issues, id, Merge(loc.issue, LabelPatch(labels)));
  }

  lemma LocatedHolds(b: Buckets, id: string)
    requires FindIssueLocation(b, id).Some?
    ensures Paginated(FindIssueLocation(b, id).value.status) && Holds(b, FindIssueLocation(b, id).value.status, id)
  {
  }

  lemma ReplacedHolds(issues: seq<Issue>, id: string, merged: Issue)
    requires merged.id == id
    ensures FirstWithId(Replaced(issues, id, merged), id).Some? <==> FirstWithId(issues, id).Some?
    ensures forall i :: i in Replaced(issues, id, merged) && i.id == id ==> i == merged
  {
    var after := Replaced(issues, id, merged);
    assert forall k :: 0 <= k < |issues| ==> after[k].id == issues[k].id;
    if FirstWithId(issues, id).Some? {
      var k :| 0 <= k < |issues| && issues[k] == FirstWithId(issues, id).value;
      assert after[k] in after;
    }
    if FirstWithId(after, id).Some? {
      var k :| 0 <= k < |after| && after[k] == FirstWithId(after, id).value;
      assert issues[k] in issues;
    }
  }

  lemma {:induction false} SameHolders(b: Buckets, c: Buckets, statuses: seq<Status>, id: string)
    requires forall s :: s in statuses ==> (Holds(b, s, id) <==> Holds(c, s, id))
    ensures HoldersOf(b, statuses, id) == HoldersOf(c, statuses, id)
  {
    FilterAgree((s: Status) => Holds(b, s, id), (s: Status) => Holds(c, s, id), statuses);
  }

  /** What relabelling does to the data under one key. */
  lemma RelabelledAt(data: Store, ws: string, id: string, labels: seq<Label>, k: Key)
    ensures k in Relabelled(data, ws, id, labels) <==> k in data
    ensures Get(Relabelled(data, ws, id, labels), k) ==
      var d := Get(data, k);
      if d.None? then None
      else if ListPrefix(ws) <= k then Some(PatchLists(id, LabelPatch(labels))(d.value))
      else if k == DetailKey(ws, id) then Some(SetDetailLabels(labels)(d.value))
      else if k == LabelsKey(ws, id) then Some(SetIssueLabels(labels)(d.value))
      else if GanttPrefix(ws) <= k then Some(RelabelRows(id, labels)(d.value))
      else d
  {
    FamiliesApart(ws, id, k);
    FamiliesApart(ws, id, DetailKey(ws, id));
    FamiliesApart(ws, id, LabelsKey(ws, id));
  }

  /** After a relabelling all copies agree, whether or not they did before. */
  lemma RelabelledAgree(data: Store, ws: string, id: string, labels: seq<Label>)
    requires HeldOnce(data, ws, id)
    ensures Agree(Relabelled(data, ws, id, labels), ws, id, labels)
    ensures HeldOnce(Relabelled(data, ws, id, labels), ws, id)
  {
    var after := Relabelled(data, ws, id, labels);
    forall k ensures AgreeAt(after, ws, id, labels, k) && HeldOnceAt(after, ws, id, k) {
      RelabelledKey(data, ws, id, labels, k);
    }
  }

  lemma RelabelledKey(data: Store, ws: string, id: string, labels: seq<Label>, k: Key)
    requires HeldOnceAt(data, ws, id, k)
    ensures AgreeAt(Relabelled(data, ws, id, labels), ws, id, labels, k)
    ensures HeldOnceAt(Relabelled(data, ws, id, labels), ws, id, k)
  {
    RelabelledAt(data, ws, id, labels, k);
    FamiliesApart(ws, id, k);
    var d := Get(data, k);
    if ListPrefix(ws) <= k && d.Some? && d.value.Lists? {
      PatchedBucketsAgree(d.value.buckets, id, labels);
    }
  }

  /** Buckets other than the one that a patch reaches show the labels already. */
  ghost predicate OtherBucketsAgree(b: Buckets, id: string, labels: seq<Label>) {
    var loc := FindIssueLocation(b, id);
    loc.Some? ==>
      forall s, i | Paginated(s) && s != loc.value.status && i in GetBucket(b, s).issues && i.id == id ::
        i.labels == Some(labels)
  }

  lemma PatchedBucketsAgreeIff(b: Buckets, id: string, labels: seq<Label>)
    ensures BucketsAgree(PatchIssueInBuckets(b, id, LabelPatch(labels)), id, labels)
      <==> OtherBucketsAgree(b, id, labels)
  {
    if FindIssueLocation(b, id).Some? {
      LabelPatchAt(b, id, labels);
    } else {
      forall s | Paginated(s) { NowhereHeld(b, id, s); }
    }
  }

  ghost predicate OthersAgreeAt(data: Store, ws: string, id: string, labels: seq<Label>, k: Key) {
    ListPrefix(ws) <= k && Get(data, k).Some? && Get(data, k).value.Lists? ==>
      OtherBucketsAgree(Get(data, k).value.buckets, id, labels)
  }

  /** After a relabelling all copies agree exactly when, in every cached list, further buckets that hold the
      issue show these labels already: a label patch reaches only the first one. */
  lemma RelabelledAgreeIff(data: Store, ws: string, id: string, labels: seq<Label>)
    ensures Agree(Relabelled(data, ws, id, labels), ws, id, labels)
      <==> forall k :: OthersAgreeAt(data, ws, id, labels, k)
  {
    forall k
      ensures AgreeAt(Relabelled(data, ws, id, labels), ws, id, labels, k) <==> OthersAgreeAt(data, ws, id, labels, k)
    {
      RelabelledKeyIff(data, ws, id, labels, k);
    }
  }

  lemma RelabelledKeyIff(data: Store, ws: string, id: string, labels: seq<Label>, k: Key)
    ensures AgreeAt(Relabelled(data, ws, id, labels), ws, id, labels, k) <==> OthersAgreeAt(data, ws, id, labels, k)
  {
    RelabelledAt(data, ws, id, labels, k);
    FamiliesApart(ws, id, k);
    var d := Get(data, k);
    if ListPrefix(ws) <= k && d.Some? && d.value.Lists? {
      PatchedBucketsAgreeIff(d.value.buckets, id, labels);
    }
  }

  datatype LabelStep =
    | Attach(labelId: string)
    | Detach(labelId: string)
    | RollBack(prev: Option<seq<Label>>)
    | Succeed(answer: Option<seq<Label>>)
    | Changed(labels: seq<Label>)

  function TakeStep(data: Store, ws: string, id: string, step: LabelStep): Store {
    match step
    case Attach(l) => Spread(data, ws, id, AttachTarget(data, ws, id, l))
    case Detach(l) => Spread(data, ws, id, DetachTarget(data, ws, id, l))
    case RollBack(prev) => Spread(data, ws, id, prev)
    case Succeed(answer) => Spread(data, ws, id, answer)
    case Changed(labels) => Relabelled(data, ws, id, labels)
  }

  function TakeSteps(data: Store, ws: string, id: string, steps: seq<LabelStep>): Store
    decreases |steps|
  {
    if steps == [] then data else TakeSteps(TakeStep(data, ws, id, steps[0]), ws, id, steps[1..])
  }

  lemma SpreadAgrees(data: Store, ws: string, id: string, labels: seq<Label>)
    requires HeldOnce(data, ws, id)
    ensures Agree(Spread(data, ws, id, Some(labels)), ws, id, labels)
    ensures HeldOnce(Spread(data, ws, id, Some(labels)), ws, id)
  {
    var written := data[LabelsKey(ws, id) := Some(IssueLabels(labels))];
    forall k ensures HeldOnceAt(written, ws, id, k) {
      FamiliesApart(ws, id, k);
      assert HeldOnceAt(data, ws, id, k);
    }
    RelabelledAgree(written, ws, id, labels);
  }

  lemma StepKeepsCoherence(data: Store, ws: string, id: string, step: LabelStep)
    requires HeldOnce(data, ws, id) && Coherent(data, ws, id)
    ensures HeldOnce(TakeStep(data, ws, id, step), ws, id) && Coherent(TakeStep(data, ws, id, step), ws, id)
  {
    match step
    case Changed(labels) => RelabelledAgree(data, ws, id, labels);
    case _ =>
      var target := match step
        case Attach(l) => AttachTarget(data, ws, id, l)
        case Detach(l) => DetachTarget(data, ws, id, l)
        case RollBack(prev) => prev
        case Succeed(answer) => answer
        case Changed(labels) => None;
      if target.Some? { SpreadAgrees(data, ws, id, target.value); }
  }

  /** Label coherence over every run of attaches, detaches, rollbacks, answers and events. */
  lemma {:induction false} RunKeepsCoherence(data: Store, ws: string, id: string, steps: seq<LabelStep>)
    requires HeldOnce(data, ws, id) && Coherent(data, ws, id)
    ensures HeldOnce(TakeSteps(data, ws, id, steps), ws, id) && Coherent(TakeSteps(data, ws, id, steps), ws, id)
    decreases |steps|
  {
    if steps != [] {
      StepKeepsCoherence(data, ws, id, steps[0]);
      RunKeepsCoherence(TakeStep(data, ws, id, steps[0]), ws, id, steps[1..]);
    }
  }

  /** Rolling an attach or detach back with what its onMutate returned: nothing happened when no labels were
      known, and otherwise every copy shows again the labels that all copies showed before. */
  lemma RollbackShowsPrevious(data: Store, ws: string, id: string, step: LabelStep)
    requires step.Attach? || step.Detach?
    requires HeldOnce(data, ws, id) && Coherent(data, ws, id)
    ensures var prev := LabelsOf(Get(data, LabelsKey(ws, id)));
      var rolledBack := Spread(TakeStep(data, ws, id, step), ws, id, prev);
      if prev.Some? then Agree(data, ws, id, prev.value) && Agree(rolledBack, ws, id, prev.value)
      else rolledBack == data
  {
    var prev := LabelsOf(Get(data, LabelsKey(ws, id)));
    if prev.Some? {
      var labels :| Agree(data, ws, id, labels);
      assert AgreeAt(data, ws, id, labels, LabelsKey(ws, id));
      StepKeepsCoherence(data, ws, id, step);
      SpreadAgrees(TakeStep(data, ws, id, step), ws, id, prev.value);
    }
  }
}
