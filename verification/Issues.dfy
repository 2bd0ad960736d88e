// Issues, and the list cache that keeps them in one bucket per status.

module Issues {
  import opened Options
  import opened Seqs

  datatype Status = Backlog | Todo | InProgress | InReview | Done | Blocked | Cancelled

  datatype Label = Label(id: string, name: string, color: string)

  datatype Issue = Issue(
    id: string,
    status: Status,
    title: string,
    position: int,
    parentId: Option<string>,
    projectId: Option<string>,
    labels: Option<seq<Label>>)

  /** The fields a patch carries; the id of an issue is never patched. */
  datatype Patch = Patch(
    status: Option<Status>,
    title: Option<string>,
    position: Option<int>,
    parentId: Option<Option<string>>,
    projectId: Option<Option<string>>,
    labels: Option<seq<Label>>)

  function Or<T>(patched: Option<T>, current: T): T {
    if patched.Some? then patched.value else current
  }

  function Merge(i: Issue, p: Patch): Issue {
    Issue(i.id, Or(p.status, i.status), Or(p.title, i.title), Or(p.position, i.position),
          Or(p.parentId, i.parentId), Or(p.projectId, i.projectId),
          if p.labels.Some? then p.labels else i.labels)
  }

  /** after is before with the patch: the new value in every field that the patch carries, the old one elsewhere. */
  predicate TakesPatch(before: Issue, after: Issue, p: Patch) {
    && after.id == before.id
    && (if p.status.Some? then after.status == p.status.value else after.status == before.status)
    && (if p.title.Some? then after.title == p.title.value else after.title == before.title)
    && (if p.position.Some? then after.position == p.position.value else after.position == before.position)
    && (if p.parentId.Some? then after.parentId == p.parentId.value else after.parentId == before.parentId)
    && (if p.projectId.Some? then after.projectId == p.projectId.value else after.projectId == before.projectId)
    && (if p.labels.Some? then after.labels == p.labels else after.labels == before.labels)
  }

  lemma MergeTakesPatch(i: Issue, p: Patch)
    ensures forall j :: TakesPatch(i, j, p) <==> j == Merge(i, p)
  {
  }

  datatype Bucket = Bucket(issues: seq<Issue>, total: int)

  type Buckets = map<Status, Bucket>

  const EMPTY_BUCKET := Bucket([], 0)

  /** The statuses that lists and boards show; cancelled issues are not shown. */
  const PAGINATED_STATUSES := [Backlog, Todo, InProgress, InReview, Done, Blocked]

  predicate Paginated(s: Status) {
    s in PAGINATED_STATUSES
  }

  function GetBucket(resp: Buckets, s: Status): Bucket {
    if s in resp then resp[s] else EMPTY_BUCKET
  }

  function SetBucket(resp: Buckets, s: Status, b: Bucket): Buckets {
    resp[s := b]
  }

  /** `find` by id. */
  function FirstWithId(issues: seq<Issue>, id: string): (r: Option<Issue>)
    ensures r.Some? ==> r.value in issues && r.value.id == id
    ensures r.None? ==> forall i :: i in issues ==> i.id != id
  {
    if issues == [] then None
    else
      assert issues == [issues[0]] + issues[1..];
      if issues[0].id == id then Some(issues[0]) else FirstWithId(issues[1..], id)
  }

  /** It is the first one. */
  lemma {:induction false} FirstWithIdIsFirst(issues: seq<Issue>, id: string, k: nat)
    requires k < |issues| && issues[k].id == id && forall j :: 0 <= j < k ==> issues[j].id != id
    ensures FirstWithId(issues, id) == Some(issues[k])
  {
    if k > 0 {
      FirstWithIdIsFirst(issues[1..], id, k - 1);
    }
  }

  datatype Location = Location(status: Status, issue: Issue)

  function LocateIn(resp: Buckets, statuses: seq<Status>, id: string): (loc: Option<Location>)
    ensures loc.Some? ==>
      && loc.value.status in statuses && loc.value.status in resp
      && loc.value.issue in resp[loc.value.status].issues && loc.value.issue.id == id
    ensures loc.None? ==>
      forall s, i :: s in statuses && s in resp && i in resp[s].issues ==> i.id != id
  {
    if statuses == [] then None
    else
      assert statuses == [statuses[0]] + statuses[1..];
      var found := FirstWithId(GetBucket(resp, statuses[0]).issues, id);
      if found.Some? then Some(Location(statuses[0], found.value))
      else LocateIn(resp, statuses[1..], id)
  }

  /** The first scanned bucket that holds id decides, by the first issue of that id in it. */
  lemma {:induction false} LocatedInFirstHolder(resp: Buckets, statuses: seq<Status>, id: string, k: nat)
    requires k < |statuses| && FirstWithId(GetBucket(resp, statuses[k]).issues, id).Some?
    requires forall j :: 0 <= j < k ==> FirstWithId(GetBucket(resp, statuses[j]).issues, id).None?
    ensures LocateIn(resp, statuses, id)
      == Some(Location(statuses[k], FirstWithId(GetBucket(resp, statuses[k]).issues, id).value))
  {
    if k > 0 {
      LocatedInFirstHolder(resp, statuses[1..], id, k - 1);
    }
  }

  /** The first paginated bucket that holds id. */
  function FindIssueLocation(resp: Buckets, id: string): Option<Location> {
    LocateIn(resp, PAGINATED_STATUSES, id)
  }

  function AddIssueToBuckets(resp: Buckets, issue: Issue): Buckets {
    var bucket := GetBucket(resp, issue.status);
    if Any((i: Issue) => i.id == issue.id, bucket.issues) then resp
    else SetBucket(resp, issue.status, Bucket(bucket.issues + [issue], bucket.total + 1))
  }

  function Without(issues: seq<Issue>, id: string): seq<Issue> {
    Filter((i: Issue) => i.id != id, issues)
  }

  function Replaced(issues: seq<Issue>, id: string, merged: Issue): seq<Issue> {
    Map((i: Issue) => if i.id == id then merged else i, issues)
  }

  function Max(a: int, b: int): int {
    if a < b then b else a
  }

  function RemoveIssueFromBuckets(resp: Buckets, id: string): Buckets {
    var loc := FindIssueLocation(resp, id);
    if loc.None? then resp
    else
      var bucket := GetBucket(resp, loc.value.status);
      SetBucket(resp, loc.value.status, Bucket(Without(bucket.issues, id), Max(0, bucket.total - 1)))
  }

  function PatchIssueInBuckets(resp: Buckets, id: string, patch: Patch): Buckets {
    var loc := FindIssueLocation(resp, id);
    if loc.None? then resp
    else
      var merged := Merge(loc.value.issue, patch);
      var nextStatus := Or(patch.status, loc.value.status);
      var fromBucket := GetBucket(resp, loc.value.status);
      if nextStatus == loc.value.status then
        SetBucket(resp, nextStatus, fromBucket.(issues := Replaced(fromBucket.issues, id, merged)))
      else
        var toBucket := GetBucket(resp, nextStatus);
        var next := SetBucket(resp, loc.value.status,
          Bucket(Without(fromBucket.issues, id), Max(0, fromBucket.total - 1)));
        SetBucket(next, nextStatus, Bucket(toBucket.issues + [merged], toBucket.total + 1))
  }

  function FlattenIssueBuckets(resp: Buckets): seq<Issue> {
    FlattenStatuses(resp, PAGINATED_STATUSES)
  }

  function FlattenStatuses(resp: Buckets, statuses: seq<Status>): seq<Issue> {
    if statuses == [] then []
    else GetBucket(resp, statuses[0]).issues + FlattenStatuses(resp, statuses[1..])
  }

  function TotalOf(resp: Buckets, statuses: seq<Status>): int {
    if statuses == [] then 0
    else GetBucket(resp, statuses[0]).total + TotalOf(resp, statuses[1..])
  }
}
