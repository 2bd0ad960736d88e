// The bucketed list cache against the server's issues: what every step of
// created / updated / deleted events keeps, and which issues a run can miss.

module IssueTracking {
  import opened Options
  import opened Seqs
  import opened Issues

  ghost predicate DistinctIssues(issues: seq<Issue>) {
    forall i, j :: 0 <= i < j < |issues| ==> issues[i].id != issues[j].id
  }

  /** The bucket is in order: ids are distinct, statuses fit, and the total is no less than what is loaded. */
  ghost predicate BucketValid(s: Status, b: Bucket) {
    && DistinctIssues(b.issues)
    && (forall i :: i in b.issues ==> i.status == s)
    && b.total >= |b.issues|
  }

  /** i is shown by the cache. */
  predicate Shows(resp: Buckets, i: Issue) {
    Paginated(i.status) && i.status in resp && i in resp[i.status].issues
  }

  ghost predicate BucketsValid(resp: Buckets) {
    forall s :: s in resp && Paginated(s) ==> BucketValid(s, resp[s])
  }

  /** No id is shown twice, in one bucket or across buckets. */
  ghost predicate ShownOnce(resp: Buckets) {
    forall i, j :: Shows(resp, i) && Shows(resp, j) && i.id == j.id ==> i == j
  }

  ghost predicate Valid(resp: Buckets) {
    BucketsValid(resp) && ShownOnce(resp)
  }

  /** The issue the cache shows under an id. */
  function Lookup(resp: Buckets, id: string): Option<Issue> {
    var loc := FindIssueLocation(resp, id);
    if loc.Some? then Some(loc.value.issue) else None
  }

  lemma LookupIsShown(resp: Buckets, id: string)
    requires Valid(resp)
    ensures forall i :: Lookup(resp, id) == Some(i) <==> Shows(resp, i) && i.id == id
    ensures Lookup(resp, id).Some? ==>
      var loc := FindIssueLocation(resp, id).value;
      Paginated(loc.status) && loc.status == loc.issue.status
  {
    var loc := FindIssueLocation(resp, id);
    if loc.Some? {
      assert BucketValid(loc.value.status, resp[loc.value.status]);
      assert Shows(resp, loc.value.issue);
    }
  }

  lemma ShowsDecidesLookup(a: Buckets, b: Buckets, id: string)
    requires Valid(a) && Valid(b)
    requires forall i: Issue :: i.id == id ==> (Shows(a, i) <==> Shows(b, i))
    ensures Lookup(a, id) == Lookup(b, id)
  {
    LookupIsShown(a, id);
    LookupIsShown(b, id);
    if Lookup(a, id).Some? { assert Shows(a, Lookup(a, id).value); }
    if Lookup(b, id).Some? { assert Shows(b, Lookup(b, id).value); }
  }

  // ----- Each cache operation, as a change of what is shown -----

  /** Whatever else is shown stays shown. */
  lemma AddShows(resp: Buckets, issue: Issue, i: Issue)
    ensures Shows(AddIssueToBuckets(resp, issue), i) <==> Shows(resp, i) || (i == issue && AddsIt(resp, issue))
  {
  }

  /** The issue is put into its bucket, and the bucket is one that lists show. */
  predicate AddsIt(resp: Buckets, issue: Issue) {
    Paginated(issue.status) && !Any((i: Issue) => i.id == issue.id, GetBucket(resp, issue.status).issues)
  }

  /** No issue of that id is shown in another bucket. */
  ghost predicate NotElsewhere(resp: Buckets, issue: Issue) {
    forall i :: Shows(resp, i) && i.id == issue.id ==> i.status == issue.status
  }

  /** Adding keeps a cache valid exactly when no other bucket shows the issue, if lists show its bucket at all. */
  lemma AddKeepsValidIff(resp: Buckets, issue: Issue)
    requires Valid(resp)
    ensures Valid(AddIssueToBuckets(resp, issue)) <==> (Paginated(issue.status) ==> NotElsewhere(resp, issue))
  {
    var after := AddIssueToBuckets(resp, issue);
    forall i { AddShows(resp, issue, i); }
    AddKeepsBuckets(resp, issue);
    if AddsIt(resp, issue) {
      assert Shows(after, issue);
      NewIsNotShown(resp, issue);
    } else if Paginated(issue.status) {
      var b := GetBucket(resp, issue.status);
      var k :| 0 <= k < |b.issues| && b.issues[k].id == issue.id;
      assert b.issues[k] in b.issues && Shows(resp, b.issues[k]);
    }
  }

  lemma NewIsNotShown(resp: Buckets, issue: Issue)
    requires Valid(resp) && AddsIt(resp, issue)
    ensures forall i :: Shows(resp, i) && i.id == issue.id ==> i.status != issue.status
  {
    forall i | Shows(resp, i) && i.id == issue.id ensures i.status != issue.status {
      HeldIsFound(GetBucket(resp, issue.status).issues, i);
    }
  }

  lemma HeldIsFound(issues: seq<Issue>, i: Issue)
    ensures i in issues ==> Any((x: Issue) => x.id == i.id, issues)
  {
    if i in issues {
      var k :| 0 <= k < |issues| && issues[k] == i;
    }
  }

  lemma AddKeepsBuckets(resp: Buckets, issue: Issue)
    requires BucketsValid(resp)
    ensures BucketsValid(AddIssueToBuckets(resp, issue))
  {
    var b := GetBucket(resp, issue.status);
    if AddsIt(resp, issue) {
      forall i | i in b.issues ensures i.id != issue.id {
        var k :| 0 <= k < |b.issues| && b.issues[k] == i;
      }
      assert BucketValid(issue.status, b);
      AppendValid(issue.status, b, issue);
    }
  }

  lemma AddKeepsValid(resp: Buckets, issue: Issue)
    requires Valid(resp) && (Paginated(issue.status) ==> NotElsewhere(resp, issue))
    ensures Valid(AddIssueToBuckets(resp, issue))
    ensures forall i: Issue :: i.id != issue.id ==> (Shows(AddIssueToBuckets(resp, issue), i) <==> Shows(resp, i))
    ensures Lookup(resp, issue.id).None? && Paginated(issue.status) ==> Shows(AddIssueToBuckets(resp, issue), issue)
  {
    AddKeepsValidIff(resp, issue);
    forall i { AddShows(resp, issue, i); }
    if Lookup(resp, issue.id).None? && Paginated(issue.status) {
      var b := GetBucket(resp, issue.status);
      if k :| 0 <= k < |b.issues| && b.issues[k].id == issue.id {
        assert b.issues[k] in b.issues && BucketValid(issue.status, b);
        LookupIsShown(resp, issue.id);
        assert Shows(resp, b.issues[k]);
      }
      assert AddsIt(resp, issue);
    }
  }

  lemma {:induction false} WithoutDistinct(issues: seq<Issue>, id: string)
    requires DistinctIssues(issues)
    ensures DistinctIssues(Without(issues, id))
  {
    if issues != [] {
      var first, rest := issues[0], issues[1..];
      assert forall k :: 0 <= k < |rest| ==> rest[k] == issues[k + 1];
      WithoutDistinct(rest, id);
      assert issues == [first] + rest;
      FilterCons((i: Issue) => i.id != id, first, rest);
      DistinctCons(first, Without(rest, id));
    }
  }

  lemma DistinctCons(first: Issue, rest: seq<Issue>)
    requires DistinctIssues(rest) && forall i :: i in rest ==> i.id != first.id
    ensures DistinctIssues([first] + rest)
  {
  }

  lemma {:induction false} WithoutShrinks(issues: seq<Issue>, id: string)
    requires exists i :: i in issues && i.id == id
    ensures |Without(issues, id)| <= |issues| - 1
  {
    var first, rest := issues[0], issues[1..];
    assert issues == [first] + rest;
    FilterCons((i: Issue) => i.id != id, first, rest);
    if first.id != id {
      WithoutShrinks(rest, id);
    }
  }

  lemma BucketWithoutValid(s: Status, b: Bucket, id: string)
    requires BucketValid(s, b)
    requires exists i :: i in b.issues && i.id == id
    ensures BucketValid(s, Bucket(Without(b.issues, id), Max(0, b.total - 1)))
    ensures Max(0, b.total - 1) == b.total - 1
  {
    WithoutDistinct(b.issues, id);
    WithoutShrinks(b.issues, id);
  }

  lemma RemoveKeepsValid(resp: Buckets, id: string)
    requires Valid(resp)
    ensures Valid(RemoveIssueFromBuckets(resp, id))
    ensures forall i :: Shows(RemoveIssueFromBuckets(resp, id), i) <==> Shows(resp, i) && i.id != id
  {
    LookupIsShown(resp, id);
    var loc, after := FindIssueLocation(resp, id), RemoveIssueFromBuckets(resp, id);
    if loc.Some? {
      var s := loc.value.status;
      BucketWithoutValid(s, resp[s], id);
      forall i ensures Shows(after, i) <==> Shows(resp, i) && i.id != id {
        if Shows(resp, i) && i.id == id { assert i == loc.value.issue; }
      }
    } else {
      forall i | Shows(resp, i) ensures i.id != id { }
    }
  }

  lemma BucketReplacedValid(s: Status, b: Bucket, id: string, merged: Issue)
    requires BucketValid(s, b) && merged.id == id && merged.status == s
    ensures BucketValid(s, b.(issues := Replaced(b.issues, id, merged)))
    ensures forall i: Issue :: i.id != id ==> (i in Replaced(b.issues, id, merged) <==> i in b.issues)
    ensures (exists i :: i in b.issues && i.id == id) ==> merged in Replaced(b.issues, id, merged)
    ensures forall i :: i in Replaced(b.issues, id, merged) && i.id == id ==> i == merged
  {
    var after := Replaced(b.issues, id, merged);
    assert forall k :: 0 <= k < |after| ==> after[k].id == b.issues[k].id;
    forall i | i in b.issues && i.id != id ensures i in after {
      var k :| 0 <= k < |b.issues| && b.issues[k] == i;
      assert after[k] == i;
    }
    if i :| i in b.issues && i.id == id {
      var k :| 0 <= k < |b.issues| && b.issues[k] == i;
      assert after[k] == merged;
    }
  }

  /** A patch replaces the shown issue, or hides it when its new status is not paginated. */
  lemma PatchKeepsValid(resp: Buckets, id: string, p: Patch)
    requires Valid(resp)
    ensures Valid(PatchIssueInBuckets(resp, id, p))
    ensures forall i: Issue :: i.id != id ==> (Shows(PatchIssueInBuckets(resp, id, p), i) <==> Shows(resp, i))
    ensures forall i: Issue :: i.id == id ==> (Shows(PatchIssueInBuckets(resp, id, p), i) <==>
      Lookup(resp, id).Some? && i == Merge(Lookup(resp, id).value, p) && Paginated(i.status))
  {
    LookupIsShown(resp, id);
    var loc := FindIssueLocation(resp, id);
    if loc.Some? {
      if Or(p.status, loc.value.status) == loc.value.status {
        PatchInPlace(resp, id, p);
      } else {
        PatchAcross(resp, id, p);
      }
    }
  }

  lemma PatchInPlace(resp: Buckets, id: string, p: Patch)
    requires Valid(resp) && FindIssueLocation(resp, id).Some?
    requires Or(p.status, FindIssueLocation(resp, id).value.status) == FindIssueLocation(resp, id).value.status
    ensures Valid(PatchIssueInBuckets(resp, id, p))
    ensures forall i: Issue :: i.id != id ==> (Shows(PatchIssueInBuckets(resp, id, p), i) <==> Shows(resp, i))
    ensures forall i: Issue :: i.id == id ==>
      (Shows(PatchIssueInBuckets(resp, id, p), i) <==> i == Merge(Lookup(resp, id).value, p))
  {
    LookupIsShown(resp, id);
    var i := FindIssueLocation(resp, id).value.issue;
    InPlaceKeepsValid(resp, i, Merge(i, p));
    forall x { InPlaceShows(resp, i, Merge(i, p), x); }
  }

  function InPlace(resp: Buckets, i: Issue, merged: Issue): Buckets
    requires i.status in resp
  {
    resp[i.status := resp[i.status].(issues := Replaced(resp[i.status].issues, i.id, merged))]
  }

  lemma InPlaceShows(resp: Buckets, i: Issue, merged: Issue, x: Issue)
    requires BucketsValid(resp) && ShownOnce(resp) && Shows(resp, i)
    requires merged.id == i.id && merged.status == i.status
    ensures Shows(InPlace(resp, i, merged), x) <==> (Shows(resp, x) && x.id != i.id) || x == merged
  {
    BucketReplacedValid(i.status, resp[i.status], i.id, merged);
    assert Shows(resp, x) && x.id == i.id ==> x == i;
  }

  lemma InPlaceKeepsValid(resp: Buckets, i: Issue, merged: Issue)
    requires Valid(resp) && Shows(resp, i) && merged.id == i.id && merged.status == i.status
    ensures Valid(InPlace(resp, i, merged))
  {
    BucketReplacedValid(i.status, resp[i.status], i.id, merged);
    PutKeepsBuckets(resp, i.status, resp[i.status].(issues := Replaced(resp[i.status].issues, i.id, merged)));
    forall x, y | Shows(InPlace(resp, i, merged), x) && Shows(InPlace(resp, i, merged), y) && x.id == y.id
      ensures x == y
    {
      InPlaceShows(resp, i, merged, x);
      InPlaceShows(resp, i, merged, y);
    }
  }

  lemma PatchAcross(resp: Buckets, id: string, p: Patch)
    requires Valid(resp) && FindIssueLocation(resp, id).Some?
    requires Or(p.status, FindIssueLocation(resp, id).value.status) != FindIssueLocation(resp, id).value.status
    ensures Valid(PatchIssueInBuckets(resp, id, p))
    ensures forall i: Issue :: i.id != id ==> (Shows(PatchIssueInBuckets(resp, id, p), i) <==> Shows(resp, i))
    ensures forall i: Issue :: i.id == id ==> (Shows(PatchIssueInBuckets(resp, id, p), i) <==>
      i == Merge(Lookup(resp, id).value, p) && Paginated(i.status))
  {
    PatchIsMove(resp, id, p);
    var i := Lookup(resp, id).value;
    MoveKeepsValid(resp, i, Merge(i, p));
    forall x { MoveShows(resp, i, Merge(i, p), x); }
  }

  lemma PatchIsMove(resp: Buckets, id: string, p: Patch)
    requires Valid(resp) && FindIssueLocation(resp, id).Some?
    requires Or(p.status, FindIssueLocation(resp, id).value.status) != FindIssueLocation(resp, id).value.status
    ensures Lookup(resp, id).Some? && Shows(resp, Lookup(resp, id).value) && Lookup(resp, id).value.id == id
    ensures var i := Lookup(resp, id).value;
      Merge(i, p).status != i.status && PatchIssueInBuckets(resp, id, p) == Moved(resp, i, Merge(i, p))
  {
    LookupIsShown(resp, id);
    PatchMoves(resp, id, p, FindIssueLocation(resp, id).value.issue);
  }

  lemma PatchMoves(resp: Buckets, id: string, p: Patch, i: Issue)
    requires FindIssueLocation(resp, id) == Some(Location(i.status, i)) && Or(p.status, i.status) != i.status
    ensures i.status in resp && i.id == id && Merge(i, p).status != i.status
    ensures PatchIssueInBuckets(resp, id, p) == Moved(resp, i, Merge(i, p))
  {
  }

  function Moved(resp: Buckets, i: Issue, merged: Issue): Buckets
    requires i.status in resp
  {
    var b, target := resp[i.status], GetBucket(resp, merged.status);
    resp[i.status := Bucket(Without(b.issues, i.id), Max(0, b.total - 1))]
        [merged.status := Bucket(target.issues + [merged], target.total + 1)]
  }

  lemma MoveShows(resp: Buckets, i: Issue, merged: Issue, x: Issue)
    requires BucketsValid(resp) && ShownOnce(resp) && Shows(resp, i)
    requires merged.id == i.id && merged.status != i.status
    ensures Shows(Moved(resp, i, merged), x) <==>
      (Shows(resp, x) && x.id != i.id) || (x == merged && Paginated(merged.status))
  {
  }

  lemma MoveKeepsBuckets(resp: Buckets, i: Issue, merged: Issue)
    requires BucketsValid(resp) && ShownOnce(resp) && Shows(resp, i)
    requires merged.id == i.id && merged.status != i.status
    ensures BucketsValid(Moved(resp, i, merged))
  {
    var b, target := resp[i.status], GetBucket(resp, merged.status);
    var left := Bucket(Without(b.issues, i.id), Max(0, b.total - 1));
    var joined := Bucket(target.issues + [merged], target.total + 1);
    BucketWithoutValid(i.status, b, i.id);
    PutKeepsBuckets(resp, i.status, left);
    if Paginated(merged.status) {
      TargetLacksIssue(resp, i, merged);
      AppendValid(merged.status, target, merged);
    }
    PutKeepsBuckets(resp[i.status := left], merged.status, joined);
  }

  lemma PutKeepsBuckets(resp: Buckets, s: Status, b: Bucket)
    requires BucketsValid(resp) && (Paginated(s) ==> BucketValid(s, b))
    ensures BucketsValid(resp[s := b])
  {
  }

  lemma TargetLacksIssue(resp: Buckets, i: Issue, merged: Issue)
    requires BucketsValid(resp) && ShownOnce(resp) && Shows(resp, i)
    requires merged.status != i.status && Paginated(merged.status)
    ensures BucketValid(merged.status, GetBucket(resp, merged.status))
    ensures forall x :: x in GetBucket(resp, merged.status).issues ==> x.id != i.id
  {
    forall x | x in GetBucket(resp, merged.status).issues ensures x.id != i.id {
      assert x.id == i.id ==> Shows(resp, x);
    }
  }

  lemma AppendValid(s: Status, b: Bucket, i: Issue)
    requires BucketValid(s, b) && i.status == s
    requires forall x :: x in b.issues ==> x.id != i.id
    ensures BucketValid(s, Bucket(b.issues + [i], b.total + 1))
  {
  }

  lemma MoveKeepsValid(resp: Buckets, i: Issue, merged: Issue)
    requires Valid(resp) && Shows(resp, i) && merged.id == i.id && merged.status != i.status
    ensures Valid(Moved(resp, i, merged))
  {
    MoveKeepsBuckets(resp, i, merged);
    forall x, y | Shows(Moved(resp, i, merged), x) && Shows(Moved(resp, i, merged), y) && x.id == y.id
      ensures x == y
    {
      MoveShows(resp, i, merged, x);
      MoveShows(resp, i, merged, y);
    }
  }

  // ----- Server events -----

  type Server = map<string, Issue>

  datatype Event = Created(issue: Issue) | Updated(id: string, patch: Patch) | Deleted(id: string)

  ghost predicate ServerValid(server: Server) {
    forall id :: id in server ==> server[id].id == id
  }

  /** Created ids are new and updated ids exist. */
  predicate Legal(server: Server, e: Event) {
    match e
    case Created(issue) => issue.id !in server
    case Updated(id, _) => id in server
    case Deleted(_) => true
  }

  function ServerStep(server: Server, e: Event): Server {
    match e
    case Created(issue) => server[issue.id := issue]
    case Updated(id, p) => if id in server then server[id := Merge(server[id], p)] else server
    case Deleted(id) => server - {id}
  }

  function CacheStep(resp: Buckets, e: Event): Buckets {
    match e
    case Created(issue) => AddIssueToBuckets(resp, issue)
    case Updated(id, p) => PatchIssueInBuckets(resp, id, p)
    case Deleted(id) => RemoveIssueFromBuckets(resp, id)
  }

  /** The issue comes back from a status that lists do not hold. */
  predicate Returns(server: Server, e: Event) {
    e.Updated? && e.id in server
    && !Paginated(server[e.id].status) && Paginated(Merge(server[e.id], e.patch).status)
  }

  /** The issues a cache cannot know: those that came back and were not created anew since. */
  function MissedStep(server: Server, missed: set<string>, e: Event): set<string> {
    match e
    case Created(issue) => missed - {issue.id}
    case Updated(id, _) => if Returns(server, e) then missed + {id} else missed
    case Deleted(id) => missed - {id}
  }

  /** The cache shows exactly the server's issues in paginated statuses, but for the missed ones. */
  ghost predicate Tracks(resp: Buckets, server: Server, missed: set<string>) {
    forall id :: Lookup(resp, id) == Expected(server, missed, id)
  }

  function Expected(server: Server, missed: set<string>, id: string): Option<Issue> {
    if id in server && Paginated(server[id].status) && id !in missed then Some(server[id]) else None
  }

  lemma LookupAfterCreate(resp: Buckets, issue: Issue, x: string)
    requires Valid(resp) && Lookup(resp, issue.id).None?
    ensures Valid(AddIssueToBuckets(resp, issue))
    ensures Lookup(AddIssueToBuckets(resp, issue), x) ==
      if x == issue.id && Paginated(issue.status) then Some(issue) else Lookup(resp, x)
  {
    var after := AddIssueToBuckets(resp, issue);
    LookupIsShown(resp, issue.id);
    assert forall i :: Shows(resp, i) && i.id == issue.id ==> Lookup(resp, issue.id) == Some(i);
    AddKeepsValid(resp, issue);
    LookupIsShown(after, x);
    if x != issue.id {
      ShowsDecidesLookup(resp, after, x);
    } else if !Paginated(issue.status) {
      forall i: Issue | i.id == x ensures Shows(after, i) <==> Shows(resp, i) { }
      ShowsDecidesLookup(resp, after, x);
    }
  }

  lemma LookupAfterDelete(resp: Buckets, id: string, x: string)
    requires Valid(resp)
    ensures Valid(RemoveIssueFromBuckets(resp, id))
    ensures Lookup(RemoveIssueFromBuckets(resp, id), x) == if x == id then None else Lookup(resp, x)
  {
    var after := RemoveIssueFromBuckets(resp, id);
    RemoveKeepsValid(resp, id);
    LookupIsShown(after, x);
    if x != id { ShowsDecidesLookup(resp, after, x); }
  }

  lemma LookupAfterPatch(resp: Buckets, id: string, p: Patch, x: string)
    requires Valid(resp)
    ensures Valid(PatchIssueInBuckets(resp, id, p))
    ensures Lookup(PatchIssueInBuckets(resp, id, p), x) ==
      if x != id then Lookup(resp, x)
      else if Lookup(resp, id).Some? && Paginated(Merge(Lookup(resp, id).value, p).status)
      then Some(Merge(Lookup(resp, id).value, p))
      else None
  {
    var after := PatchIssueInBuckets(resp, id, p);
    PatchKeepsValid(resp, id, p);
    LookupIsShown(resp, id);
    LookupIsShown(after, x);
    if x != id { ShowsDecidesLookup(resp, after, x); }
  }

  /** What a patch does to what is shown under one id: another id, or one not shown, stays as it is; a patched
      issue takes the patch, or is no longer shown when its new status is not one of the lists'. */
  predicate ShownTakesPatch(before: Option<Issue>, after: Option<Issue>, patched: bool, p: Patch) {
    if before.None? || !patched then after == before
    else if p.status.Some? && !Paginated(p.status.value) then after.None?
    else after.Some? && TakesPatch(before.value, after.value, p)
  }

  /** The list shows the issues of ids with the patch, and every other one as before. */
  ghost predicate ListTakesPatch(before: Buckets, after: Buckets, ids: set<string>, p: Patch) {
    forall x :: ShownTakesPatch(Lookup(before, x), Lookup(after, x), x in ids, p)
  }

  /** Field by field: the issue shown under the patched id takes the patch, whatever fields that carries. */
  lemma PatchedListTakesPatch(resp: Buckets, id: string, p: Patch)
    requires Valid(resp)
    ensures Valid(PatchIssueInBuckets(resp, id, p))
    ensures ListTakesPatch(resp, PatchIssueInBuckets(resp, id, p), {id}, p)
  {
    LookupAfterPatch(resp, id, p, id);
    forall x ensures ShownTakesPatch(Lookup(resp, x), Lookup(PatchIssueInBuckets(resp, id, p), x), x in {id}, p) {
      LookupAfterPatch(resp, id, p, x);
      LookupIsShown(resp, x);
      if Lookup(resp, x).Some? { MergeTakesPatch(Lookup(resp, x).value, p); }
    }
  }

  /** One event keeps the cache in step, whatever the event is. */
  lemma StepTracks(resp: Buckets, server: Server, missed: set<string>, e: Event)
    requires Valid(resp) && ServerValid(server) && Tracks(resp, server, missed) && Legal(server, e)
    ensures Valid(CacheStep(resp, e)) && ServerValid(ServerStep(server, e))
    ensures Tracks(CacheStep(resp, e), ServerStep(server, e), MissedStep(server, missed, e))
  {
    forall x { LookupAfterStep(resp, server, missed, e, x); }
    LookupAfterStep(resp, server, missed, e, "");
  }

  lemma LookupAfterStep(resp: Buckets, server: Server, missed: set<string>, e: Event, x: string)
    requires Valid(resp) && ServerValid(server) && Tracks(resp, server, missed) && Legal(server, e)
    ensures Valid(CacheStep(resp, e))
    ensures Lookup(CacheStep(resp, e), x) == Expected(ServerStep(server, e), MissedStep(server, missed, e), x)
  {
    assert Lookup(resp, x) == Expected(server, missed, x);
    match e
    case Created(issue) =>
      assert Lookup(resp, issue.id) == Expected(server, missed, issue.id);
      LookupAfterCreate(resp, issue, x);
      ExpectedAfterCreate(server, missed, issue, x);
    case Updated(id, p) =>
      LookupAfterPatch(resp, id, p, x);
      ExpectedAfterPatch(server, missed, id, p, x);
    case Deleted(id) =>
      LookupAfterDelete(resp, id, x);
      ExpectedAfterDelete(server, missed, id, x);
  }

  lemma ExpectedAfterCreate(server: Server, missed: set<string>, issue: Issue, x: string)
    requires issue.id !in server
    ensures Expected(server, missed, issue.id) == None
    ensures Expected(ServerStep(server, Created(issue)), MissedStep(server, missed, Created(issue)), x) ==
      if x == issue.id && Paginated(issue.status) then Some(issue) else Expected(server, missed, x)
  {
  }

  lemma ExpectedAfterDelete(server: Server, missed: set<string>, id: string, x: string)
    ensures Expected(ServerStep(server, Deleted(id)), MissedStep(server, missed, Deleted(id)), x) ==
      if x == id then None else Expected(server, missed, x)
  {
  }

  lemma ExpectedAfterPatch(server: Server, missed: set<string>, id: string, p: Patch, x: string)
    requires id in server
    ensures Expected(ServerStep(server, Updated(id, p)), MissedStep(server, missed, Updated(id, p)), x) ==
      var known := Expected(server, missed, x);
      if x != id then known
      else if known.Some? && Paginated(Merge(known.value, p).status) then Some(Merge(known.value, p))
      else None
  {
  }

  datatype World = World(resp: Buckets, server: Server, missed: set<string>)

  function Step(w: World, e: Event): World {
    World(CacheStep(w.resp, e), ServerStep(w.server, e), MissedStep(w.server, w.missed, e))
  }

  function Run(w: World, events: seq<Event>): World
    decreases |events|
  {
    if events == [] then w else Run(Step(w, events[0]), events[1..])
  }

  predicate LegalRun(server: Server, events: seq<Event>)
    decreases |events|
  {
    events == [] || (Legal(server, events[0]) && LegalRun(ServerStep(server, events[0]), events[1..]))
  }

  predicate SomeReturn(server: Server, events: seq<Event>)
    decreases |events|
  {
    events != [] && (Returns(server, events[0]) || SomeReturn(ServerStep(server, events[0]), events[1..]))
  }

  /** Over every run the cache shows no stale and no foreign issue, and misses only issues that returned. */
  lemma {:induction false} RunTracks(w: World, events: seq<Event>)
    requires Valid(w.resp) && ServerValid(w.server) && Tracks(w.resp, w.server, w.missed)
    requires LegalRun(w.server, events)
    ensures var w' := Run(w, events);
      Valid(w'.resp) && ServerValid(w'.server) && Tracks(w'.resp, w'.server, w'.missed)
    decreases |events|
  {
    if events != [] {
      StepTracks(w.resp, w.server, w.missed, events[0]);
      RunTracks(Step(w, events[0]), events[1..]);
    }
  }

  lemma {:induction false} NoReturnMissesNothing(w: World, events: seq<Event>)
    requires w.missed == {} && !SomeReturn(w.server, events)
    ensures Run(w, events).missed == {}
    decreases |events|
  {
    if events != [] {
      NoReturnMissesNothing(Step(w, events[0]), events[1..]);
    }
  }

  /** From a fully loaded snapshot, without returns, the cache equals the server's paginated issues. */
  lemma FullyLoadedStaysEqual(resp: Buckets, server: Server, events: seq<Event>)
    requires Valid(resp) && ServerValid(server) && Tracks(resp, server, {})
    requires LegalRun(server, events) && !SomeReturn(server, events)
    ensures var w := Run(World(resp, server, {}), events); Valid(w.resp) && Tracks(w.resp, w.server, {})
  {
    RunTracks(World(resp, server, {}), events);
    NoReturnMissesNothing(World(resp, server, {}), events);
  }

  /** Exactly the returning updates break the equality. */
  lemma TrackingBreaksExactlyOnReturn(resp: Buckets, server: Server, e: Event)
    requires Valid(resp) && ServerValid(server) && Tracks(resp, server, {}) && Legal(server, e)
    ensures Tracks(CacheStep(resp, e), ServerStep(server, e), {}) <==> !Returns(server, e)
  {
    StepTracks(resp, server, {}, e);
    if Returns(server, e) {
      assert Lookup(CacheStep(resp, e), e.id) == None;
    }
  }

  // ----- The flattened list -----

  lemma {:induction false} FlattenHolds(resp: Buckets, statuses: seq<Status>, i: Issue)
    ensures i in FlattenStatuses(resp, statuses) <==> exists s :: s in statuses && i in GetBucket(resp, s).issues
  {
    if statuses != [] {
      assert statuses == [statuses[0]] + statuses[1..];
      FlattenHolds(resp, statuses[1..], i);
    }
  }

  lemma DistinctAppend(a: seq<Issue>, b: seq<Issue>)
    requires DistinctIssues(a) && DistinctIssues(b)
    requires forall i, j :: i in a && j in b ==> i.id != j.id
    ensures DistinctIssues(a + b)
  {
    forall x, y | 0 <= x < y < |a + b| ensures (a + b)[x].id != (a + b)[y].id {
      if x < |a| <= y { assert a[x] in a && b[y - |a|] in b; }
    }
  }

  lemma {:induction false} FlattenDistinct(resp: Buckets, statuses: seq<Status>)
    requires Valid(resp) && NoDup(statuses) && forall s :: s in statuses ==> Paginated(s)
    ensures DistinctIssues(FlattenStatuses(resp, statuses))
  {
    if statuses != [] {
      var first, rest := statuses[0], statuses[1..];
      assert statuses == [first] + rest;
      assert forall k :: 0 <= k < |rest| ==> rest[k] == statuses[k + 1];
      FlattenDistinct(resp, rest);
      var own := GetBucket(resp, first).issues;
      assert BucketValid(first, GetBucket(resp, first));
      forall i, j | i in own && j in FlattenStatuses(resp, rest) ensures i.id != j.id {
        FlattenHolds(resp, rest, j);
        var s :| s in rest && j in GetBucket(resp, s).issues;
        assert BucketValid(s, GetBucket(resp, s));
        assert Shows(resp, i) && Shows(resp, j);
      }
      DistinctAppend(own, FlattenStatuses(resp, rest));
    }
  }

  /** What a list view reads out of a cache in step with the server: every issue in a paginated
      status, each once and as the server has it, and nothing else. */
  lemma FlattenedListEqualsServer(resp: Buckets, server: Server)
    requires Valid(resp) && ServerValid(server) && Tracks(resp, server, {})
    ensures DistinctIssues(FlattenIssueBuckets(resp))
    ensures forall i :: i in FlattenIssueBuckets(resp) <==>
      i.id in server && server[i.id] == i && Paginated(i.status)
  {
    FlattenDistinct(resp, PAGINATED_STATUSES);
    forall i ensures i in FlattenIssueBuckets(resp) <==> i.id in server && server[i.id] == i && Paginated(i.status) {
      FlattenHolds(resp, PAGINATED_STATUSES, i);
      ShownIffHeld(resp, i);
      LookupIsShown(resp, i.id);
    }
  }

  lemma ShownIffHeld(resp: Buckets, i: Issue)
    requires Valid(resp)
    ensures Shows(resp, i) <==> exists s :: s in PAGINATED_STATUSES && i in GetBucket(resp, s).issues
  {
    if s :| s in PAGINATED_STATUSES && i in GetBucket(resp, s).issues {
      assert BucketValid(s, resp[s]);
    }
    if Shows(resp, i) { assert i in GetBucket(resp, i.status).issues; }
  }

  /** The lists show every status but the cancelled one. */
  lemma PaginatedAre()
    ensures forall s :: Paginated(s) <==> s != Cancelled
  {
    assert PAGINATED_STATUSES[0] == Backlog && PAGINATED_STATUSES[1] == Todo && PAGINATED_STATUSES[2] == InProgress;
    assert PAGINATED_STATUSES[3] == InReview && PAGINATED_STATUSES[4] == Done && PAGINATED_STATUSES[5] == Blocked;
  }

  /** They show them in this order. */
  lemma FlattenedInOrder(resp: Buckets)
    ensures FlattenIssueBuckets(resp) ==
      GetBucket(resp, Backlog).issues + (GetBucket(resp, Todo).issues + (GetBucket(resp, InProgress).issues
        + FlattenStatuses(resp, [InReview, Done, Blocked])))
    ensures FlattenStatuses(resp, [InReview, Done, Blocked]) ==
      GetBucket(resp, InReview).issues + (GetBucket(resp, Done).issues + GetBucket(resp, Blocked).issues)
  {
    FlattenThree(resp, Backlog, Todo, InProgress, [InReview, Done, Blocked]);
    FlattenThree(resp, InReview, Done, Blocked, []);
    assert PAGINATED_STATUSES == [Backlog, Todo, InProgress] + [InReview, Done, Blocked];
    assert [InReview, Done, Blocked] == [InReview, Done, Blocked] + [];
    assert GetBucket(resp, Blocked).issues + [] == GetBucket(resp, Blocked).issues;
  }

  lemma FlattenThree(resp: Buckets, a: Status, b: Status, c: Status, rest: seq<Status>)
    ensures FlattenStatuses(resp, [a, b, c] + rest) ==
      GetBucket(resp, a).issues
      + (GetBucket(resp, b).issues + (GetBucket(resp, c).issues + FlattenStatuses(resp, rest)))
  {
    FlattenFirst(resp, a, [b, c] + rest);
    FlattenFirst(resp, b, [c] + rest);
    FlattenFirst(resp, c, rest);
    assert [a, b, c] + rest == [a] + ([b, c] + rest) && [b, c] + rest == [b] + ([c] + rest);
  }

  lemma FlattenFirst(resp: Buckets, s: Status, rest: seq<Status>)
    ensures FlattenStatuses(resp, [s] + rest) == GetBucket(resp, s).issues + FlattenStatuses(resp, rest)
  {
    assert ([s] + rest)[1..] == rest;
  }

  // ----- Places and totals -----

  /** The id an event is about. */
  function Subject(e: Event): string {
    match e
    case Created(issue) => issue.id
    case Updated(id, _) => id
    case Deleted(id) => id
  }

  /** No event disturbs the other issues: every bucket keeps them all, in order, in any cache. */
  lemma StepKeepsOthersInOrder(resp: Buckets, e: Event, s: Status)
    ensures Without(GetBucket(CacheStep(resp, e), s).issues, Subject(e))
      == Without(GetBucket(resp, s).issues, Subject(e))
  {
    match e
    case Created(issue) => WithoutIgnores(GetBucket(resp, s).issues, issue);
    case Updated(id, p) => PatchKeepsOthersInOrder(resp, id, p, s);
    case Deleted(id) => WithoutTwice(GetBucket(resp, s).issues, id);
  }

  lemma PatchKeepsOthersInOrder(resp: Buckets, id: string, p: Patch, s: Status)
    ensures Without(GetBucket(PatchIssueInBuckets(resp, id, p), s).issues, id)
      == Without(GetBucket(resp, s).issues, id)
  {
    var loc := FindIssueLocation(resp, id);
    if loc.Some? {
      PatchedBucket(resp, id, p, s, Merge(loc.value.issue, p));
      WithoutReplaced(GetBucket(resp, s).issues, id, Merge(loc.value.issue, p));
      WithoutIgnores(GetBucket(resp, s).issues, Merge(loc.value.issue, p));
      WithoutTwice(GetBucket(resp, s).issues, id);
    }
  }

  lemma PatchedBucket(resp: Buckets, id: string, p: Patch, s: Status, merged: Issue)
    requires FindIssueLocation(resp, id).Some? && merged == Merge(FindIssueLocation(resp, id).value.issue, p)
    ensures var b, after := GetBucket(resp, s).issues, GetBucket(PatchIssueInBuckets(resp, id, p), s).issues;
      after == b || after == Replaced(b, id, merged) || after == Without(b, id) || after == b + [merged]
  {
    var loc := FindIssueLocation(resp, id).value;
    if s == loc.status {
      assert s in resp;
    } else if s == Or(p.status, loc.status) {
      assert GetBucket(resp[loc.status := EMPTY_BUCKET], s) == GetBucket(resp, s);
    }
  }

  lemma WithoutIgnores(issues: seq<Issue>, i: Issue)
    ensures Without(issues + [i], i.id) == Without(issues, i.id)
  {
    FilterConcat((x: Issue) => x.id != i.id, issues, [i]);
    FilterCons((x: Issue) => x.id != i.id, i, []);
    assert [i] + [] == [i];
  }

  lemma WithoutTwice(issues: seq<Issue>, id: string)
    ensures Without(Without(issues, id), id) == Without(issues, id)
  {
    FilterAll((x: Issue) => x.id != id, Without(issues, id));
  }

  lemma {:induction false} WithoutReplaced(issues: seq<Issue>, id: string, merged: Issue)
    requires merged.id == id
    ensures Without(Replaced(issues, id, merged), id) == Without(issues, id)
  {
    if issues != [] {
      var first, rest := issues[0], issues[1..];
      assert issues == [first] + rest;
      WithoutReplaced(rest, id, merged);
      MapCons((i: Issue) => if i.id == id then merged else i, first, rest);
      FilterCons((i: Issue) => i.id != id, if first.id == id then merged else first, Replaced(rest, id, merged));
      FilterCons((i: Issue) => i.id != id, first, rest);
    }
  }

  /** A newcomer goes to the end of its bucket. */
  lemma NewcomerIsLast(resp: Buckets, issue: Issue)
    requires Valid(resp) && Lookup(resp, issue.id).None? && Paginated(issue.status)
    ensures GetBucket(AddIssueToBuckets(resp, issue), issue.status).issues
      == GetBucket(resp, issue.status).issues + [issue]
  {
    AddKeepsValid(resp, issue) by {
      LookupIsShown(resp, issue.id);
      assert forall i :: Shows(resp, i) && i.id == issue.id ==> Lookup(resp, issue.id) == Some(i);
    }
    LookupIsShown(resp, issue.id);
    assert !Shows(resp, issue);
  }

  /** A patched issue stays at its place, or goes to the end of the bucket of its new status. */
  lemma PatchedIssuePlace(resp: Buckets, id: string, p: Patch)
    requires Valid(resp) && Lookup(resp, id).Some?
    ensures var i, after := Lookup(resp, id).value, PatchIssueInBuckets(resp, id, p);
      if p.status.Some? && p.status.value != i.status then
        var b := GetBucket(after, p.status.value).issues;
        && b != [] && TakesPatch(i, b[|b| - 1], p)
        && b[..|b| - 1] == GetBucket(resp, p.status.value).issues
      else
        var a, b := GetBucket(resp, i.status).issues, GetBucket(after, i.status).issues;
        |a| == |b| && forall k :: 0 <= k < |a| ==> a[k].id == b[k].id
  {
    LookupIsShown(resp, id);
    var loc := FindIssueLocation(resp, id).value;
    MergeTakesPatch(loc.issue, p);
  }

  /** How many issues of a status the server holds beyond those loaded. */
  function Unloaded(resp: Buckets, s: Status): int {
    GetBucket(resp, s).total - |GetBucket(resp, s).issues|
  }

  /** Every event moves the total of a bucket with its issues: what is left to load stays the same. */
  lemma StepKeepsUnloaded(resp: Buckets, e: Event, s: Status)
    requires Valid(resp)
    ensures Unloaded(CacheStep(resp, e), s) == Unloaded(resp, s)
  {
    match e
    case Created(issue) =>
    case Updated(id, p) => PatchKeepsUnloaded(resp, id, p, s);
    case Deleted(id) => RemoveKeepsUnloaded(resp, id, s);
  }

  lemma RemoveKeepsUnloaded(resp: Buckets, id: string, s: Status)
    requires Valid(resp)
    ensures Unloaded(RemoveIssueFromBuckets(resp, id), s) == Unloaded(resp, s)
  {
    if Lookup(resp, id).Some? { OneLessLoaded(resp, id); }
  }

  lemma PatchKeepsUnloaded(resp: Buckets, id: string, p: Patch, s: Status)
    requires Valid(resp)
    ensures Unloaded(PatchIssueInBuckets(resp, id, p), s) == Unloaded(resp, s)
  {
    var loc := FindIssueLocation(resp, id);
    if loc.Some? && Or(p.status, loc.value.status) != loc.value.status {
      PatchIsMove(resp, id, p);
      OneLessLoaded(resp, id);
      MoveKeepsUnloaded(resp, loc.value.issue, Merge(loc.value.issue, p), s);
    }
  }

  lemma MoveKeepsUnloaded(resp: Buckets, i: Issue, merged: Issue, s: Status)
    requires i.status in resp && merged.status != i.status && resp[i.status].total > 0
    requires |Without(resp[i.status].issues, i.id)| == |resp[i.status].issues| - 1
    ensures Unloaded(Moved(resp, i, merged), s) == Unloaded(resp, s)
  {
  }

  lemma OneLessLoaded(resp: Buckets, id: string)
    requires Valid(resp) && Lookup(resp, id).Some?
    ensures var b := GetBucket(resp, FindIssueLocation(resp, id).value.status);
      b.total > 0 && |Without(b.issues, id)| == |b.issues| - 1
  {
    LookupIsShown(resp, id);
    var loc := FindIssueLocation(resp, id).value;
    assert BucketValid(loc.status, resp[loc.status]);
    BucketWithoutValid(loc.status, resp[loc.status], id);
    WithoutOne(resp[loc.status].issues, id);
  }

  lemma {:induction false} WithoutOne(issues: seq<Issue>, id: string)
    requires DistinctIssues(issues) && exists i :: i in issues && i.id == id
    ensures |Without(issues, id)| == |issues| - 1
  {
    var first, rest := issues[0], issues[1..];
    assert issues == [first] + rest;
    assert forall k :: 0 <= k < |rest| ==> rest[k] == issues[k + 1];
    FilterCons((i: Issue) => i.id != id, first, rest);
    if first.id == id {
      FilterAll((i: Issue) => i.id != id, rest);
    } else {
      WithoutOne(rest, id);
    }
  }

  // ----- Totals -----

  /** A patch between paginated statuses moves an issue and keeps the sum of the totals. */
  lemma PatchConservesTotals(resp: Buckets, id: string, p: Patch)
    requires Valid(resp) && (p.status.Some? ==> Paginated(p.status.value))
    ensures TotalOf(PatchIssueInBuckets(resp, id, p), PAGINATED_STATUSES) == TotalOf(resp, PAGINATED_STATUSES)
  {
    PatchConserves(resp, PAGINATED_STATUSES, id, p);
  }

  lemma PatchConserves(resp: Buckets, statuses: seq<Status>, id: string, p: Patch)
    requires Valid(resp) && (p.status.Some? ==> Paginated(p.status.value))
    requires NoDup(statuses) && forall s :: Paginated(s) ==> s in statuses
    ensures TotalOf(PatchIssueInBuckets(resp, id, p), statuses) == TotalOf(resp, statuses)
  {
    LookupIsShown(resp, id);
    var loc := FindIssueLocation(resp, id);
    if loc.Some? {
      var i := loc.value.issue;
      if Or(p.status, i.status) != i.status {
        PatchIsMove(resp, id, p);
        MoveConservesTotals(resp, statuses, i, Merge(i, p));
      } else {
        SetTotal(resp, statuses, i.status, InPlace(resp, i, Merge(i, p))[i.status]);
      }
    }
  }

  lemma MoveConservesTotals(resp: Buckets, statuses: seq<Status>, i: Issue, merged: Issue)
    requires BucketsValid(resp) && Shows(resp, i) && merged.status != i.status
    requires NoDup(statuses) && i.status in statuses && merged.status in statuses
    ensures TotalOf(Moved(resp, i, merged), statuses) == TotalOf(resp, statuses)
  {
    var b, target := resp[i.status], GetBucket(resp, merged.status);
    var left := Bucket(Without(b.issues, i.id), Max(0, b.total - 1));
    BucketWithoutValid(i.status, b, i.id);
    TwoTotals(resp, statuses, i.status, left, merged.status, Bucket(target.issues + [merged], target.total + 1));
  }

  lemma TwoTotals(resp: Buckets, statuses: seq<Status>, s: Status, left: Bucket, t: Status, joined: Bucket)
    requires s != t && NoDup(statuses) && s in statuses && t in statuses
    requires left.total == GetBucket(resp, s).total - 1 && joined.total == GetBucket(resp, t).total + 1
    ensures TotalOf(resp[s := left][t := joined], statuses) == TotalOf(resp, statuses)
  {
    SetTotal(resp, statuses, s, left);
    SetTotal(resp[s := left], statuses, t, joined);
    assert GetBucket(resp[s := left], t) == GetBucket(resp, t);
  }

  lemma {:induction false} SetTotal(resp: Buckets, statuses: seq<Status>, s: Status, b: Bucket)
    requires NoDup(statuses)
    ensures TotalOf(resp[s := b], statuses) ==
      TotalOf(resp, statuses) + if s in statuses then b.total - GetBucket(resp, s).total else 0
  {
    if statuses != [] {
      assert statuses == [statuses[0]] + statuses[1..];
      assert forall k :: 0 <= k < |statuses| - 1 ==> statuses[1..][k] == statuses[k + 1];
      SetTotal(resp, statuses[1..], s, b);
    }
  }
}
