// The optimistic comment mutations on a cached timeline, and what every run of
// them keeps: at most one resolved comment per thread.

module CommentMutations {
  import opened Options
  import opened Seqs
  import opened Forest
  import opened Timeline
  import opened Threads
  import opened Sorting
  import opened TimelineSort

  function ClearResolution(e: Entry): Entry {
    e.(resolvedAt := None, resolvedByType := None, resolvedById := None)
  }

  function ResolveEntry(thread: set<string>, c: string, now: string, e: Entry): Entry {
    if e.id == c then e.(resolvedAt := Some(now))
    else if e.IsResolved() && e.id in thread then ClearResolution(e)
    else e
  }

  function UnresolveEntry(c: string, e: Entry): Entry {
    if e.id == c then ClearResolution(e) else e
  }

  ghost function Resolved(entries: seq<Entry>, c: string, now: string): seq<Entry> {
    var thread := ThreadIds(CommentsById(entries), c);
    Map(e => ResolveEntry(thread, c, now, e), entries)
  }

  function Unresolved(entries: seq<Entry>, c: string): seq<Entry> {
    Map(e => UnresolveEntry(c, e), entries)
  }

  /** c and all its descendants by parent pointers. */
  ghost function CascadeIds(entries: seq<Entry>, c: string): set<string> {
    set x | x in IdSet(entries) + {c} && Reaches(EntryEdges(entries), x, c)
  }

  function IdSet(entries: seq<Entry>): set<string> {
    set e | e in entries :: e.id
  }

  function Without(entries: seq<Entry>, gone: set<string>): seq<Entry> {
    Filter((e: Entry) => e.id !in gone, entries)
  }

  ghost function CascadeDeleted(entries: seq<Entry>, c: string): seq<Entry> {
    Without(entries, CascadeIds(entries, c))
  }

  /** after is before with all three resolution fields emptied. */
  predicate Cleared(before: Entry, after: Entry) {
    && after.resolvedAt.None? && after.resolvedByType.None? && after.resolvedById.None?
    && after.(resolvedAt := before.resolvedAt, resolvedByType := before.resolvedByType,
              resolvedById := before.resolvedById) == before
  }

  /** after is before with a new time of resolution. */
  predicate ResolvedNow(before: Entry, after: Entry, now: string) {
    after.resolvedAt == Some(now) && after.(resolvedAt := before.resolvedAt) == before
  }

  /** What an unresolve of c does to one entry. */
  predicate UnresolvesTo(before: Entry, after: Entry, c: string) {
    if before.id == c then Cleared(before, after) else after == before
  }

  /** What a resolve of c does to one entry. */
  predicate ResolvesTo(before: Entry, after: Entry, thread: set<string>, c: string, now: string) {
    if before.id == c then ResolvedNow(before, after, now)
    else if before.IsResolved() && before.id in thread then Cleared(before, after)
    else after == before
  }

  class TimelineQuery {
    var data: Option<seq<Entry>>

    constructor (data: Option<seq<Entry>>)
      ensures this.data == data
    {
      this.data := data;
    }

    method ResolveOnMutate(commentId: string, resolved: bool, now: string) returns (prev: Option<seq<Entry>>)
      modifies this
      ensures prev == old(data)
      ensures data.Some? <==> prev.Some?
      ensures prev.Some? && resolved ==> data.value == Resolved(prev.value, commentId, now)
      ensures prev.Some? && !resolved ==> data.value == Unresolved(prev.value, commentId)
      ensures prev.Some? ==> |data.value| == |prev.value|
      ensures prev.Some? && resolved ==> forall i :: 0 <= i < |prev.value| ==>
        ResolvesTo(prev.value[i], data.value[i], ThreadIds(CommentsById(prev.value), commentId), commentId, now)
      ensures prev.Some? && !resolved ==> forall i :: 0 <= i < |prev.value| ==>
        UnresolvesTo(prev.value[i], data.value[i], commentId)
    {
      prev := data;
      if data.Some? {
        if resolved {
          var threadIds := CollectThreadCommentIds(data.value, commentId);
          data := Some(Map(e => ResolveEntry(threadIds, commentId, now, e), data.value));
        } else {
          data := Some(Map(e => UnresolveEntry(commentId, e), data.value));
        }
      }
    }

    method DeleteOnMutate(commentId: string) returns (prev: Option<seq<Entry>>)
      modifies this
      ensures prev == old(data)
      ensures data.Some? <==> prev.Some?
      ensures prev.Some? ==> data.value == CascadeDeleted(prev.value, commentId)
      ensures prev.Some? ==>
        data.value == Filter((e: Entry) => !Reaches(EntryEdges(prev.value), e.id, commentId), prev.value)
    {
      prev := data;
      var toRemove := {commentId};
      if prev.Some? {
        toRemove := CollectCascade(prev.value, commentId);
        CascadeIsFilter(prev.value, commentId);
        data := Some(Without(prev.value, toRemove));
      }
    }

    method CreateOnSuccess(entry: Entry)
      modifies this
      ensures data == Some(WithCreated(if old(data).Some? then old(data).value else [], entry))
    {
      if data.None? {
        data := Some([entry]);
        SortOfSorted(Before, [] + [entry]);
      } else if !Any((e: Entry) => e.id == entry.id, data.value) {
        data := Some(SortBy(Before, data.value + [entry]));
      }
    }

    method OnError(prev: Option<seq<Entry>>)
      modifies this
      ensures data == if prev.Some? then prev else old(data)
    {
      if prev.Some? {
        data := prev;
      }
    }
  }

  /** What is left is what does not climb to the deleted comment, in order. */
  lemma CascadeIsFilter(entries: seq<Entry>, c: string)
    ensures CascadeDeleted(entries, c) == Filter((e: Entry) => !Reaches(EntryEdges(entries), e.id, c), entries)
  {
    var gone := CascadeIds(entries, c);
    FilterAgree((e: Entry) => e.id !in gone, (e: Entry) => !Reaches(EntryEdges(entries), e.id, c), entries);
  }

  method CollectCascade(prev: seq<Entry>, commentId: string) returns (toRemove: set<string>)
    ensures toRemove == CascadeIds(prev, commentId)
  {
    ghost var E, nodes := EntryEdges(prev), IdSet(prev) + {commentId};
    toRemove := {commentId};
    ReachSelf(E, commentId);
    var changed := true;
    while changed
      invariant commentId in toRemove && toRemove <= nodes
      invariant forall x :: x in toRemove ==> Reaches(E, x, commentId)
      invariant !changed ==> ClosedBelow(E, toRemove)
      decreases nodes - toRemove, changed
    {
      changed := false;
      ghost var start := toRemove;
      for i := 0 to |prev|
        invariant start <= toRemove <= nodes
        invariant forall x :: x in toRemove ==> Reaches(E, x, commentId)
        invariant changed ==> nodes - toRemove < nodes - start
        invariant !changed ==> toRemove == start
        invariant !changed ==>
          forall k :: 0 <= k < i && prev[k].HasParent() && prev[k].parentId.value in toRemove ==>
            prev[k].id in toRemove
      {
        var e := prev[i];
        if e.HasParent() && e.parentId.value in toRemove && e.id !in toRemove {
          assert (e.id, e.parentId.value) in E;
          ReachEdge(E, e.id, e.parentId.value);
          ReachesTrans(E, e.id, e.parentId.value, commentId);
          assert e.id in nodes - toRemove;
          toRemove := toRemove + {e.id};
          changed := true;
        }
      }
    }
    ClosedIsBelow(E, toRemove, commentId);
  }

  // ----- Resolutions per thread -----

  ghost predicate SameThread(entries: seq<Entry>, x: string, y: string) {
    Connected(ReplyEdges(CommentsById(entries)), x, y)
  }

  ghost predicate OneResolutionPerThread(entries: seq<Entry>) {
    forall e, f | e in entries && f in entries && e.kind.Comment? && f.kind.Comment? ::
      e.IsResolved() && f.IsResolved() && SameThread(entries, e.id, f.id) ==> e.id == f.id
  }

  datatype Op = Resolve(id: string, now: string) | Unresolve(id: string) | Delete(id: string)

  ghost function Apply(entries: seq<Entry>, op: Op): seq<Entry> {
    match op
    case Resolve(c, now) => Resolved(entries, c, now)
    case Unresolve(c) => Unresolved(entries, c)
    case Delete(c) => CascadeDeleted(entries, c)
  }

  ghost function Run(entries: seq<Entry>, ops: seq<Op>): seq<Entry>
    decreases |ops|
  {
    if ops == [] then entries else Run(Apply(entries, ops[0]), ops[1..])
  }

  /** Reply edges depend only on ids, kinds and parents. */
  lemma {:induction false} SameShapeSameEdges(a: seq<Entry>, b: seq<Entry>)
    requires |a| == |b|
    requires forall i :: 0 <= i < |a| ==> a[i].id == b[i].id && a[i].kind == b[i].kind && a[i].parentId == b[i].parentId
    ensures CommentsById(a).Keys == CommentsById(b).Keys
    ensures forall id :: id in CommentsById(a) ==> CommentsById(a)[id].parentId == CommentsById(b)[id].parentId
    ensures ReplyEdges(CommentsById(a)) == ReplyEdges(CommentsById(b))
  {
    if a != [] {
      SameShapeSameEdges(a[..|a| - 1], b[..|b| - 1]);
    }
    SameParentsSameEdges(CommentsById(a), CommentsById(b));
  }

  lemma SameParentsSameEdges(a: map<string, Entry>, b: map<string, Entry>)
    requires a.Keys == b.Keys && forall id :: id in a ==> a[id].parentId == b[id].parentId
    ensures ReplyEdges(a) == ReplyEdges(b)
  {
  }

  /** A resolve moves no comment to another thread. */
  lemma ResolveKeepsThreads(entries: seq<Entry>, c: string, now: string, x: string, y: string)
    ensures SameThread(Resolved(entries, c, now), x, y) <==> SameThread(entries, x, y)
  {
    SameShapeSameEdges(entries, Resolved(entries, c, now));
  }

  /** A resolve leaves exactly c resolved in its thread, and leaves everything else alone. */
  lemma ResolveIsSoleResolution(entries: seq<Entry>, c: string, now: string, i: nat)
    requires DistinctIds(entries) && c in CommentsById(entries) && now != "" && i < |entries|
    ensures if entries[i].kind.Comment? && SameThread(entries, entries[i].id, c)
      then Resolved(entries, c, now)[i].IsResolved() <==> entries[i].id == c
      else Resolved(entries, c, now)[i] == entries[i]
  {
    ThreadMembership(entries, i, c);
  }

  /** An unresolve empties the resolution of exactly the comment it names. */
  lemma UnresolveClearsExactly(entries: seq<Entry>, c: string, i: nat)
    requires i < |entries|
    ensures |Unresolved(entries, c)| == |entries|
    ensures UnresolvesTo(entries[i], Unresolved(entries, c)[i], c)
    ensures Unresolved(entries, c)[i].IsResolved() <==> entries[i].IsResolved() && entries[i].id != c
  {
  }

  /** Resolving a comment and unresolving it again leaves no comment of its thread resolved. */
  lemma ResolveThenUnresolve(entries: seq<Entry>, c: string, now: string, i: nat)
    requires DistinctIds(entries) && c in CommentsById(entries) && now != "" && i < |entries|
    requires entries[i].kind.Comment? && SameThread(entries, entries[i].id, c)
    ensures !Unresolved(Resolved(entries, c, now), c)[i].IsResolved()
  {
    var resolved := Resolved(entries, c, now);
    ResolveIsSoleResolution(entries, c, now, i);
    UnresolveClearsExactly(resolved, c, i);
    assert resolved[i].id == entries[i].id;
  }

  lemma ThreadMembership(entries: seq<Entry>, i: nat, c: string)
    requires DistinctIds(entries) && c in CommentsById(entries) && i < |entries|
    ensures c in ThreadIds(CommentsById(entries), c)
    ensures entries[i].id in ThreadIds(CommentsById(entries), c)
      <==> entries[i].kind.Comment? && SameThread(entries, entries[i].id, c)
  {
    var id := entries[i].id;
    ReachSelf(ReplyEdges(CommentsById(entries)), c);
    if id in CommentsById(entries) {
      CommentIdIsNoOther(entries, i, id);
    }
  }

  /** An id that indexes a loaded comment belongs to no activity. */
  lemma CommentIdIsNoOther(entries: seq<Entry>, i: nat, c: string)
    requires DistinctIds(entries) && i < |entries|
    requires c in CommentsById(entries) && entries[i].id == c
    ensures entries[i].kind.Comment?
  {
    var e := CommentsById(entries)[c];
    var j :| 0 <= j < |entries| && entries[j] == e;
    assert i == j;
  }

  lemma {:induction false} WithoutKeepsDistinctIds(entries: seq<Entry>, gone: set<string>)
    requires DistinctIds(entries)
    ensures DistinctIds(Without(entries, gone))
  {
    if entries != [] {
      assert forall i :: 0 <= i < |entries[1..]| ==> entries[1..][i] == entries[i + 1];
      WithoutKeepsDistinctIds(entries[1..], gone);
      assert forall e :: e in entries[1..] ==> e.id != entries[0].id;
    }
  }

  lemma ApplyKeepsDistinctIds(entries: seq<Entry>, op: Op)
    requires DistinctIds(entries)
    ensures DistinctIds(Apply(entries, op))
  {
    if op.Delete? {
      WithoutKeepsDistinctIds(entries, CascadeIds(entries, op.id));
    } else {
      assert forall i :: 0 <= i < |entries| ==> Apply(entries, op)[i].id == entries[i].id;
    }
  }

  /** Entries that survive a cascade delete keep all their ancestors, so their threads are as before. */
  lemma CascadeKeepsThreads(entries: seq<Entry>, c: string)
    requires DistinctIds(entries)
    ensures var rest := CascadeDeleted(entries, c);
      && (forall e :: e in rest ==> e in entries && !(e.HasParent() && e.parentId.value in CascadeIds(entries, c)))
      && (forall x, y :: x in CommentsById(rest) && y in CommentsById(rest) ==>
            (SameThread(rest, x, y) <==> SameThread(entries, x, y)))
  {
    var rest, gone := CascadeDeleted(entries, c), CascadeIds(entries, c);
    var A, F, G := EntryEdges(entries), ReplyEdges(CommentsById(rest)), ReplyEdges(CommentsById(entries));
    ApplyKeepsDistinctIds(entries, Delete(c));
    CommentsByIdDistinct(entries);
    CommentsByIdDistinct(rest);
    forall e | e in rest
      ensures !(e.HasParent() && e.parentId.value in gone)
    {
      if e.HasParent() && e.parentId.value in gone {
        assert (e.id, e.parentId.value) in A;
        ReachEdge(A, e.id, e.parentId.value);
        ReachesTrans(A, e.id, e.parentId.value, c);
        assert false;
      }
    }
    assert F <= G;
    forall x, y | x in CommentsById(rest) && y in CommentsById(rest)
      ensures SameThread(rest, x, y) <==> SameThread(entries, x, y)
    {
      if z :| Reaches(F, x, z) && Reaches(F, y, z) {
        ReachesMono(F, G, x, z);
        ReachesMono(F, G, y, z);
      }
      if z :| Reaches(G, x, z) && Reaches(G, y, z) {
        SurvivingPath(entries, c, x, z);
        SurvivingPath(entries, c, y, z);
      }
    }
  }

  lemma ReachesMono(E: Edges, F: Edges, x: string, r: string)
    requires E <= F && Reaches(E, x, r)
    ensures Reaches(F, x, r)
  {
    var n: nat :| ReachIn(E, x, r, n);
    ReachInMono(E, F, x, r, n);
  }

  lemma SurvivingPath(entries: seq<Entry>, c: string, x: string, z: string)
    requires DistinctIds(entries)
    requires x in CommentsById(CascadeDeleted(entries, c))
    requires Reaches(ReplyEdges(CommentsById(entries)), x, z)
    ensures Reaches(ReplyEdges(CommentsById(CascadeDeleted(entries, c))), x, z)
  {
    var E, inside := ReplyEdges(CommentsById(entries)), CommentsById(CascadeDeleted(entries, c)).Keys;
    var F := ReplyEdges(CommentsById(CascadeDeleted(entries, c)));
    var n: nat :| ReachIn(E, x, z, n);
    forall e | e in E && e.0 in inside ensures e in F && e.1 in inside {
      EdgeSurvives(entries, c, e.0, e.1);
    }
    PathStaysInside(E, F, inside, x, z, n);
  }

  lemma EdgeSurvives(entries: seq<Entry>, c: string, x: string, y: string)
    requires DistinctIds(entries)
    requires x in CommentsById(CascadeDeleted(entries, c))
    requires (x, y) in ReplyEdges(CommentsById(entries))
    ensures (x, y) in ReplyEdges(CommentsById(CascadeDeleted(entries, c)))
    ensures y in CommentsById(CascadeDeleted(entries, c))
  {
    var rest, A := CascadeDeleted(entries, c), EntryEdges(entries);
    ApplyKeepsDistinctIds(entries, Delete(c));
    CommentsByIdDistinct(entries);
    CommentsByIdDistinct(rest);
    assert (x, y) in A;
    assert !Reaches(A, y, c) by {
      if Reaches(A, y, c) {
        ReachEdge(A, x, y);
        ReachesTrans(A, x, y, c);
      }
    }
    assert CommentsById(entries)[y] in rest;
  }

  lemma ApplyKeepsOneResolution(entries: seq<Entry>, op: Op)
    requires DistinctIds(entries) && OneResolutionPerThread(entries)
    ensures OneResolutionPerThread(Apply(entries, op))
  {
    match op
    case Delete(c) => DeleteKeepsOneResolution(entries, c);
    case Unresolve(c) => UnresolveKeepsOneResolution(entries, c);
    case Resolve(c, now) => ResolveKeepsOneResolution(entries, c, now);
  }

  lemma DeleteKeepsOneResolution(entries: seq<Entry>, c: string)
    requires DistinctIds(entries) && OneResolutionPerThread(entries)
    ensures OneResolutionPerThread(CascadeDeleted(entries, c))
  {
    CascadeKeepsThreads(entries, c);
  }

  lemma UnresolveKeepsOneResolution(entries: seq<Entry>, c: string)
    requires OneResolutionPerThread(entries)
    ensures OneResolutionPerThread(Unresolved(entries, c))
  {
    SameShapeSameEdges(entries, Unresolved(entries, c));
    assert forall e :: e in Unresolved(entries, c) && e.IsResolved() ==> e in entries;
  }

  lemma ResolveKeepsOneResolution(entries: seq<Entry>, c: string, now: string)
    requires OneResolutionPerThread(entries)
    ensures OneResolutionPerThread(Resolved(entries, c, now))
  {
    var after := Resolved(entries, c, now);
    SameShapeSameEdges(entries, after);
    forall e, f | e in after && f in after && e.kind.Comment? && f.kind.Comment?
      && e.IsResolved() && f.IsResolved() && SameThread(after, e.id, f.id)
      ensures e.id == f.id
    {
      ResolvedEntryOrigin(entries, c, now, e);
      ResolvedEntryOrigin(entries, c, now, f);
    }
  }

  /** An entry still resolved after resolving c is c itself, or was resolved before outside c's thread. */
  lemma ResolvedEntryOrigin(entries: seq<Entry>, c: string, now: string, e: Entry)
    requires e in Resolved(entries, c, now) && e.kind.Comment? && e.IsResolved()
    ensures e.id == c || (e in entries && !SameThread(entries, e.id, c) && !SameThread(entries, c, e.id))
  {
    var after := Resolved(entries, c, now);
    var i :| 0 <= i < |after| && after[i] == e;
    if e.id != c {
      assert e == entries[i] && e.id in CommentsById(entries);
      assert e.id !in ThreadIds(CommentsById(entries), c);
      if SameThread(entries, e.id, c) && c !in CommentsById(entries) {
        ConnectedToUnloaded(entries, e.id, c);
      }
      if SameThread(entries, c, e.id) && c !in CommentsById(entries) {
        ConnectedToUnloaded(entries, e.id, c);
      }
    }
  }

  lemma ConnectedToUnloaded(entries: seq<Entry>, x: string, c: string)
    requires x in CommentsById(entries) && c !in CommentsById(entries)
    ensures !SameThread(entries, x, c)
  {
    var byId := CommentsById(entries);
    if z :| Reaches(ReplyEdges(byId), x, z) && Reaches(ReplyEdges(byId), c, z) {
      RootReachesOnlyItself(ReplyEdges(byId), c, z);
      var n: nat :| ReachIn(ReplyEdges(byId), x, z, n);
      PathStaysInside(ReplyEdges(byId), ReplyEdges(byId), byId.Keys, x, z, n);
    }
  }

  /** In every run of resolves, unresolves and cascade deletes a thread holds at most one resolution. */
  lemma {:induction false} RunKeepsOneResolution(entries: seq<Entry>, ops: seq<Op>)
    requires DistinctIds(entries) && OneResolutionPerThread(entries)
    ensures DistinctIds(Run(entries, ops)) && OneResolutionPerThread(Run(entries, ops))
    decreases |ops|
  {
    if ops != [] {
      ApplyKeepsDistinctIds(entries, ops[0]);
      ApplyKeepsOneResolution(entries, ops[0]);
      RunKeepsOneResolution(Apply(entries, ops[0]), ops[1..]);
    }
  }
}
