// Grouping of timeline entries into one row per thread, as drawn on mobile.

module TimelineRows {
  import opened Options
  import opened Seqs
  import opened Forest
  import opened Timeline
  import opened Threads
  import opened CommentMutations

  datatype Row = Row(entry: Entry, replies: seq<Entry>)

  predicate IsReply(ids: set<string>, e: Entry) {
    e.kind.Comment? && e.HasParent() && e.parentId.value in ids
  }

  function CommentIds(entries: seq<Entry>): set<string> {
    set e | e in entries && e.kind.Comment? :: e.id
  }

  /** Activities, thread starters, and replies whose parent is not loaded. */
  function TopLevel(entries: seq<Entry>): seq<Entry> {
    var ids := CommentIds(entries);
    Filter((e: Entry) => !IsReply(ids, e), entries)
  }

  /** The direct replies to p among the entries, given the loaded comment ids. */
  function RepliesTo(ids: set<string>, entries: seq<Entry>, p: string): seq<Entry> {
    Filter((e: Entry) => IsReply(ids, e) && e.parentId.value == p, entries)
  }

  /** The direct replies to each node, node after node. */
  function RepliesToAll(ids: set<string>, entries: seq<Entry>, nodes: seq<string>): seq<Entry> {
    if nodes == [] then []
    else RepliesToAll(ids, entries, nodes[..|nodes| - 1]) + RepliesTo(ids, entries, nodes[|nodes| - 1])
  }

  function Ids(entries: seq<Entry>): seq<string> {
    seq(|entries|, i requires 0 <= i < |entries| => entries[i].id)
  }

  ghost function Links(entries: seq<Entry>): Edges {
    ReplyEdges(CommentsById(entries))
  }

  /** `out` lists every proper descendant of root once, in breadth-first order:
      the replies to root, then the replies to each listed entry in turn. */
  ghost predicate BreadthFirst(entries: seq<Entry>, root: string, out: seq<Entry>) {
    && out == RepliesToAll(CommentIds(entries), entries, [root] + Ids(out))
    && NoDup([root] + Ids(out))
    && (forall e :: e in out <==> e in entries && e.id != root && Reaches(Links(entries), e.id, root))
  }

  ghost predicate AreRows(entries: seq<Entry>, rows: seq<Row>) {
    RowsUpTo(entries, rows, TopLevel(entries))
  }

  ghost predicate RowHasItsReplies(entries: seq<Entry>, r: Row) {
    if r.entry.kind.Comment? then BreadthFirst(entries, r.entry.id, r.replies) else r.replies == []
  }

  /** The children map holds, for every id, its direct replies in timeline order. */
  ghost predicate HoldsReplies(kids: map<string, seq<Entry>>, ids: set<string>, entries: seq<Entry>) {
    forall p :: (if p in kids then kids[p] else []) == RepliesTo(ids, entries, p)
  }

  method BuildTimelineRows(entries: seq<Entry>) returns (rows: seq<Row>)
    requires DistinctIds(entries)
    ensures AreRows(entries, rows)
  {
    var commentIds: set<string> := {};
    for i := 0 to |entries|
      invariant commentIds == CommentIds(entries[..i])
    {
      assert entries[..i + 1] == entries[..i] + [entries[i]];
      if entries[i].kind.Comment? { commentIds := commentIds + {entries[i].id}; }
    }
    assert entries[..|entries|] == entries;
    var topLevel, kids := Partition(commentIds, entries);
    rows := RowPerTop(entries, topLevel, kids);
  }

  method Partition(commentIds: set<string>, entries: seq<Entry>)
    returns (topLevel: seq<Entry>, kids: map<string, seq<Entry>>)
    ensures topLevel == Filter((e: Entry) => !IsReply(commentIds, e), entries)
    ensures HoldsReplies(kids, commentIds, entries)
  {
    topLevel, kids := [], map[];
    for i := 0 to |entries|
      invariant topLevel == Filter((e: Entry) => !IsReply(commentIds, e), entries[..i])
      invariant HoldsReplies(kids, commentIds, entries[..i])
    {
      var e := entries[i];
      HoldsRepliesStep(kids, commentIds, entries, i);
      FilterSnoc((x: Entry) => !IsReply(commentIds, x), entries, i);
      if IsReply(commentIds, e) {
        var list := if e.parentId.value in kids then kids[e.parentId.value] else [];
        kids := kids[e.parentId.value := list + [e]];
      } else {
        topLevel := topLevel + [e];
      }
    }
    assert entries[..|entries|] == entries;
  }

  lemma HoldsRepliesStep(kids: map<string, seq<Entry>>, ids: set<string>, entries: seq<Entry>, i: nat)
    requires i < |entries| && HoldsReplies(kids, ids, entries[..i])
    ensures var e := entries[i];
      if IsReply(ids, e) then
        var list := if e.parentId.value in kids then kids[e.parentId.value] else [];
        HoldsReplies(kids[e.parentId.value := list + [e]], ids, entries[..i + 1])
      else HoldsReplies(kids, ids, entries[..i + 1])
  {
    forall p
      ensures RepliesTo(ids, entries[..i + 1], p) == RepliesTo(ids, entries[..i], p)
        + if IsReply(ids, entries[i]) && entries[i].parentId.value == p then [entries[i]] else []
    {
      RepliesToSnoc(ids, entries, i, p);
    }
  }

  lemma RepliesToSnoc(ids: set<string>, entries: seq<Entry>, i: nat, p: string)
    requires i < |entries|
    ensures RepliesTo(ids, entries[..i + 1], p) == RepliesTo(ids, entries[..i], p)
      + if IsReply(ids, entries[i]) && entries[i].parentId.value == p then [entries[i]] else []
  {
    FilterSnoc((x: Entry) => IsReply(ids, x) && x.parentId.value == p, entries, i);
  }

  method RowPerTop(entries: seq<Entry>, topLevel: seq<Entry>, kids: map<string, seq<Entry>>)
    returns (rows: seq<Row>)
    requires DistinctIds(entries) && topLevel == TopLevel(entries)
    requires HoldsReplies(kids, CommentIds(entries), entries)
    ensures AreRows(entries, rows)
  {
    rows := [];
    TopLevelAreRoots(entries);
    for i := 0 to |topLevel|
      invariant RowsUpTo(entries, rows, topLevel[..i])
    {
      var entry := topLevel[i];
      var replies := [];
      if entry.kind.Comment? {
        replies := CollectDescendants(entries, kids, entry.id);
      }
      RowsUpToStep(entries, rows, topLevel, i, Row(entry, replies));
      rows := rows + [Row(entry, replies)];
    }
    assert topLevel[..|topLevel|] == topLevel;
  }

  ghost predicate RowsUpTo(entries: seq<Entry>, rows: seq<Row>, tops: seq<Entry>) {
    && Map((r: Row) => r.entry, rows) == tops
    && forall r :: r in rows ==> RowHasItsReplies(entries, r)
  }

  lemma RowsUpToStep(entries: seq<Entry>, rows: seq<Row>, tops: seq<Entry>, i: nat, row: Row)
    requires i < |tops| && RowsUpTo(entries, rows, tops[..i])
    requires row.entry == tops[i] && RowHasItsReplies(entries, row)
    ensures RowsUpTo(entries, rows + [row], tops[..i + 1])
  {
    assert Map((r: Row) => r.entry, rows + [row]) == Map((r: Row) => r.entry, rows) + [row.entry];
  }

  lemma TopLevelAreRoots(entries: seq<Entry>)
    requires DistinctIds(entries)
    ensures forall e :: e in TopLevel(entries) ==> IsRoot(Links(entries), e.id)
  {
    forall e | e in TopLevel(entries) ensures IsRoot(Links(entries), e.id) { TopLevelIsRoot(entries, e); }
  }

  method CollectDescendants(ghost entries: seq<Entry>, kids: map<string, seq<Entry>>, parentId: string)
    returns (out: seq<Entry>)
    requires DistinctIds(entries) && HoldsReplies(kids, CommentIds(entries), entries)
    requires IsRoot(Links(entries), parentId)
    ensures BreadthFirst(entries, parentId, out)
  {
    ghost var ids, L := CommentIds(entries), Links(entries);
    LinksAreReplies(entries);
    ghost var done: seq<string> := [];
    out := [];
    var queue := [parentId];
    while |queue| > 0
      invariant WalkOrder(entries, ids, parentId, done, queue, out)
      invariant WalkReach(entries, ids, L, parentId, done, out)
      decreases |entries| + 1 - |done|
    {
      QueueFits(entries, parentId, out);
      var pid := queue[0];
      ghost var queue0, out0 := queue, out;
      queue := queue[1..];
      if pid in kids {
        queue, out := Enqueue(kids[pid], queue, out);
      }
      assert out == out0 + RepliesTo(ids, entries, pid);
      WalkStep(entries, ids, L, parentId, done, queue0, out0);
      done := done + [pid];
    }
    AllDescendantsListed(entries, ids, L, parentId, done, out);
  }

  method Enqueue(kids: seq<Entry>, queue0: seq<string>, out0: seq<Entry>)
    returns (queue: seq<string>, out: seq<Entry>)
    ensures out == out0 + kids && queue == queue0 + Ids(kids)
  {
    queue, out := queue0, out0;
    for k := 0 to |kids|
      invariant out == out0 + kids[..k] && queue == queue0 + Ids(kids[..k])
    {
      out := out + [kids[k]];
      queue := queue + [kids[k].id];
    }
    assert kids[..|kids|] == kids;
  }

  // ----- The breadth-first walk -----

  ghost predicate LinksOf(L: Edges, ids: set<string>, entries: seq<Entry>) {
    && (forall e :: e in entries && IsReply(ids, e) ==> (e.id, e.parentId.value) in L)
    && (forall l :: l in L ==> exists e :: e in entries && IsReply(ids, e) && l == (e.id, e.parentId.value))
  }

  /** `done` has been taken from the queue; `out` lists what its members have for replies. */
  ghost predicate WalkOrder(entries: seq<Entry>, ids: set<string>, root: string,
                            done: seq<string>, queue: seq<string>, out: seq<Entry>) {
    && done + queue == [root] + Ids(out)
    && NoDup([root] + Ids(out))
    && out == RepliesToAll(ids, entries, done)
  }

  ghost predicate WalkReach(entries: seq<Entry>, ids: set<string>, L: Edges, root: string,
                            done: seq<string>, out: seq<Entry>) {
    && (forall e :: e in out ==>
          e in entries && IsReply(ids, e) && e.parentId.value in done && Reaches(L, e.id, root))
    && (forall e :: e in entries && IsReply(ids, e) && e.parentId.value in done ==> e in out)
  }

  lemma QueueFits(entries: seq<Entry>, root: string, out: seq<Entry>)
    requires NoDup([root] + Ids(out)) && forall e :: e in out ==> e in entries
    ensures |[root] + Ids(out)| <= |entries| + 1
  {
    forall i, j | 0 <= i < j < |out| ensures out[i] != out[j] {
      assert ([root] + Ids(out))[i + 1] == out[i].id && ([root] + Ids(out))[j + 1] == out[j].id;
    }
    NoDupFits(out, entries);
  }

  lemma LinksAreReplies(entries: seq<Entry>)
    requires DistinctIds(entries)
    ensures LinksOf(Links(entries), CommentIds(entries), entries)
  {
    CommentsByIdDistinct(entries);
    var byId := CommentsById(entries);
    assert CommentIds(entries) == byId.Keys;
    forall l | l in Links(entries)
      ensures exists e :: e in entries && IsReply(CommentIds(entries), e) && l == (e.id, e.parentId.value)
    {
      assert byId[l.0] in entries;
    }
  }

  lemma TopLevelIsRoot(entries: seq<Entry>, e: Entry)
    requires DistinctIds(entries) && e in entries && !IsReply(CommentIds(entries), e)
    ensures IsRoot(Links(entries), e.id)
  {
    LinksAreReplies(entries);
    forall l | l in Links(entries) ensures l.0 != e.id {
      var f :| f in entries && IsReply(CommentIds(entries), f) && l == (f.id, f.parentId.value);
      SameIdSameEntry(entries, e, f);
    }
  }

  lemma SameIdSameEntry(entries: seq<Entry>, e: Entry, f: Entry)
    requires DistinctIds(entries) && e in entries && f in entries
    ensures e.id == f.id ==> e == f
  {
    var i :| 0 <= i < |entries| && entries[i] == e;
    var j :| 0 <= j < |entries| && entries[j] == f;
    if i < j { } else { }
  }

  /** The replies to the node taken from the queue are new, and climb to the root. */
  lemma FoundAreNew(entries: seq<Entry>, ids: set<string>, L: Edges, root: string,
                    done: seq<string>, queue: seq<string>, out: seq<Entry>, e: Entry)
    requires DistinctIds(entries) && LinksOf(L, ids, entries) && IsRoot(L, root)
    requires |queue| > 0 && WalkOrder(entries, ids, root, done, queue, out)
      && WalkReach(entries, ids, L, root, done, out)
    requires e in RepliesTo(ids, entries, queue[0])
    ensures e.id != root && Reaches(L, e.id, root)
    ensures forall f :: f in out ==> e.id != f.id
  {
    var pid := queue[0];
    assert (done + queue)[|done|] == pid;
    assert pid !in done by {
      assert forall k :: 0 <= k < |done| ==> (done + queue)[k] == done[k];
    }
    ReachSelf(L, root);
    assert Reaches(L, pid, root) by {
      if |done| == 0 { assert pid == root; } else { assert pid == out[|done| - 1].id; }
    }
    assert (e.id, pid) in L;
    ReachEdge(L, e.id, pid);
    ReachesTrans(L, e.id, pid, root);
    forall f | f in out ensures e.id != f.id {
      SameIdSameEntry(entries, e, f);
    }
  }

  lemma WalkStep(entries: seq<Entry>, ids: set<string>, L: Edges, root: string,
                 done: seq<string>, queue: seq<string>, out: seq<Entry>)
    requires DistinctIds(entries) && LinksOf(L, ids, entries) && IsRoot(L, root)
    requires |queue| > 0 && WalkOrder(entries, ids, root, done, queue, out)
      && WalkReach(entries, ids, L, root, done, out)
    ensures var found := RepliesTo(ids, entries, queue[0]);
      && WalkOrder(entries, ids, root, done + [queue[0]], queue[1..] + Ids(found), out + found)
      && WalkReach(entries, ids, L, root, done + [queue[0]], out + found)
  {
    var pid := queue[0];
    var found := RepliesTo(ids, entries, pid);
    forall e | e in found
      ensures e.id != root && Reaches(L, e.id, root)
      ensures forall f :: f in out ==> e.id != f.id
    {
      FoundAreNew(entries, ids, L, root, done, queue, out, e);
    }
    FoundStayDistinct(entries, ids, root, pid, out);
    WalkOrderStep(entries, ids, root, done, queue, out);
    WalkReachStep(entries, ids, L, root, done, pid, out);
  }

  lemma WalkOrderStep(entries: seq<Entry>, ids: set<string>, root: string,
                      done: seq<string>, queue: seq<string>, out: seq<Entry>)
    requires |queue| > 0 && WalkOrder(entries, ids, root, done, queue, out)
    requires var found := RepliesTo(ids, entries, queue[0]);
      NoDup([root] + Ids(out + found)) && Ids(out + found) == Ids(out) + Ids(found)
    ensures var found := RepliesTo(ids, entries, queue[0]);
      WalkOrder(entries, ids, root, done + [queue[0]], queue[1..] + Ids(found), out + found)
  {
    var more := Ids(RepliesTo(ids, entries, queue[0]));
    assert (done + [queue[0]]) + (queue[1..] + more) == done + queue + more;
    assert (done + [queue[0]])[..|done|] == done;
  }

  lemma WalkReachStep(entries: seq<Entry>, ids: set<string>, L: Edges, root: string,
                      done: seq<string>, pid: string, out: seq<Entry>)
    requires WalkReach(entries, ids, L, root, done, out)
    requires forall e :: e in RepliesTo(ids, entries, pid) ==> Reaches(L, e.id, root)
    ensures WalkReach(entries, ids, L, root, done + [pid], out + RepliesTo(ids, entries, pid))
  {
  }

  lemma FoundStayDistinct(entries: seq<Entry>, ids: set<string>, root: string, pid: string, out: seq<Entry>)
    requires DistinctIds(entries) && NoDup([root] + Ids(out))
    requires forall e, f :: e in RepliesTo(ids, entries, pid) && f in out ==> e.id != f.id
    requires forall e :: e in RepliesTo(ids, entries, pid) ==> e.id != root
    ensures NoDup([root] + Ids(out + RepliesTo(ids, entries, pid)))
    ensures Ids(out + RepliesTo(ids, entries, pid)) == Ids(out) + Ids(RepliesTo(ids, entries, pid))
  {
    var found := RepliesTo(ids, entries, pid);
    FilterKeepsDistinctIds((e: Entry) => IsReply(ids, e) && e.parentId.value == pid, entries);
    NoDupAppend([root] + Ids(out), Ids(found));
    assert [root] + Ids(out + found) == [root] + Ids(out) + Ids(found);
  }

  lemma {:induction false} FilterKeepsDistinctIds(p: Entry -> bool, entries: seq<Entry>)
    requires DistinctIds(entries)
    ensures DistinctIds(Filter(p, entries))
  {
    if entries != [] {
      assert forall i :: 0 <= i < |entries[1..]| ==> entries[1..][i] == entries[i + 1];
      FilterKeepsDistinctIds(p, entries[1..]);
      assert forall e :: e in entries[1..] ==> e.id != entries[0].id;
    }
  }

  /** When the queue has run dry nothing that climbs to the root is missing. */
  lemma AllDescendantsListed(entries: seq<Entry>, ids: set<string>, L: Edges, root: string,
                             done: seq<string>, out: seq<Entry>)
    requires DistinctIds(entries) && LinksOf(L, ids, entries)
    requires WalkOrder(entries, ids, root, done, [], out) && WalkReach(entries, ids, L, root, done, out)
    ensures done == [root] + Ids(out)
    ensures forall e :: e in out <==> e in entries && e.id != root && Reaches(L, e.id, root)
  {
    assert done + [] == done;
    var S := set x | x in done;
    forall l | l in L && l.1 in S ensures l.0 in S {
      var e :| e in entries && IsReply(ids, e) && l == (e.id, e.parentId.value);
      ListedId(root, out, e);
    }
    forall e | e in out ensures e.id != root {
      ListedId(root, out, e);
    }
    forall e | e in entries && e.id != root && Reaches(L, e.id, root) ensures e in out {
      var n: nat :| ReachIn(L, e.id, root, n);
      ClosedHoldsReaching(L, S, e.id, root, n);
      var i :| 0 <= i < |Ids(out)| && Ids(out)[i] == e.id;
      SameIdSameEntry(entries, e, out[i]);
    }
  }

  lemma ListedId(root: string, out: seq<Entry>, e: Entry)
    requires e in out
    ensures e.id in [root] + Ids(out)
    ensures NoDup([root] + Ids(out)) ==> e.id != root
  {
    var i :| 0 <= i < |out| && out[i] == e;
    assert ([root] + Ids(out))[0] == root && ([root] + Ids(out))[i + 1] == e.id;
  }
}
