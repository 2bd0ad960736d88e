// What the three walks over the comment forest have in common: the rows lose
// nothing exactly when the reply relation is acyclic, and the rows, the thread
// walk and the cascade delete see the same threads.

module ThreadAgreement {
  import opened Options
  import opened Seqs
  import opened Forest
  import opened Timeline
  import opened Threads
  import opened CommentMutations
  import opened TimelineRows

  function Flatten(rows: seq<Row>): seq<Entry> {
    if rows == [] then []
    else
      var last := rows[|rows| - 1];
      Flatten(rows[..|rows| - 1]) + ([last.entry] + last.replies)
  }

  /** Row r holds, without repetition, its root and entries that climb to it. */
  ghost predicate OwnsItsMembers(L: Edges, r: Row) {
    && IsRoot(L, r.entry.id)
    && NoDup([r.entry] + r.replies)
    && forall e :: e in r.replies ==> Reaches(L, e.id, r.entry.id)
  }

  lemma {:induction false} FlattenMembers(rows: seq<Row>, e: Entry)
    ensures e in Flatten(rows) <==> exists r :: r in rows && (e == r.entry || e in r.replies)
  {
    if rows != [] {
      var init := rows[..|rows| - 1];
      FlattenMembers(init, e);
      assert rows == init + [rows[|rows| - 1]];
    }
  }

  lemma {:induction false} FlattenNoDup(L: Edges, rows: seq<Row>)
    requires Functional(L)
    requires forall r :: r in rows ==> OwnsItsMembers(L, r)
    requires forall i, j :: 0 <= i < j < |rows| ==> rows[i].entry.id != rows[j].entry.id
    ensures NoDup(Flatten(rows))
  {
    if rows != [] {
      var init, last := rows[..|rows| - 1], rows[|rows| - 1];
      FlattenNoDup(L, init);
      forall e | e in [last.entry] + last.replies ensures e !in Flatten(init) {
        FlattenMembers(init, e);
        if r :| r in init && (e == r.entry || e in r.replies) {
          var i :| 0 <= i < |init| && init[i] == r;
          assert rows[i] == r && r in rows && last in rows;
          ReachSelf(L, e.id);
          RootUnique(L, e.id, r.entry.id, last.entry.id);
          assert false;
        }
      }
      assert OwnsItsMembers(L, last);
      NoDupAppend(Flatten(init), [last.entry] + last.replies);
    }
  }

  ghost predicate Rooted(L: Edges, x: string) {
    exists r :: IsRoot(L, r) && Reaches(L, x, r)
  }

  lemma RowsOwnMembers(entries: seq<Entry>, rows: seq<Row>)
    requires DistinctIds(entries) && AreRows(entries, rows)
    ensures forall r :: r in rows ==> OwnsItsMembers(Links(entries), r) && r.entry in TopLevel(entries)
    ensures forall i, j :: 0 <= i < j < |rows| ==> rows[i].entry.id != rows[j].entry.id
  {
    TopLevelAreRoots(entries);
    var tops, ids := TopLevel(entries), CommentIds(entries);
    FilterKeepsDistinctIds((e: Entry) => !IsReply(ids, e), entries);
    forall i | 0 <= i < |rows|
      ensures OwnsItsMembers(Links(entries), rows[i]) && rows[i].entry == tops[i]
    {
      assert rows[i].entry == Map((r: Row) => r.entry, rows)[i];
      assert RowHasItsReplies(entries, rows[i]);
      if rows[i].entry.kind.Comment? {
        DistinctFromIds(rows[i].entry, rows[i].replies);
      }
    }
  }

  lemma DistinctFromIds(e: Entry, out: seq<Entry>)
    requires NoDup([e.id] + Ids(out))
    ensures NoDup([e] + out)
  {
    assert forall i :: 0 <= i <= |out| ==> ([e] + out)[i].id == ([e.id] + Ids(out))[i];
  }

  /** The rows show exactly the entries that have a root. */
  lemma RowsShowRooted(entries: seq<Entry>, rows: seq<Row>, e: Entry)
    requires DistinctIds(entries) && AreRows(entries, rows)
    ensures e in Flatten(rows) <==> e in entries && Rooted(Links(entries), e.id)
  {
    FlattenMembers(rows, e);
    if e in entries && Rooted(Links(entries), e.id) {
      RootedIsShown(entries, rows, e);
    }
    if r :| r in rows && (e == r.entry || e in r.replies) {
      RowsOwnMembers(entries, rows);
      ReachSelf(Links(entries), e.id);
      RowMembersAreEntries(entries, rows, r, e);
    }
  }

  lemma RowMembersAreEntries(entries: seq<Entry>, rows: seq<Row>, r: Row, e: Entry)
    requires DistinctIds(entries) && AreRows(entries, rows) && r in rows && (e == r.entry || e in r.replies)
    ensures e in entries
  {
    assert RowHasItsReplies(entries, r);
    RowsOwnMembers(entries, rows);
  }

  lemma RootedIsShown(entries: seq<Entry>, rows: seq<Row>, e: Entry)
    requires DistinctIds(entries) && AreRows(entries, rows)
    requires e in entries && Rooted(Links(entries), e.id)
    ensures exists r :: r in rows && (e == r.entry || e in r.replies)
  {
    var root :| IsRoot(Links(entries), root) && Reaches(Links(entries), e.id, root);
    var top := RootEntry(entries, e, root);
    var r := RowOfTop(entries, rows, top);
    if e != top {
      SameIdSameEntry(entries, e, top);
    }
  }

  lemma RowOfTop(entries: seq<Entry>, rows: seq<Row>, top: Entry) returns (r: Row)
    requires AreRows(entries, rows) && top in TopLevel(entries)
    ensures r in rows && r.entry == top && RowHasItsReplies(entries, r)
  {
    var tops := TopLevel(entries);
    var i :| 0 <= i < |tops| && tops[i] == top;
    assert Map((r: Row) => r.entry, rows)[i] == top;
    r := rows[i];
  }

  /** The root above an entry belongs to a top-level entry: the entry itself or a comment. */
  lemma RootEntry(entries: seq<Entry>, e: Entry, root: string) returns (top: Entry)
    requires DistinctIds(entries) && e in entries
    requires IsRoot(Links(entries), root) && Reaches(Links(entries), e.id, root)
    ensures top in TopLevel(entries) && top.id == root && (top == e || top.kind.Comment?)
  {
    var L, byId := Links(entries), CommentsById(entries);
    LinksAreReplies(entries);
    if e.id == root {
      top := e;
    } else {
      var n: nat :| ReachIn(L, e.id, root, n);
      var y :| (e.id, y) in L && ReachIn(L, y, root, n - 1);
      PathStaysInside(L, L, byId.Keys, y, root, n - 1);
      top := byId[root];
    }
    RootIsNoReply(entries, top);
  }

  lemma RootIsNoReply(entries: seq<Entry>, e: Entry)
    requires DistinctIds(entries) && e in entries && IsRoot(Links(entries), e.id)
    ensures e in TopLevel(entries)
  {
    LinksAreReplies(entries);
  }

  /** No entry is lost or shown twice exactly when the reply relation is acyclic. */
  lemma RowsArePermutationIffAcyclic(entries: seq<Entry>, rows: seq<Row>)
    requires DistinctIds(entries) && AreRows(entries, rows)
    ensures multiset(Flatten(rows)) == multiset(entries) <==> Acyclic(Links(entries))
  {
    var L := Links(entries);
    ReplyEdgesFunctional(CommentsById(entries));
    RowsOwnMembers(entries, rows);
    FlattenNoDup(L, rows);
    forall e ensures e in Flatten(rows) <==> e in entries && Rooted(L, e.id) {
      RowsShowRooted(entries, rows, e);
    }
    AcyclicIffRooted(L);
    if Acyclic(L) {
      forall e | e in entries ensures Rooted(L, e.id) {
        var r := ClimbToRoot(L, e.id, {}, set l | l in L :: l.0);
      }
      SameElementsPermute(Flatten(rows), entries);
    } else {
      var l :| l in L && !exists r :: IsRoot(L, r) && Reaches(L, l.0, r);
      LinksAreReplies(entries);
      var e :| e in entries && IsReply(CommentIds(entries), e) && l == (e.id, e.parentId.value);
      assert !Rooted(L, e.id);
      assert e in multiset(entries) && e !in multiset(Flatten(rows));
    }
  }

  function RowIds(r: Row): set<string> {
    {r.entry.id} + set e | e in r.replies :: e.id
  }

  lemma RowIdsAreBelow(entries: seq<Entry>, rows: seq<Row>, r: Row, x: string)
    requires DistinctIds(entries) && AreRows(entries, rows) && r in rows && r.entry.kind.Comment?
    ensures x in RowIds(r) <==> x in CommentsById(entries) && Reaches(Links(entries), x, r.entry.id)
    ensures r.entry.id in CommentsById(entries) && IsRoot(Links(entries), r.entry.id)
  {
    RowsOwnMembers(entries, rows);
    assert RowHasItsReplies(entries, r);
    ListedAreBelow(entries, r, x);
  }

  lemma ListedAreBelow(entries: seq<Entry>, r: Row, x: string)
    requires r.entry in entries && r.entry.kind.Comment? && BreadthFirst(entries, r.entry.id, r.replies)
    ensures x in RowIds(r) <==> x in CommentsById(entries) && Reaches(Links(entries), x, r.entry.id)
  {
    var byId, root := CommentsById(entries), r.entry.id;
    ReachSelf(Links(entries), root);
    LoadedReach(byId, x, root);
    if x in byId && Reaches(Links(entries), x, root) && x != root {
      ListedBelow(entries, root, r.replies, byId[x]);
    }
  }

  lemma ListedBelow(entries: seq<Entry>, root: string, out: seq<Entry>, e: Entry)
    requires BreadthFirst(entries, root, out)
    ensures e in out <==> e in entries && e.id != root && Reaches(Links(entries), e.id, root)
  {
  }

  /** A row holds exactly the thread of each of its members. */
  lemma RowIsThread(entries: seq<Entry>, rows: seq<Row>, r: Row, c: string)
    requires DistinctIds(entries) && AreRows(entries, rows) && r in rows && r.entry.kind.Comment?
    requires c in RowIds(r)
    ensures RowIds(r) == ThreadIds(CommentsById(entries), c)
  {
    var L, root := Links(entries), r.entry.id;
    ReplyEdgesFunctional(CommentsById(entries));
    RowIdsAreBelow(entries, rows, r, c);
    TopReachedByConnected(L, root, c);
    forall x ensures x in RowIds(r) <==> x in ThreadIds(CommentsById(entries), c) {
      RowIdsAreBelow(entries, rows, r, x);
      TopReachedByConnected(L, root, x);
      if Connected(L, x, root) { ConnectedTrans(L, x, root, c); }
      if Connected(L, x, c) { ConnectedTrans(L, x, c, root); }
    }
  }

  /** No activity climbs to the node by its parent pointers. */
  ghost predicate NoActivityBelow(entries: seq<Entry>, root: string) {
    forall e :: e in entries && e.kind.Activity? ==> !Reaches(EntryEdges(entries), e.id, root)
  }

  lemma {:induction false} CommentsOnTheWay(entries: seq<Entry>, x: string, root: string, n: nat)
    requires DistinctIds(entries) && NoActivityBelow(entries, root)
    requires ReachIn(EntryEdges(entries), x, root, n)
    ensures ReachIn(ParentEdges(CommentsById(entries)), x, root, n)
    decreases n
  {
    if n > 0 {
      var y :| (x, y) in EntryEdges(entries) && ReachIn(EntryEdges(entries), y, root, n - 1);
      CommentsOnTheWay(entries, y, root, n - 1);
      CommentsByIdDistinct(entries);
      var e :| e in entries && e.HasParent() && e.id == x && e.parentId.value == y;
      assert Reaches(EntryEdges(entries), e.id, root);
      assert (x, y) in ParentEdges(CommentsById(entries));
    }
  }

  lemma ReachAmongComments(entries: seq<Entry>, x: string, root: string)
    requires DistinctIds(entries) && NoActivityBelow(entries, root)
    ensures Reaches(EntryEdges(entries), x, root) <==> Reaches(ParentEdges(CommentsById(entries)), x, root)
  {
    var byId := CommentsById(entries);
    if Reaches(EntryEdges(entries), x, root) {
      var n: nat :| ReachIn(EntryEdges(entries), x, root, n);
      CommentsOnTheWay(entries, x, root, n);
    }
    if Reaches(ParentEdges(byId), x, root) {
      forall l | l in ParentEdges(byId) ensures l in EntryEdges(entries) { assert byId[l.0] in entries; }
      ReachesMono(ParentEdges(byId), EntryEdges(entries), x, root);
    }
  }

  /** Deleting a thread starter removes exactly what its row shows, if and only if no activity hangs below it. */
  lemma CascadeOfTopIsRowIff(entries: seq<Entry>, rows: seq<Row>, r: Row)
    requires DistinctIds(entries) && AreRows(entries, rows) && r in rows && r.entry.kind.Comment?
    ensures CascadeIds(entries, r.entry.id) == RowIds(r) <==> NoActivityBelow(entries, r.entry.id)
  {
    var root := r.entry.id;
    if NoActivityBelow(entries, root) {
      forall x ensures x in CascadeIds(entries, root) <==> x in RowIds(r) { CascadeMember(entries, rows, r, x); }
    } else {
      var e :| e in entries && e.kind.Activity? && Reaches(EntryEdges(entries), e.id, root);
      assert e.id in CascadeIds(entries, root);
      RowIdsAreBelow(entries, rows, r, e.id);
      ActivityIsNoComment(entries, e);
    }
  }

  lemma ActivityIsNoComment(entries: seq<Entry>, e: Entry)
    requires DistinctIds(entries) && e in entries && e.kind.Activity?
    ensures e.id !in CommentsById(entries)
  {
    if e.id in CommentsById(entries) {
      SameIdSameEntry(entries, e, CommentsById(entries)[e.id]);
    }
  }

  lemma CascadeMember(entries: seq<Entry>, rows: seq<Row>, r: Row, x: string)
    requires DistinctIds(entries) && AreRows(entries, rows) && r in rows && r.entry.kind.Comment?
    requires NoActivityBelow(entries, r.entry.id)
    ensures x in CascadeIds(entries, r.entry.id) <==> x in RowIds(r)
  {
    var byId, root := CommentsById(entries), r.entry.id;
    RowIdsAreBelow(entries, rows, r, x);
    ReachAmongComments(entries, x, root);
    LoadedReach(byId, x, root);
    if x in byId { assert byId[x] in entries; }
  }
}
