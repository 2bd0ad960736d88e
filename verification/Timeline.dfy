// The entries of an issue timeline and the reply edges between its comments.

module Timeline {
  import opened Options
  import opened Forest

  datatype Kind = Activity | Comment

  datatype Entry = Entry(
    kind: Kind,
    id: string,
    actorType: string,
    actorId: string,
    createdAt: string,
    action: Option<string>,
    content: Option<string>,
    parentId: Option<string>,
    resolvedAt: Option<string>,
    resolvedByType: Option<string>,
    resolvedById: Option<string>,
    coalescedCount: Option<int>)
  {
    /** `null`, `undefined` and `""` all read as "no parent". */
    predicate HasParent() {
      Truthy(parentId)
    }

    predicate IsResolved() {
      Truthy(resolvedAt)
    }
  }

  predicate Truthy(s: Option<string>) {
    s.Some? && s.value != ""
  }

  predicate DistinctIds(entries: seq<Entry>) {
    forall i, j :: 0 <= i < j < |entries| ==> entries[i].id != entries[j].id
  }

  /** The comments indexed by id; a repeated id keeps the last comment. */
  function CommentsById(entries: seq<Entry>): (m: map<string, Entry>)
    ensures forall id :: id in m ==> m[id] in entries && m[id].id == id && m[id].kind.Comment?
    ensures forall e :: e in entries && e.kind.Comment? ==> e.id in m
  {
    if entries == [] then map[]
    else
      var last := |entries| - 1;
      var m := CommentsById(entries[..last]);
      if entries[last].kind.Comment? then m[entries[last].id := entries[last]] else m
  }

  lemma CommentsByIdDistinct(entries: seq<Entry>)
    requires DistinctIds(entries)
    ensures forall e :: e in entries && e.kind.Comment? ==> CommentsById(entries)[e.id] == e
  {
  }

  /** Of several comments with one id, the last is indexed. */
  lemma {:induction false} LastCommentIsIndexed(entries: seq<Entry>, k: nat)
    requires k < |entries| && entries[k].kind.Comment?
    requires forall j :: k < j < |entries| && entries[j].kind.Comment? ==> entries[j].id != entries[k].id
    ensures entries[k].id in CommentsById(entries) && CommentsById(entries)[entries[k].id] == entries[k]
  {
    if k < |entries| - 1 {
      LastCommentIsIndexed(entries[..|entries| - 1], k);
    }
  }

  /** An empty parent id is no parent and an empty time no resolution, and nothing else reads as none. */
  lemma EmptyReadsAsNone(entries: seq<Entry>, e: Entry, p: string)
    requires DistinctIds(entries) && e in entries
    ensures (e.id, p) in EntryEdges(entries) <==> e.parentId == Some(p) && p != ""
    ensures e.IsResolved() <==> e.resolvedAt != None && e.resolvedAt != Some("")
  {
    if (e.id, p) in EntryEdges(entries) {
      var f :| f in entries && f.HasParent() && (f.id, f.parentId.value) == (e.id, p);
      var i :| 0 <= i < |entries| && entries[i] == e;
      var j :| 0 <= j < |entries| && entries[j] == f;
      assert i == j;
    }
  }

  /** Every parent pointer held by a comment, whether or not the parent is loaded. */
  function ParentEdges(byId: map<string, Entry>): Edges {
    set id | id in byId && byId[id].HasParent() :: (id, byId[id].parentId.value)
  }

  /** The parent pointers that lead to a loaded comment. */
  function ReplyEdges(byId: map<string, Entry>): Edges {
    set id | id in byId && byId[id].HasParent() && byId[id].parentId.value in byId
      :: (id, byId[id].parentId.value)
  }

  /** The parent pointers held by any entry. */
  function EntryEdges(entries: seq<Entry>): Edges {
    set e | e in entries && e.HasParent() :: (e.id, e.parentId.value)
  }

  lemma ReplyEdgesFunctional(byId: map<string, Entry>)
    ensures Functional(ReplyEdges(byId)) && Functional(ParentEdges(byId))
    ensures ReplyEdges(byId) <= ParentEdges(byId)
  {
  }

  /** Climbing to a loaded comment only ever passes loaded comments. */
  lemma {:induction false} LoadedPath(byId: map<string, Entry>, x: string, r: string, n: nat)
    requires r in byId && ReachIn(ParentEdges(byId), x, r, n)
    ensures x in byId && ReachIn(ReplyEdges(byId), x, r, n)
    decreases n
  {
    if n > 0 {
      var y :| (x, y) in ParentEdges(byId) && ReachIn(ParentEdges(byId), y, r, n - 1);
      LoadedPath(byId, y, r, n - 1);
      assert (x, y) in ReplyEdges(byId);
    }
  }

  lemma LoadedReach(byId: map<string, Entry>, x: string, r: string)
    requires r in byId
    ensures Reaches(ParentEdges(byId), x, r) <==> Reaches(ReplyEdges(byId), x, r)
    ensures Reaches(ReplyEdges(byId), x, r) ==> x in byId
  {
    if Reaches(ParentEdges(byId), x, r) {
      var n: nat :| ReachIn(ParentEdges(byId), x, r, n);
      LoadedPath(byId, x, r, n);
    }
    if Reaches(ReplyEdges(byId), x, r) {
      var n: nat :| ReachIn(ReplyEdges(byId), x, r, n);
      ReachInMono(ReplyEdges(byId), ParentEdges(byId), x, r, n);
      LoadedPath(byId, x, r, n);
    }
  }
}
