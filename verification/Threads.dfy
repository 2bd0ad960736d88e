// Comment threads in the timeline cache: the thread walk, the optimistic
// resolve and the optimistic cascade delete.

module Threads {
  import opened Options
  import opened Seqs
  import opened Forest
  import opened Timeline

  /** The thread of c: everything tied to c by loaded replies or, when c is no
      loaded comment, the comments that climb to the id c. */
  ghost function ThreadIds(byId: map<string, Entry>, c: string): set<string> {
    set x | x in byId.Keys + {c} &&
            if c in byId then Connected(ReplyEdges(byId), x, c) else Reaches(ParentEdges(byId), x, c)
  }

  method ClimbGuarded(byId: map<string, Entry>, commentId: string) returns (rootId: string)
    requires forall id :: id in byId ==> byId[id].id == id
    ensures commentId !in byId ==> rootId == commentId
    ensures commentId in byId ==>
      && rootId in byId && Reaches(ReplyEdges(byId), commentId, rootId)
      && (IsRoot(ReplyEdges(byId), rootId) || OnCycle(ReplyEdges(byId), rootId))
  {
    ghost var E := ReplyEdges(byId);
    rootId := commentId;
    var guard: set<string> := {};
    var cur := if commentId in byId then Some(byId[commentId]) else None;
    ReachSelf(E, commentId);
    while cur.Some? && cur.value.HasParent() && cur.value.parentId.value in byId && cur.value.id !in guard
      invariant Reaches(E, commentId, rootId)
      invariant guard <= byId.Keys
      invariant cur == if rootId in byId then Some(byId[rootId]) else None
      invariant commentId in byId <==> rootId in byId
      invariant commentId !in byId ==> rootId == commentId
      invariant forall g :: g in guard ==> ReachesProperly(E, g, rootId)
      decreases byId.Keys - guard
    {
      var next := cur.value.parentId.value;
      assert (rootId, next) in E;
      ReachEdge(E, rootId, next);
      ReachesTrans(E, commentId, rootId, next);
      forall g | g in guard + {rootId} ensures ReachesProperly(E, g, next) {
        if g in guard {
          var n: nat :| n > 0 && ReachIn(E, g, rootId, n);
          ReachInTrans(E, g, rootId, next, n, 1);
        }
      }
      guard := guard + {cur.value.id};
      rootId := next;
      cur := Some(byId[next]);
    }
    if rootId in byId && !(byId[rootId].HasParent() && byId[rootId].parentId.value in byId) {
      assert IsRoot(E, rootId);
    }
  }

  /** `kids` lists, for every parent id, the comments that name it. */
  ghost predicate ListsChildren(byId: map<string, Entry>, kids: map<string, seq<string>>) {
    && (forall x, p :: p in kids && x in kids[p] ==> (x, p) in ParentEdges(byId))
    && (forall x, p :: (x, p) in ParentEdges(byId) ==> p in kids && x in kids[p])
  }

  method GroupChildren(byId: map<string, Entry>, order: seq<string>) returns (kids: map<string, seq<string>>)
    requires forall id :: id in byId ==> byId[id].id == id
    requires forall id :: id in order <==> id in byId
    ensures ListsChildren(byId, kids)
  {
    kids := map[];
    for i := 0 to |order|
      invariant forall x, p :: p in kids && x in kids[p] ==> (x, p) in ParentEdges(byId)
      invariant forall k :: 0 <= k < i && byId[order[k]].HasParent() ==>
        && byId[order[k]].parentId.value in kids
        && order[k] in kids[byId[order[k]].parentId.value]
    {
      var e := byId[order[i]];
      if e.HasParent() {
        var p := e.parentId.value;
        var list := if p in kids then kids[p] else [];
        kids := kids[p := list + [e.id]];
        assert (e.id, p) in ParentEdges(byId);
      }
    }
  }

  method ExpandDown(byId: map<string, Entry>, kids: map<string, seq<string>>, rootId: string)
    returns (ids: set<string>)
    requires ListsChildren(byId, kids)
    ensures ids <= byId.Keys + {rootId}
    ensures forall x :: x in ids <==> Reaches(ParentEdges(byId), x, rootId)
  {
    ghost var E, nodes := ParentEdges(byId), byId.Keys + {rootId};
    ids := {rootId};
    var stack := [rootId];
    ReachSelf(E, rootId);
    while |stack| > 0
      invariant rootId in ids && ids <= nodes
      invariant forall x :: x in ids ==> Reaches(E, x, rootId)
      invariant forall x :: x in stack ==> x in ids
      invariant forall e :: e in E && e.1 in ids && e.1 !in stack ==> e.0 in ids
      decreases nodes - ids, |stack|
    {
      var id := stack[|stack| - 1];
      var rest := stack[..|stack| - 1];
      assert forall x :: x in stack && x != id ==> x in rest;
      ghost var ids0 := ids;
      stack, ids := PushChildren(byId, if id in kids then kids[id] else [], id, rootId, rest, ids);
      assert forall e :: e in E && e.1 == id ==> (e.0, id) == e && e.0 in kids[id];
      assert ids != ids0 ==> nodes - ids < nodes - ids0 by {
        if ids != ids0 { var x :| x in ids && x !in ids0; assert x in nodes - ids0; }
      }
    }
    ClosedIsBelow(E, ids, rootId);
  }

  method PushChildren(byId: map<string, Entry>, kids: seq<string>, ghost id: string, ghost rootId: string,
                      stack0: seq<string>, ids0: set<string>)
    returns (stack: seq<string>, ids: set<string>)
    requires forall x :: x in kids ==> (x, id) in ParentEdges(byId)
    requires Reaches(ParentEdges(byId), id, rootId)
    requires forall x :: x in ids0 ==> Reaches(ParentEdges(byId), x, rootId)
    ensures forall x :: x in ids <==> x in ids0 || x in kids
    ensures forall x :: x in stack <==> x in stack0 || (x in ids && x !in ids0)
    ensures forall x :: x in ids ==> Reaches(ParentEdges(byId), x, rootId)
    ensures ids == ids0 ==> stack == stack0
  {
    stack, ids := stack0, ids0;
    for k := 0 to |kids|
      invariant forall x :: x in ids <==> x in ids0 || x in kids[..k]
      invariant forall x :: x in stack <==> x in stack0 || (x in ids && x !in ids0)
      invariant forall x :: x in ids ==> Reaches(ParentEdges(byId), x, rootId)
      invariant ids0 <= ids && (ids == ids0 ==> stack == stack0)
    {
      var child := kids[k];
      if child !in ids {
        ReachEdge(ParentEdges(byId), child, id);
        ReachesTrans(ParentEdges(byId), child, id, rootId);
        ids := ids + {child};
        stack := stack + [child];
      }
    }
  }

  method CollectThreadCommentIds(entries: seq<Entry>, commentId: string) returns (ids: set<string>)
    ensures ids == ThreadIds(CommentsById(entries), commentId)
  {
    var byId: map<string, Entry>, order: seq<string> := map[], [];
    for i := 0 to |entries|
      invariant byId == CommentsById(entries[..i])
      invariant forall id :: id in order <==> id in byId
    {
      assert entries[..i + 1][..i] == entries[..i];
      var e := entries[i];
      if e.kind.Comment? {
        if e.id !in byId { order := order + [e.id]; }
        byId := byId[e.id := e];
      }
    }
    assert entries[..|entries|] == entries;
    var rootId := ClimbGuarded(byId, commentId);
    var kids := GroupChildren(byId, order);
    ids := ExpandDown(byId, kids, rootId);
    BelowTopIsThread(byId, commentId, rootId, ids);
  }

  /** Below the node where the climb stops lies exactly the thread, cycles included. */
  lemma BelowTopIsThread(byId: map<string, Entry>, c: string, top: string, ids: set<string>)
    requires forall x :: x in ids <==> Reaches(ParentEdges(byId), x, top)
    requires ids <= byId.Keys + {top}
    requires c !in byId ==> top == c
    requires c in byId ==>
      && top in byId && Reaches(ReplyEdges(byId), c, top)
      && (IsRoot(ReplyEdges(byId), top) || OnCycle(ReplyEdges(byId), top))
    ensures ids == ThreadIds(byId, c)
  {
    if c in byId {
      var L := ReplyEdges(byId);
      ReplyEdgesFunctional(byId);
      ReachSelf(L, top);
      assert Connected(L, c, top);
      forall x | x in byId
        ensures x in ids <==> Connected(L, x, c)
      {
        LoadedReach(byId, x, top);
        TopReachedByConnected(L, top, x);
        if Connected(L, x, top) { ConnectedTrans(L, x, top, c); }
        if Connected(L, x, c) { ConnectedTrans(L, x, c, top); }
      }
    }
  }
}
