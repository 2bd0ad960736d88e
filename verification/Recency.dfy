// Bounded recency lists: viewed issues per workspace, and recently visited
// contexts with eviction of whole workspaces.

module Recency {
  import opened Options
  import opened Seqs

  function Take<T>(s: seq<T>, n: nat): seq<T> {
    if n <= |s| then s[..n] else s
  }

  function NotId(id: string): string -> bool {
    (x: string) => x != id
  }

  // ----- Viewed issues -----

  const CAPACITY: nat := 10

  function Pushed(list: seq<string>, id: string): seq<string> {
    Take([id] + Filter(NotId(id), list), CAPACITY)
  }

  class ViewedIssuesStore {
    var byWorkspace: map<string, seq<string>>

    constructor ()
      ensures byWorkspace == map[]
    {
      byWorkspace := map[];
    }

    function Selected(wsId: Option<string>): seq<string>
      reads this
    {
      if wsId.Some? && wsId.value in byWorkspace then byWorkspace[wsId.value] else []
    }

    method Push(wsId: string, id: string)
      modifies this
      ensures byWorkspace == AfterPush(old(byWorkspace), Visit(wsId, id))
    {
      var prev := if wsId in byWorkspace then byWorkspace[wsId] else [];
      byWorkspace := byWorkspace[wsId := Pushed(prev, id)];
    }

    method Remove(wsId: string, id: string)
      modifies this
      ensures Selected(Some(wsId)) == Filter(NotId(id), old(Selected(Some(wsId))))
      ensures byWorkspace.Keys == old(byWorkspace).Keys
      ensures forall ws :: ws in byWorkspace && ws != wsId ==> byWorkspace[ws] == old(byWorkspace)[ws]
    {
      if wsId in byWorkspace {
        byWorkspace := byWorkspace[wsId := Filter(NotId(id), byWorkspace[wsId])];
      }
    }
  }

  datatype Visit = Visit(ws: string, id: string)

  function ViewedIn(m: map<string, seq<string>>, ws: string): seq<string> {
    if ws in m then m[ws] else []
  }

  function AfterPush(m: map<string, seq<string>>, v: Visit): map<string, seq<string>> {
    m[v.ws := Pushed(ViewedIn(m, v.ws), v.id)]
  }

  function AfterPushes(history: seq<Visit>): map<string, seq<string>> {
    if history == [] then map[]
    else AfterPush(AfterPushes(history[..|history| - 1]), history[|history| - 1])
  }

  /** The ids visited in a workspace, oldest first. */
  function VisitsOf(history: seq<Visit>, ws: string): seq<string> {
    if history == [] then []
    else
      var n := |history| - 1;
      VisitsOf(history[..n], ws) + if history[n].ws == ws then [history[n].id] else []
  }

  function Reverse(s: seq<string>): seq<string> {
    if s == [] then [] else [s[|s| - 1]] + Reverse(s[..|s| - 1])
  }

  /** First occurrences only. */
  function Distinct(s: seq<string>): (r: seq<string>)
    ensures forall x :: x in r <==> x in s
  {
    if s == [] then []
    else
      assert s == [s[0]] + s[1..];
      [s[0]] + Filter(NotId(s[0]), Distinct(s[1..]))
  }

  lemma {:induction false} DistinctNoDup(s: seq<string>)
    ensures NoDup(Distinct(s))
  {
    if s != [] {
      DistinctNoDup(s[1..]);
      FilterNoDup(NotId(s[0]), Distinct(s[1..]));
      NoDupAppend([s[0]], Filter(NotId(s[0]), Distinct(s[1..])));
    }
  }

  /** Cutting to n + 1 before dropping one id is as good as never cutting, for the first n. */
  lemma {:induction false} TakeThenDrop(s: seq<string>, id: string, n: nat)
    requires NoDup(s)
    ensures Take(Filter(NotId(id), Take(s, n + 1)), n) == Take(Filter(NotId(id), s), n)
  {
    if s != [] {
      var first, rest := s[0], s[1..];
      assert s == [first] + rest;
      assert forall i :: 0 <= i < |rest| ==> rest[i] == s[i + 1];
      TakeCons(first, rest, n + 1);
      FilterCons(NotId(id), first, rest);
      FilterCons(NotId(id), first, Take(rest, n));
      if first == id {
        DropAbsent(rest, id, n);
      } else if n > 0 {
        TakeThenDrop(rest, id, n - 1);
        TakeCons(first, Filter(NotId(id), rest), n);
        TakeCons(first, Filter(NotId(id), Take(rest, n)), n);
      }
    }
  }

  lemma DropAbsent(s: seq<string>, id: string, n: nat)
    requires id !in s
    ensures Filter(NotId(id), s) == s && Filter(NotId(id), Take(s, n)) == Take(s, n)
    ensures Take(Take(s, n), n) == Take(s, n)
  {
    assert forall x :: x in Take(s, n) ==> x in s;
    FilterAll(NotId(id), s);
    FilterAll(NotId(id), Take(s, n));
  }

  lemma TakeCons(x: string, s: seq<string>, n: nat)
    requires n > 0
    ensures Take([x] + s, n) == [x] + Take(s, n - 1)
  {
  }

  /** Over push-only histories the list is the first ten of the distinct ids, latest visit first. */
  lemma {:induction false} ViewedIsRecentDistinct(history: seq<Visit>, ws: string)
    ensures ViewedIn(AfterPushes(history), ws) == Take(Distinct(Reverse(VisitsOf(history, ws))), 10)
  {
    if history != [] {
      var n := |history| - 1;
      var last, before := history[n], VisitsOf(history[..n], ws);
      ViewedIsRecentDistinct(history[..n], ws);
      if last.ws == ws {
        assert (before + [last.id])[..|before|] == before;
        var d := Distinct(Reverse(before));
        assert Reverse(before + [last.id]) == [last.id] + Reverse(before);
        assert ([last.id] + Reverse(before))[1..] == Reverse(before);
        DistinctNoDup(Reverse(before));
        TakeThenDrop(d, last.id, CAPACITY - 1);
        TakeCons(last.id, Filter(NotId(last.id), d), CAPACITY);
        TakeCons(last.id, Filter(NotId(last.id), Take(d, CAPACITY)), CAPACITY);
      } else {
        assert VisitsOf(history, ws) == before;
      }
    }
  }
}
