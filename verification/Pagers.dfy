// Fetching in pages and in batches: the scheduled issues of a project, and the
// children of many parents at once.

module Pagers {
  import opened Options
  import opened Seqs
  import opened Issues
  import opened QueryCache
  import opened IssueKeys
  import opened IssueMutations

  const PROJECT_GANTT_PAGE_LIMIT := 500
  const PROJECT_GANTT_MAX_ISSUES := 10000

  datatype Page = Page(issues: seq<Issue>, total: int)

  /** A server's answer to the n-th request, for an offset. It may answer anything. */
  type Server = (nat, nat) -> Page

  function Least(a: int, b: int): int {
    if a < b then a else b
  }

  /** A server that slices one fixed list. */
  function Slicing(all: seq<Issue>): Server {
    (n: nat, offset: nat) =>
      if offset >= |all| then Page([], |all|)
      else Page(all[offset..Least(offset + 500, |all|)], |all|)
  }

  /** Against any server the walk ends after at most twenty requests; a slicing server gives it
      exactly its first ten thousand issues. */
  method FetchProjectGanttIssues(server: Server, ghost all: seq<Issue>) returns (issues: seq<Issue>, requests: nat)
    ensures 1 <= requests <= 20
    ensures (forall n: nat, offset: nat :: server(n, offset) == Slicing(all)(n, offset)) ==>
      issues == if |all| <= 10000 then all else all[..10000]
  {
    ghost var fixed := forall n: nat, offset: nat :: server(n, offset) == Slicing(all)(n, offset);
    issues, requests := [], 0;
    var offset: nat := 0;
    while offset < PROJECT_GANTT_MAX_ISSUES
      invariant offset == requests * PROJECT_GANTT_PAGE_LIMIT && requests <= 20
      invariant fixed ==> offset <= |all| && issues == all[..offset]
      decreases PROJECT_GANTT_MAX_ISSUES - offset
    {
      var res := server(requests, offset);
      requests := requests + 1;
      issues := issues + res.issues;
      if fixed {
        assert res == Slicing(all)(requests - 1, offset);
        assert offset < |all| ==> all[..offset] + res.issues == all[..Least(offset + PROJECT_GANTT_PAGE_LIMIT, |all|)];
      }
      if |res.issues| < PROJECT_GANTT_PAGE_LIMIT { break; }
      if |issues| >= res.total { break; }
      offset := offset + PROJECT_GANTT_PAGE_LIMIT;
    }
  }

  // ----- Children of many parents -----

  const CHUNK_SIZE := 200

  function Concat<T>(parts: seq<seq<T>>): seq<T> {
    if parts == [] then [] else Concat(parts[..|parts| - 1]) + parts[|parts| - 1]
  }

  /** The chunks put together are the input; each holds 1 to 200 parents. */
  method ChunkParents(parentIds: seq<string>) returns (chunks: seq<seq<string>>)
    ensures Concat(chunks) == parentIds
    ensures forall c :: c in chunks ==> 1 <= |c| <= 200
    ensures forall i :: 0 <= i < |chunks| - 1 ==> |chunks[i]| == 200
  {
    chunks := [];
    var i := 0;
    while i < |parentIds|
      invariant 0 <= i && i % CHUNK_SIZE == 0
      invariant Concat(chunks) == parentIds[..Least(i, |parentIds|)]
      invariant forall c :: c in chunks ==> 1 <= |c| <= CHUNK_SIZE
      invariant i <= |parentIds| ==> forall k :: 0 <= k < |chunks| ==> |chunks[k]| == CHUNK_SIZE
      invariant forall k :: 0 <= k < |chunks| - 1 ==> |chunks[k]| == CHUNK_SIZE
    {
      var end := Least(i + CHUNK_SIZE, |parentIds|);
      var chunk := parentIds[i..end];
      assert (chunks + [chunk])[..|chunks|] == chunks;
      assert parentIds[..i] + chunk == parentIds[..end];
      chunks := chunks + [chunk];
      i := i + CHUNK_SIZE;
    }
    assert parentIds[..|parentIds|] == parentIds;
  }

  function ChildOf(p: string): Issue -> bool {
    (i: Issue) => i.parentId == Some(p)
  }

  /** The groups are, for every non-empty parent id that occurs, its children in response order. */
  ghost predicate Groups(grouped: map<string, seq<Issue>>, order: seq<string>, issues: seq<Issue>) {
    && NoDup(order) && (forall p :: p in order <==> p in grouped)
    && (forall p :: p in grouped ==> p != "" && grouped[p] != [] && grouped[p] == Filter(ChildOf(p), issues))
    && (forall i :: i in issues && NonEmpty(i.parentId) ==> i.parentId.value in grouped)
  }

  lemma GroupStep(grouped: map<string, seq<Issue>>, order: seq<string>, issues: seq<Issue>, x: Issue)
    requires Groups(grouped, order, issues)
    ensures !NonEmpty(x.parentId) ==> Groups(grouped, order, issues + [x])
    ensures NonEmpty(x.parentId) && x.parentId.value in grouped ==>
      Groups(grouped[x.parentId.value := grouped[x.parentId.value] + [x]], order, issues + [x])
    ensures NonEmpty(x.parentId) && x.parentId.value !in grouped ==>
      Groups(grouped[x.parentId.value := [x]], order + [x.parentId.value], issues + [x])
  {
    forall p { ChildrenSnoc(issues, x, p); }
    if NonEmpty(x.parentId) {
      var p := x.parentId.value;
      if p in grouped { GroupGrows(grouped, order, issues, x); } else { GroupStarts(grouped, order, issues, x); }
    }
  }

  lemma ChildrenSnoc(issues: seq<Issue>, x: Issue, p: string)
    ensures Filter(ChildOf(p), issues + [x]) == Filter(ChildOf(p), issues) + if x.parentId == Some(p) then [x] else []
  {
    FilterConcat(ChildOf(p), issues, [x]);
    FilterCons(ChildOf(p), x, []);
    assert [x] + [] == [x];
  }

  lemma GroupGrows(grouped: map<string, seq<Issue>>, order: seq<string>, issues: seq<Issue>, x: Issue)
    requires Groups(grouped, order, issues) && x.parentId.Some? && x.parentId.value in grouped
    ensures Groups(grouped[x.parentId.value := grouped[x.parentId.value] + [x]], order, issues + [x])
  {
    forall p { ChildrenSnoc(issues, x, p); }
  }

  lemma GroupStarts(grouped: map<string, seq<Issue>>, order: seq<string>, issues: seq<Issue>, x: Issue)
    requires Groups(grouped, order, issues) && NonEmpty(x.parentId) && x.parentId.value !in grouped
    ensures Groups(grouped[x.parentId.value := [x]], order + [x.parentId.value], issues + [x])
  {
    forall p { ChildrenSnoc(issues, x, p); }
    FilterNone(ChildOf(x.parentId.value), issues);
    NoDupAppend(order, [x.parentId.value]);
  }

  method GroupByParent(responses: seq<seq<Issue>>) returns (grouped: map<string, seq<Issue>>, order: seq<string>)
    ensures Groups(grouped, order, Concat(responses))
  {
    grouped, order := map[], [];
    for r := 0 to |responses|
      invariant Groups(grouped, order, Concat(responses[..r]))
    {
      assert responses[..r + 1][..r] == responses[..r];
      grouped, order := GroupResponse(grouped, order, responses[r], Concat(responses[..r]));
    }
    assert responses[..|responses|] == responses;
  }

  method GroupResponse(grouped0: map<string, seq<Issue>>, order0: seq<string>, issues: seq<Issue>,
                       ghost before: seq<Issue>)
    returns (grouped: map<string, seq<Issue>>, order: seq<string>)
    requires Groups(grouped0, order0, before)
    ensures Groups(grouped, order, before + issues)
  {
    grouped, order := grouped0, order0;
    assert before + issues[..0] == before;
    for k := 0 to |issues|
      invariant Groups(grouped, order, before + issues[..k])
    {
      var issue := issues[k];
      GroupStep(grouped, order, before + issues[..k], issue);
      assert before + issues[..k + 1] == before + issues[..k] + [issue];
      if !NonEmpty(issue.parentId) { continue; }
      var p := issue.parentId.value;
      if p in grouped {
        grouped := grouped[p := grouped[p] + [issue]];
      } else {
        grouped := grouped[p := [issue]];
        order := order + [p];
      }
    }
    assert issues[..|issues|] == issues;
  }

  predicate EmptyRows(d: Option<Data>) {
    d.None? || d.value == Rows([])
  }

  /** The parent whose children cache a key is, among the grouped ones. */
  predicate KeyOfGroup(ws: string, grouped: map<string, seq<Issue>>, k: Key) {
    LastString(k).Some? && k == ChildrenKey(ws, LastString(k).value) && LastString(k).value in grouped
  }

  /** A per-parent cache is filled from its group when it is missing or empty; all else is left alone. */
  function HydratedValue(before: Store, ws: string, grouped: map<string, seq<Issue>>, k: Key): Option<Data> {
    if KeyOfGroup(ws, grouped, k) && EmptyRows(Get(before, k)) then Some(Rows(grouped[LastString(k).value]))
    else Get(before, k)
  }

  ghost predicate Hydrated(before: Store, after: Store, ws: string, grouped: map<string, seq<Issue>>) {
    forall k :: Get(after, k) == HydratedValue(before, ws, grouped, k)
  }

  /** Missing and empty children caches of the groups are filled, and every other query stays as it is. */
  ghost predicate FillsExactly(before: Store, after: Store, ws: string, grouped: map<string, seq<Issue>>) {
    && (forall p | p in grouped ::
          FilledOrKept(Get(before, ChildrenKey(ws, p)), Get(after, ChildrenKey(ws, p)), grouped[p]))
    && (forall k | (forall p :: p in grouped ==> k != ChildrenKey(ws, p)) :: Get(after, k) == Get(before, k))
  }

  predicate FilledOrKept(before: Option<Data>, after: Option<Data>, rows: seq<Issue>) {
    if before == None || before == Some(Rows([])) then after == Some(Rows(rows)) else after == before
  }

  lemma HydrationFillsExactly(before: Store, after: Store, ws: string, grouped: map<string, seq<Issue>>)
    requires Hydrated(before, after, ws, grouped)
    ensures FillsExactly(before, after, ws, grouped)
  {
    forall p | p in grouped
      ensures FilledOrKept(Get(before, ChildrenKey(ws, p)), Get(after, ChildrenKey(ws, p)), grouped[p])
    {
      KeysTellApart(ws, p, ws, p);
      assert Get(after, ChildrenKey(ws, p)) == HydratedValue(before, ws, grouped, ChildrenKey(ws, p));
    }
    forall k | forall p :: p in grouped ==> k != ChildrenKey(ws, p) ensures Get(after, k) == Get(before, k) {
      assert Get(after, k) == HydratedValue(before, ws, grouped, k);
    }
  }

  function Restrict(grouped: map<string, seq<Issue>>, ps: seq<string>): map<string, seq<Issue>> {
    map p | p in grouped && p in ps :: grouped[p]
  }

  lemma HydrateStep(before: Store, mid: Store, ws: string, grouped: map<string, seq<Issue>>, order: seq<string>, i: nat)
    requires NoDup(order) && i < |order| && order[i] in grouped
    requires Hydrated(before, mid, ws, Restrict(grouped, order[..i]))
    ensures var key := ChildrenKey(ws, order[i]);
      Hydrated(before, if EmptyRows(Get(mid, key)) then mid[key := Some(Rows(grouped[order[i]]))] else mid, ws,
               Restrict(grouped, order[..i + 1]))
  {
    var p, key := order[i], ChildrenKey(ws, order[i]);
    var done, more := Restrict(grouped, order[..i]), Restrict(grouped, order[..i + 1]);
    assert order[..i + 1] == order[..i] + [p];
    assert Get(mid, key) == HydratedValue(before, ws, done, key);
    assert LastString(key) == Some(p) && p !in order[..i];
    forall k | k != key ensures HydratedValue(before, ws, more, k) == HydratedValue(before, ws, done, k) {
      assert KeyOfGroup(ws, more, k) <==> KeyOfGroup(ws, done, k);
    }
  }

  method HydrateChildren(qc: QueryClient, ws: string, grouped: map<string, seq<Issue>>, order: seq<string>)
    requires qc.Valid() && NoDup(order) && forall p :: p in order <==> p in grouped
    modifies qc
    ensures qc.Valid() && Hydrated(old(qc.data), qc.data, ws, grouped)
    ensures FillsExactly(old(qc.data), qc.data, ws, grouped)
  {
    for i := 0 to |order|
      invariant qc.Valid() && Hydrated(old(qc.data), qc.data, ws, Restrict(grouped, order[..i]))
    {
      var key := ChildrenKey(ws, order[i]);
      assert order[i] in order;
      HydrateStep(old(qc.data), qc.data, ws, grouped, order, i);
      var existing := qc.GetQueryData(key);
      if EmptyRows(existing) {
        qc.SetQueryData(key, Some(Rows(grouped[order[i]])));
      }
    }
    assert order[..|order|] == order;
    assert Restrict(grouped, order) == grouped;
    HydrationFillsExactly(old(qc.data), qc.data, ws, grouped);
  }

  /** The whole fetch: `fetch` answers one chunk. */
  method FetchAndHydrateChildrenByParents(qc: QueryClient, ws: string, parentIds: seq<string>,
                                          fetch: seq<string> -> seq<Issue>)
    returns (grouped: map<string, seq<Issue>>, ghost chunks: seq<seq<string>>, ghost order: seq<string>)
    requires qc.Valid()
    modifies qc
    ensures Concat(chunks) == parentIds && forall c :: c in chunks ==> 1 <= |c| <= 200
    ensures Groups(grouped, order, Concat(Map(fetch, chunks)))
    ensures qc.Valid() && Hydrated(old(qc.data), qc.data, ws, grouped)
    ensures FillsExactly(old(qc.data), qc.data, ws, grouped)
  {
    var parts := ChunkParents(parentIds);
    var keys;
    grouped, keys := GroupByParent(Map(fetch, parts));
    HydrateChildren(qc, ws, grouped, keys);
    chunks, order := parts, keys;
  }
}
