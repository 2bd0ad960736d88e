// Recently visited contexts: at most 20 per workspace, at most 50 workspaces.

module RecentContexts {
  import opened Options
  import opened Seqs
  import opened Recency

  const MAX_RECENT_CONTEXTS: nat := 20
  const MAX_WORKSPACES: nat := 50

  datatype ContextType = IssueContext | ProjectContext

  datatype Entry = Entry(kind: ContextType, id: string, title: Option<string>, visitedAt: int)

  function EntryKey(e: Entry): string {
    (if e.kind.IssueContext? then "issue" else "project") + ":" + e.id
  }

  /** A key names one context: its kind and its id. */
  lemma EntryKeyNamesContext(a: Entry, b: Entry)
    ensures EntryKey(a) == EntryKey(b) <==> a.kind == b.kind && a.id == b.id
  {
    var x, y := EntryKey(a), EntryKey(b);
    assert x[0] == (if a.kind.IssueContext? then 'i' else 'p') && y[0] == (if b.kind.IssueContext? then 'i' else 'p');
    if a.kind == b.kind {
      var n := if a.kind.IssueContext? then 6 else 8;
      assert x[n..] == a.id && y[n..] == b.id;
    }
  }

  function OtherKey(key: string): Entry -> bool {
    (e: Entry) => EntryKey(e) != key
  }

  function IsIn(active: set<string>): string -> bool {
    (k: string) => k in active
  }

  /** An object's entries, with its keys in insertion order. */
  datatype State = State(keys: seq<string>, byWorkspace: map<string, seq<Entry>>)

  function BucketOf(s: State, ws: string): seq<Entry> {
    if ws in s.byWorkspace then s.byWorkspace[ws] else []
  }

  function With(s: State, ws: string, bucket: seq<Entry>): State {
    State(if ws in s.byWorkspace then s.keys else s.keys + [ws], s.byWorkspace[ws := bucket])
  }

  function Omit(s: State, ws: string): State {
    State(Filter(NotId(ws), s.keys), s.byWorkspace - {ws})
  }

  /** When a workspace was last visited, as its first entry tells. */
  function LastVisit(s: State, ws: string): int {
    if BucketOf(s, ws) == [] then 0 else BucketOf(s, ws)[0].visitedAt
  }

  /** The first key with the least last visit. */
  function Oldest(s: State, keys: seq<string>): (ws: string)
    requires keys != []
    ensures ws in keys
    ensures forall k :: k in keys ==> LastVisit(s, ws) <= LastVisit(s, k)
  {
    var n := |keys| - 1;
    assert keys == keys[..n] + [keys[n]];
    if n == 0 then keys[0]
    else
      var best := Oldest(s, keys[..n]);
      if LastVisit(s, keys[n]) < LastVisit(s, best) then keys[n] else best
  }

  lemma OldestStep(s: State, keys: seq<string>, i: nat)
    requires 0 < i < |keys|
    ensures Oldest(s, keys[..i + 1]) ==
      if LastVisit(s, keys[i]) < LastVisit(s, Oldest(s, keys[..i])) then keys[i] else Oldest(s, keys[..i])
  {
    assert keys[..i + 1][..i] == keys[..i];
  }

  datatype Action =
    | RecordVisit(ws: string, entry: Entry)
    | ForgetContext(ws: string, key: string)
    | PruneWorkspaces(active: set<string>)

  function Visited(s: State, ws: string, e: Entry): State {
    With(s, ws, Take([e] + Filter(OtherKey(EntryKey(e)), BucketOf(s, ws)), MAX_RECENT_CONTEXTS))
  }

  function Step(s: State, a: Action): State {
    match a
    case RecordVisit(ws, e) =>
      var next := Visited(s, ws, e);
      if |next.keys| > MAX_WORKSPACES then Omit(next, Oldest(next, next.keys)) else next
    case ForgetContext(ws, key) =>
      var bucket := BucketOf(s, ws);
      var left := Filter(OtherKey(key), bucket);
      if ws !in s.byWorkspace || |left| == |bucket| then s
      else if left == [] then Omit(s, ws)
      else With(s, ws, left)
    case PruneWorkspaces(active) =>
      State(Filter(IsIn(active), s.keys), map k | k in s.byWorkspace && k in active :: s.byWorkspace[k])
  }

  class RecentContextStore {
    var keys: seq<string>
    var byWorkspace: map<string, seq<Entry>>

    function View(): State
      reads this
    {
      State(keys, byWorkspace)
    }

    ghost predicate Consistent()
      reads this
    {
      forall k :: k in keys <==> k in byWorkspace
    }

    constructor ()
      ensures View() == State([], map[]) && Consistent()
    {
      keys, byWorkspace := [], map[];
    }

    /** The reduction over the keys. */
    method OldestWorkspace() returns (oldest: string)
      requires keys != []
      ensures oldest == Oldest(View(), keys)
    {
      oldest := keys[0];
      for i := 1 to |keys|
        invariant oldest == Oldest(View(), keys[..i])
      {
        OldestStep(View(), keys, i);
        if LastVisit(View(), keys[i]) < LastVisit(View(), oldest) { oldest := keys[i]; }
      }
      assert keys[..|keys|] == keys;
    }

    method MoveToFront(ws: string, e: Entry)
      requires Consistent()
      modifies this
      ensures View() == Visited(old(View()), ws, e) && Consistent()
    {
      var bucket := if ws in byWorkspace then byWorkspace[ws] else [];
      var filtered := Filter(OtherKey(EntryKey(e)), bucket);
      if ws !in byWorkspace { keys := keys + [ws]; }
      byWorkspace := byWorkspace[ws := Take([e] + filtered, MAX_RECENT_CONTEXTS)];
    }

    method Evict(ws: string)
      requires Consistent()
      modifies this
      ensures View() == Omit(old(View()), ws) && Consistent()
    {
      keys, byWorkspace := Filter(NotId(ws), keys), byWorkspace - {ws};
    }

    method Record(ws: string, e: Entry)
      requires Consistent()
      modifies this
      ensures View() == Step(old(View()), RecordVisit(ws, e)) && Consistent()
    {
      MoveToFront(ws, e);
      if |keys| > MAX_WORKSPACES {
        var oldest := OldestWorkspace();
        Evict(oldest);
      }
    }

    method Forget(ws: string, key: string)
      requires Consistent()
      modifies this
      ensures View() == Step(old(View()), ForgetContext(ws, key)) && Consistent()
    {
      if ws !in byWorkspace { return; }
      var left := Filter(OtherKey(key), byWorkspace[ws]);
      if |left| == |byWorkspace[ws]| { return; }
      if left == [] {
        Evict(ws);
      } else {
        byWorkspace := byWorkspace[ws := left];
      }
    }

    method Prune(active: set<string>)
      requires Consistent()
      modifies this
      ensures View() == Step(old(View()), PruneWorkspaces(active)) && Consistent()
    {
      var kept: seq<string>, next: map<string, seq<Entry>> := [], map[];
      for i := 0 to |keys|
        invariant keys == old(keys) && byWorkspace == old(byWorkspace)
        invariant kept == Filter(IsIn(active), keys[..i])
        invariant next == Kept(byWorkspace, active, keys[..i])
      {
        FilterSnoc(IsIn(active), keys, i);
        KeptStep(byWorkspace, active, keys, i);
        if keys[i] in active {
          kept := kept + [keys[i]];
          next := next[keys[i] := byWorkspace[keys[i]]];
        }
      }
      assert keys[..|keys|] == keys;
      assert next == map k | k in byWorkspace && k in active :: byWorkspace[k];
      keys, byWorkspace := kept, next;
    }
  }

  function Kept(m: map<string, seq<Entry>>, active: set<string>, keys: seq<string>): map<string, seq<Entry>> {
    map k | k in m && k in active && k in keys :: m[k]
  }

  lemma KeptStep(m: map<string, seq<Entry>>, active: set<string>, keys: seq<string>, i: nat)
    requires i < |keys| && keys[i] in m
    ensures Kept(m, active, keys[..i + 1]) ==
      if keys[i] in active then Kept(m, active, keys[..i])[keys[i] := m[keys[i]]] else Kept(m, active, keys[..i])
  {
    assert keys[..i + 1] == keys[..i] + [keys[i]];
  }

  // ----- What every run keeps -----

  /** Newest first, one entry per context. */
  ghost predicate Ordered(b: seq<Entry>) {
    forall i, j :: 0 <= i < j < |b| ==> Precedes(b[i], b[j])
  }

  /** Ordered, not empty, not too long, nothing later than now. */
  ghost predicate BucketOk(b: seq<Entry>, now: int) {
    0 < |b| <= MAX_RECENT_CONTEXTS && Ordered(b) && b[0].visitedAt <= now
  }

  ghost predicate BucketsOk(m: map<string, seq<Entry>>, now: int) {
    forall k :: k in m ==> BucketOk(m[k], now)
  }

  ghost predicate KeysOk(s: State) {
    NoDup(s.keys) && forall k :: k in s.keys <==> k in s.byWorkspace
  }

  ghost predicate StateOk(s: State, now: int) {
    KeysOk(s) && |s.keys| <= MAX_WORKSPACES && BucketsOk(s.byWorkspace, now)
  }

  lemma {:induction false} FilterKeepsOrder(b: seq<Entry>, p: Entry -> bool)
    requires Ordered(b)
    ensures Ordered(Filter(p, b))
  {
    if b != [] {
      var first, rest := b[0], b[1..];
      assert b == [first] + rest;
      assert forall i :: 0 <= i < |rest| ==> rest[i] == b[i + 1];
      FilterKeepsOrder(rest, p);
      FilterCons(p, first, rest);
      assert forall x :: x in rest ==> Precedes(first, x);
      OrderedCons(first, Filter(p, rest));
    }
  }

  predicate Precedes(a: Entry, b: Entry) {
    a.visitedAt > b.visitedAt && EntryKey(a) != EntryKey(b)
  }

  lemma OrderedCons(first: Entry, rest: seq<Entry>)
    requires Ordered(rest) && forall x :: x in rest ==> Precedes(first, x)
    ensures Ordered([first] + rest)
  {
  }

  lemma NoneLater(b: seq<Entry>, now: int)
    requires BucketOk(b, now)
    ensures forall x :: x in b ==> x.visitedAt <= now
  {
    forall i | 0 < i < |b| ensures b[i].visitedAt <= now { assert Precedes(b[0], b[i]); }
  }

  lemma VisitedBucketOk(b: seq<Entry>, e: Entry, now: int)
    requires b != [] ==> BucketOk(b, now)
    requires e.visitedAt > now
    ensures BucketOk(Take([e] + Filter(OtherKey(EntryKey(e)), b), MAX_RECENT_CONTEXTS), e.visitedAt)
  {
    var left := Filter(OtherKey(EntryKey(e)), b);
    FilterKeepsOrder(b, OtherKey(EntryKey(e)));
    if b != [] { NoneLater(b, now); }
    assert forall x :: x in left ==> Precedes(e, x);
    OrderedCons(e, left);
  }

  lemma LeftBucketOk(b: seq<Entry>, key: string, now: int)
    requires BucketOk(b, now) && Filter(OtherKey(key), b) != []
    ensures BucketOk(Filter(OtherKey(key), b), now)
  {
    var left := Filter(OtherKey(key), b);
    FilterKeepsOrder(b, OtherKey(key));
    assert left[0] in left;
    var i :| 0 <= i < |b| && b[i] == left[0];
    if i > 0 { assert Precedes(b[0], b[i]); }
  }

  lemma VisitedOk(s: State, ws: string, e: Entry, now: int)
    requires StateOk(s, now) && e.visitedAt > now
    ensures var next := Visited(s, ws, e);
      && KeysOk(next) && |next.keys| <= MAX_WORKSPACES + 1 && BucketsOk(next.byWorkspace, e.visitedAt)
      && ws in next.byWorkspace && LastVisit(next, ws) == e.visitedAt
      && (forall k :: k in next.byWorkspace && k != ws ==> LastVisit(next, k) <= now)
  {
    VisitedBucketOk(BucketOf(s, ws), e, now);
    if ws !in s.byWorkspace { NoDupAppend(s.keys, [ws]); }
  }

  lemma OmitOk(s: State, gone: string, now: int)
    requires KeysOk(s) && |s.keys| <= MAX_WORKSPACES + 1 && BucketsOk(s.byWorkspace, now) && gone in s.keys
    ensures StateOk(Omit(s, gone), now)
  {
    FilterNoDup(NotId(gone), s.keys);
    OmittedKeys(s.keys, gone);
  }

  /** A visit puts the context in front, drops an older entry of the same context, and cuts the list to twenty; the
      workspace that a full store loses aside, all other lists stay as they are. */
  lemma VisitMovesToFront(s: State, ws: string, e: Entry, now: int, other: string)
    requires StateOk(s, now) && e.visitedAt > now
    ensures var after := Step(s, RecordVisit(ws, e));
      var moved := [e] + Filter((x: Entry) => x.kind != e.kind || x.id != e.id, BucketOf(s, ws));
      && BucketOf(after, ws) == (if |moved| <= 20 then moved else moved[..20])
      && (other != ws && other in after.byWorkspace ==> BucketOf(after, other) == BucketOf(s, other))
      && (ws in s.byWorkspace || |s.keys| < 50 ==> after.keys == if ws in s.byWorkspace then s.keys else s.keys + [ws])
      && (ws !in s.byWorkspace && |s.keys| == 50 ==> |after.keys| == 50 && ws in after.keys)
  {
    VisitEvictsTheOldest(s, ws, e, now);
    forall x: Entry { EntryKeyNamesContext(x, e); }
    FilterAgree(OtherKey(EntryKey(e)), (x: Entry) => x.kind != e.kind || x.id != e.id, BucketOf(s, ws));
    var next := Visited(s, ws, e);
    if |next.keys| > MAX_WORKSPACES {
      VisitedOk(s, ws, e, now);
      OmittedOne(next.keys, Oldest(next, next.keys));
    }
  }

  lemma {:induction false} OmittedOne(keys: seq<string>, gone: string)
    requires NoDup(keys) && gone in keys
    ensures |Filter(NotId(gone), keys)| == |keys| - 1
  {
    var first, rest := keys[0], keys[1..];
    assert keys == [first] + rest;
    assert forall k :: 0 <= k < |rest| ==> rest[k] == keys[k + 1];
    FilterCons(NotId(gone), first, rest);
    if first == gone {
      assert gone !in rest;
      FilterAll(NotId(gone), rest);
    } else {
      assert gone in rest;
      OmittedOne(rest, gone);
    }
  }

  /** Forgetting a context takes exactly its entry out of that workspace; an emptied workspace goes. */
  lemma ForgetTakesOutOne(s: State, ws: string, e: Entry, other: string, now: int)
    requires StateOk(s, now)
    ensures var after := Step(s, ForgetContext(ws, EntryKey(e)));
      && BucketOf(after, ws) == Filter((x: Entry) => x.kind != e.kind || x.id != e.id, BucketOf(s, ws))
      && (ws in after.byWorkspace <==> BucketOf(after, ws) != [])
      && (other != ws ==> BucketOf(after, other) == BucketOf(s, other) && (other in after.keys <==> other in s.keys))
  {
    forall x: Entry { EntryKeyNamesContext(x, e); }
    FilterAgree(OtherKey(EntryKey(e)), (x: Entry) => x.kind != e.kind || x.id != e.id, BucketOf(s, ws));
    FullFilter(BucketOf(s, ws), EntryKey(e));
  }

  lemma {:induction false} FullFilter(b: seq<Entry>, key: string)
    ensures |Filter(OtherKey(key), b)| == |b| ==> Filter(OtherKey(key), b) == b
  {
    if b != [] {
      assert b == [b[0]] + b[1..];
      FullFilter(b[1..], key);
    }
  }

  /** Pruning keeps the active workspaces, in order and with their lists, and no other. */
  lemma PruneKeepsActive(s: State, active: set<string>, ws: string)
    ensures var after := Step(s, PruneWorkspaces(active));
      && after.keys == Filter((k: string) => k in active, s.keys)
      && BucketOf(after, ws) == (if ws in active then BucketOf(s, ws) else [])
      && (ws in after.byWorkspace <==> ws in s.byWorkspace && ws in active)
  {
    FilterAgree(IsIn(active), (k: string) => k in active, s.keys);
  }

  /** Of several workspaces visited equally long ago, the first key goes. */
  lemma {:induction false} OldestIsFirst(s: State, keys: seq<string>)
    requires keys != []
    ensures exists k: nat :: OldestAt(s, keys, k)
  {
    var n := |keys| - 1;
    if n == 0 {
      assert OldestAt(s, keys, 0);
    } else {
      OldestIsFirst(s, keys[..n]);
      var k: nat :| OldestAt(s, keys[..n], k);
      OldestOfMore(s, keys, k);
    }
  }

  lemma OldestOfMore(s: State, keys: seq<string>, k: nat)
    requires |keys| > 1 && OldestAt(s, keys[..|keys| - 1], k)
    ensures OldestAt(s, keys, if LastVisit(s, keys[|keys| - 1]) < LastVisit(s, keys[k]) then |keys| - 1 else k)
  {
    var init := keys[..|keys| - 1];
    forall j | 0 <= j < |init| ensures LastVisit(s, keys[k]) <= LastVisit(s, keys[j]) {
      assert init[j] in init && init[j] == keys[j];
    }
  }

  predicate OldestAt(s: State, keys: seq<string>, k: nat) {
    && k < |keys| && Oldest(s, keys) == keys[k]
    && (forall j :: 0 <= j < k ==> LastVisit(s, keys[j]) > LastVisit(s, keys[k]))
  }

  /** A full store evicts the least recently visited workspace, which is never the one just visited. */
  lemma VisitEvictsTheOldest(s: State, ws: string, e: Entry, now: int)
    requires StateOk(s, now) && e.visitedAt > now
    ensures StateOk(Step(s, RecordVisit(ws, e)), e.visitedAt)
    ensures ws in Step(s, RecordVisit(ws, e)).byWorkspace
    ensures var next := Visited(s, ws, e);
      |next.keys| > MAX_WORKSPACES ==>
        var gone := Oldest(next, next.keys);
        && gone != ws && Step(s, RecordVisit(ws, e)) == Omit(next, gone)
        && forall k :: k in next.keys ==> LastVisit(next, gone) <= LastVisit(next, k)
  {
    var next := Visited(s, ws, e);
    VisitedOk(s, ws, e, now);
    if |next.keys| > MAX_WORKSPACES {
      var gone := Oldest(next, next.keys);
      OldestIsNot(next, ws, now);
      OmitOk(next, gone, e.visitedAt);
    }
  }

  lemma OldestIsNot(s: State, ws: string, now: int)
    requires KeysOk(s) && |s.keys| > 1 && LastVisit(s, ws) > now
    requires forall k :: k in s.byWorkspace && k != ws ==> LastVisit(s, k) <= now
    ensures Oldest(s, s.keys) != ws
  {
    var other := if s.keys[0] != ws then s.keys[0] else s.keys[1];
    assert other in s.keys && other != ws;
  }

  lemma {:induction false} OmittedKeys(keys: seq<string>, gone: string)
    requires gone in keys
    ensures |Filter(NotId(gone), keys)| <= |keys| - 1
  {
    var first, rest := keys[0], keys[1..];
    assert keys == [first] + rest;
    FilterCons(NotId(gone), first, rest);
    if first != gone { OmittedKeys(rest, gone); }
  }

  lemma ForgetKeeps(s: State, ws: string, key: string, now: int)
    requires StateOk(s, now)
    ensures StateOk(Step(s, ForgetContext(ws, key)), now)
  {
    FilterNoDup(NotId(ws), s.keys);
    if ws in s.byWorkspace && Filter(OtherKey(key), s.byWorkspace[ws]) != [] {
      LeftBucketOk(s.byWorkspace[ws], key, now);
    }
  }

  lemma PruneKeeps(s: State, active: set<string>, now: int)
    requires StateOk(s, now)
    ensures StateOk(Step(s, PruneWorkspaces(active)), now)
  {
    FilterNoDup(IsIn(active), s.keys);
  }

  function Run(s: State, actions: seq<Action>): State
    decreases |actions|
  {
    if actions == [] then s else Run(Step(s, actions[0]), actions[1..])
  }

  /** The clock moves strictly forward from visit to visit. */
  predicate ClockRuns(actions: seq<Action>, now: int)
    decreases |actions|
  {
    actions == [] ||
    if actions[0].RecordVisit?
    then actions[0].entry.visitedAt > now && ClockRuns(actions[1..], actions[0].entry.visitedAt)
    else ClockRuns(actions[1..], now)
  }

  function Clock(actions: seq<Action>, now: int): int
    decreases |actions|
  {
    if actions == [] then now
    else Clock(actions[1..], if actions[0].RecordVisit? then actions[0].entry.visitedAt else now)
  }

  lemma {:induction false} RunKeepsBounds(s: State, actions: seq<Action>, now: int)
    requires StateOk(s, now) && ClockRuns(actions, now)
    ensures StateOk(Run(s, actions), Clock(actions, now))
    decreases |actions|
  {
    if actions != [] {
      match actions[0] {
        case RecordVisit(ws, e) =>
          VisitEvictsTheOldest(s, ws, e, now);
          RunKeepsBounds(Step(s, actions[0]), actions[1..], e.visitedAt);
        case ForgetContext(ws, key) =>
          ForgetKeeps(s, ws, key, now);
          RunKeepsBounds(Step(s, actions[0]), actions[1..], now);
        case PruneWorkspaces(active) =>
          PruneKeeps(s, active, now);
          RunKeepsBounds(Step(s, actions[0]), actions[1..], now);
      }
    }
  }

  /** In every run from the empty store with a clock that runs forward, all buckets are in order and all bounds
      hold. */
  lemma EveryRunKeepsBounds(actions: seq<Action>, start: int)
    requires ClockRuns(actions, start)
    ensures StateOk(Run(State([], map[]), actions), Clock(actions, start))
    ensures var s := Run(State([], map[]), actions);
      |s.keys| <= 50 && forall ws :: |BucketOf(s, ws)| <= 20
  {
    RunKeepsBounds(State([], map[]), actions, start);
  }
}
