// Workspace identity, its microtasks, namespaced storage and the chat drafts
// that are rehydrated on a switch.

module Workspace {
  import opened Options
  import opened Seqs

  type Slug = Option<string>

  datatype Task = Notify | Rehydrate

  datatype Fn = ChatStore | OtherStore(id: int)

  /** What the running microtask still has to call. */
  datatype Phase =
    | Idle
    | Notifying(current: Slug, callees: seq<int>)
    | Rehydrating(fns: seq<Fn>)

  /** A stored string: a JSON object of drafts, or anything else. */
  datatype Blob = Json(drafts: map<string, string>) | Raw(s: string)

  type Storage = map<string, Blob>

  datatype Machine = Machine(
    slug: Slug, wsId: Option<string>,
    subscribers: seq<int>, rehydrateFns: seq<Fn>,
    pendingNotify: bool, pendingRehydrate: bool,
    queue: seq<Task>, phase: Phase,
    storage: Storage, drafts: map<string, string>, session: Option<string>,
    lastGiven: map<int, Slug>,   // the slug each subscriber was last called with
    due: set<int>)               // subscribers present ever since the last change of slug

  const SESSION_STORAGE_KEY := "multica:chat:activeSessionId"
  const DRAFTS_KEY := "multica:chat:drafts"

  // ----- Storage -----

  predicate Active(slug: Slug) {
    slug.Some? && slug.value != ""
  }

  function NamespacedKey(key: string, slug: string): string {
    key + ":" + slug
  }

  /** The chat store's key: un-namespaced while no workspace is active. */
  function WsKey(base: string, slug: Slug): string {
    if Active(slug) then NamespacedKey(base, slug.value) else base
  }

  /** The chat store's keys: the plain base while no workspace is active, else one that names the workspace at its
      end, so that different workspaces with valid slugs never share one. */
  lemma ChatKeysAre(base: string, a: Slug, b: Slug)
    ensures a.None? || a.value == "" ==> WsKey(base, a) == base
    ensures a.Some? && a.value != "" ==> WsKey(base, a) == base + ":" + a.value
    ensures a.Some? && b.Some? && ValidSlug(a.value) && ValidSlug(b.value) ==>
      (WsKey(base, a) == WsKey(base, b) <==> a == b)
    ensures WsKey(DRAFTS_KEY, None) == "multica:chat:drafts"
    ensures WsKey(SESSION_STORAGE_KEY, None) == "multica:chat:activeSessionId"
  {
    if a.Some? && b.Some? && ValidSlug(a.value) && ValidSlug(b.value) && WsKey(base, a) == WsKey(base, b) {
      ValidSlugsApart(base, a.value, base, b.value);
    }
  }

  function GetItem(storage: Storage, key: string): Option<Blob> {
    if key in storage then Some(storage[key]) else None
  }

  /** `createWorkspaceAwareStorage`: reads nothing and drops writes while no workspace is active. */
  function AwareGet(storage: Storage, slug: Slug, key: string): Option<Blob> {
    if Active(slug) then GetItem(storage, NamespacedKey(key, slug.value)) else None
  }

  function AwareSet(storage: Storage, slug: Slug, key: string, value: Blob): Storage {
    if Active(slug) then storage[NamespacedKey(key, slug.value) := value] else storage
  }

  function AwareRemove(storage: Storage, slug: Slug, key: string): Storage {
    if Active(slug) then storage - {NamespacedKey(key, slug.value)} else storage
  }

  function ReadDrafts(storage: Storage, key: string): map<string, string> {
    var raw := GetItem(storage, key);
    if raw.Some? && raw.value.Json? then raw.value.drafts else map[]
  }

  function NonEmpty(drafts: map<string, string>): map<string, string> {
    map k | k in drafts && drafts[k] != "" :: drafts[k]
  }

  function WriteDrafts(storage: Storage, key: string, drafts: map<string, string>): Storage {
    if NonEmpty(drafts) == map[] then storage - {key} else storage[key := Json(NonEmpty(drafts))]
  }

  /** What is written is what is read back, without the empty drafts. */
  lemma DraftsRoundTrip(storage: Storage, key: string, drafts: map<string, string>)
    ensures ReadDrafts(WriteDrafts(storage, key, drafts), key) == NonEmpty(drafts)
    ensures forall k :: k != key ==> GetItem(WriteDrafts(storage, key, drafts), k) == GetItem(storage, k)
  {
  }

  /** Draft by draft: exactly the non-empty ones are read back, and without any the key is gone. */
  lemma DraftsReadBack(storage: Storage, key: string, drafts: map<string, string>, k: string)
    ensures var back := ReadDrafts(WriteDrafts(storage, key, drafts), key);
      && (k in back <==> k in drafts && drafts[k] != "")
      && (k in back ==> back[k] == drafts[k])
    ensures key in WriteDrafts(storage, key, drafts) <==> exists x :: x in drafts && drafts[x] != ""
  {
    if x :| x in drafts && drafts[x] != "" { assert x in NonEmpty(drafts); }
  }

  /** Storage under a slug gives back what was written and nothing for what was removed; without an active
      workspace it takes and gives nothing. */
  lemma AwareReadsBack(storage: Storage, slug: Slug, key: string, value: Blob, other: string)
    ensures Active(slug) ==> AwareGet(AwareSet(storage, slug, key, value), slug, key) == Some(value)
    ensures AwareGet(AwareRemove(storage, slug, key), slug, key) == None
    ensures other != key ==>
      && AwareGet(AwareSet(storage, slug, key, value), slug, other) == AwareGet(storage, slug, other)
      && AwareGet(AwareRemove(storage, slug, key), slug, other) == AwareGet(storage, slug, other)
    ensures slug.None? || slug.value == "" ==>
      && AwareSet(storage, slug, key, value) == storage && AwareRemove(storage, slug, key) == storage
      && AwareGet(storage, slug, key) == None
  {
    if Active(slug) && other != key {
      SuffixCancels(other, key, ":" + slug.value);
      assert NamespacedKey(other, slug.value) == other + (":" + slug.value);
      assert NamespacedKey(key, slug.value) == key + (":" + slug.value);
    }
  }

  predicate EndsWith(s: string, t: string) {
    |t| <= |s| && s[|s| - |t|..] == t
  }

  /** One slug is the other with something and a colon in front. */
  predicate SlugsOverlap(a: string, b: string) {
    EndsWith(a, ":" + b) || EndsWith(b, ":" + a)
  }

  lemma LongerEndsWith(key: string, a: string, key': string, b: string)
    requires NamespacedKey(key, a) == NamespacedKey(key', b) && |a| > |b|
    ensures EndsWith(a, ":" + b)
  {
    var s, n := NamespacedKey(key, a), |b| + 1;
    assert s[|s| - n..] == a[|a| - n..];
    assert NamespacedKey(key', b)[|s| - n..] == ":" + b;
  }

  lemma SharedKey(a: string, b: string)
    requires EndsWith(a, ":" + b)
    ensures NamespacedKey("", a) == NamespacedKey(":" + a[..|a| - |b| - 1], b)
  {
    assert a == a[..|a| - |b| - 1] + (":" + b);
  }

  /** Some keys of two workspaces are the same storage key exactly when their slugs overlap. */
  lemma NamespacesMeetIff(a: string, b: string)
    requires a != b
    ensures (exists key, key' :: NamespacedKey(key, a) == NamespacedKey(key', b)) <==> SlugsOverlap(a, b)
  {
    if key, key' :| NamespacedKey(key, a) == NamespacedKey(key', b) {
      if |a| > |b| {
        LongerEndsWith(key, a, key', b);
      } else if |b| > |a| {
        LongerEndsWith(key', b, key, a);
      } else {
        assert |key| == |key'|;
        SameLengthParts(key + ":", a, key' + ":", b);
      }
    }
    if EndsWith(a, ":" + b) { SharedKey(a, b); }
    if EndsWith(b, ":" + a) { SharedKey(b, a); }
  }

  lemma SameLengthParts(a: string, b: string, c: string, d: string)
    requires a + b == c + d && |a| == |c|
    ensures a == c && b == d
  {
    assert (a + b)[..|a|] == a && (c + d)[..|a|] == c;
    assert (a + b)[|a|..] == b && (c + d)[|a|..] == d;
  }

  /** The slugs that a workspace may have: lower-case letters and digits, single hyphens between them. */
  predicate ValidSlug(s: string) {
    && s != [] && s[0] != '-' && s[|s| - 1] != '-'
    && (forall i :: 0 <= i < |s| ==> 'a' <= s[i] <= 'z' || '0' <= s[i] <= '9' || s[i] == '-')
    && !HasDoubleHyphen(s)
  }

  predicate HasDoubleHyphen(s: string) {
    exists i :: 0 < i < |s| && s[i - 1] == '-' && s[i] == '-'
  }

  lemma ColonFreeApart(a: string, b: string)
    requires ':' !in a && ':' !in b
    ensures !SlugsOverlap(a, b)
  {
    ColonInside(a, b);
    ColonInside(b, a);
  }

  lemma ColonInside(a: string, b: string)
    ensures EndsWith(a, ":" + b) ==> ':' in a
  {
    if EndsWith(a, ":" + b) {
      assert a[|a| - |b| - 1..][0] == ':';
    }
  }

  /** Workspaces with the slugs they may have never share a storage key. */
  lemma ValidSlugsApart(key: string, a: string, key': string, b: string)
    requires ValidSlug(a) && ValidSlug(b) && NamespacedKey(key, a) == NamespacedKey(key', b)
    ensures a == b && key == key'
  {
    ColonFreeApart(a, b);
    if a != b { NamespacesMeetIff(a, b); }
    SameLengthParts(key + ":", a, key' + ":", b);
    SameLengthParts(key, ":", key', ":");
  }

  /** A write in one workspace is invisible in every other one whose slug does not overlap. */
  lemma WritesStayInTheirWorkspace(storage: Storage, a: Slug, b: Slug, key: string, key': string, value: Blob)
    requires a != b && (Active(a) && Active(b) ==> !SlugsOverlap(a.value, b.value))
    ensures AwareGet(AwareSet(storage, a, key, value), b, key') == AwareGet(storage, b, key')
    ensures AwareGet(AwareRemove(storage, a, key), b, key') == AwareGet(storage, b, key')
  {
    if Active(a) && Active(b) {
      NamespacesMeetIff(a.value, b.value);
      assert NamespacedKey(key, a.value) != NamespacedKey(key', b.value);
    }
  }

  // ----- The machine's steps -----

  datatype Action =
    | SetCurrentWorkspace(slug: Slug, wsId: Option<string>)
    | Subscribe(f: int)
    | Unsubscribe(f: int)
    | Register(fn: Fn)
    | SetInputDraft(sessionId: string, draft: string)
    | ClearInputDraft(sessionId: string)
    | SetActiveSession(id: Option<string>)
    | Persist(base: string, value: Blob)
    | StartTask
    | CallNext
    | EndTask

  /** Callbacks act while a task runs; a task starts only when none runs. */
  predicate Enabled(m: Machine, a: Action) {
    match a
    case StartTask => m.phase.Idle? && m.queue != []
    case CallNext => (m.phase.Notifying? && m.phase.callees != []) || (m.phase.Rehydrating? && m.phase.fns != [])
    case EndTask => (m.phase.Notifying? && m.phase.callees == []) || (m.phase.Rehydrating? && m.phase.fns == [])
    case Persist(base, _) => base != DRAFTS_KEY
    case _ => true
  }

  function SetOf(s: seq<int>): set<int> {
    set f | f in s
  }

  function Minus(s: seq<int>, f: int): seq<int> {
    Filter((g: int) => g != f, s)
  }

  function Switched(m: Machine, slug: Slug, wsId: Option<string>): Machine {
    if m.slug == slug then m.(wsId := wsId)
    else m.(slug := slug, wsId := wsId, due := SetOf(m.subscribers),
            pendingNotify := true, pendingRehydrate := true,
            queue := m.queue + (if m.pendingNotify then [] else [Notify])
                             + (if m.pendingRehydrate then [] else [Rehydrate]))
  }

  function WithDrafts(m: Machine, drafts: map<string, string>): Machine {
    m.(storage := WriteDrafts(m.storage, WsKey(DRAFTS_KEY, m.slug), drafts), drafts := drafts)
  }

  /** The chat store's rehydration. */
  function Reloaded(m: Machine): Machine {
    var raw := GetItem(m.storage, WsKey(SESSION_STORAGE_KEY, m.slug));
    m.(drafts := ReadDrafts(m.storage, WsKey(DRAFTS_KEY, m.slug)),
       session := if raw.Some? && raw.value.Raw? then Some(raw.value.s) else None)
  }

  function Step(m: Machine, a: Action): Machine {
    match a
    case SetCurrentWorkspace(slug, wsId) => Switched(m, slug, wsId)
    case Subscribe(f) =>
      if f in m.subscribers then m
      else m.(subscribers := m.subscribers + [f],
              phase := if m.phase.Notifying? then m.phase.(callees := m.phase.callees + [f]) else m.phase)
    case Unsubscribe(f) =>
      m.(subscribers := Minus(m.subscribers, f), due := m.due - {f},
         phase := if m.phase.Notifying? then m.phase.(callees := Minus(m.phase.callees, f)) else m.phase)
    case Register(fn) =>
      m.(rehydrateFns := m.rehydrateFns + [fn],
         phase := if m.phase.Rehydrating? then m.phase.(fns := m.phase.fns + [fn]) else m.phase)
    case SetInputDraft(s, draft) => WithDrafts(m, m.drafts[s := draft])
    case ClearInputDraft(s) => if s in m.drafts then WithDrafts(m, m.drafts - {s}) else m
    case SetActiveSession(id) =>
      var key := WsKey(SESSION_STORAGE_KEY, m.slug);
      m.(session := id,
         storage := if id.Some? && id.value != "" then m.storage[key := Raw(id.value)] else m.storage - {key})
    case Persist(base, value) => m.(storage := AwareSet(m.storage, m.slug, base, value))
    case StartTask =>
      if m.queue == [] then m
      else if m.queue[0].Notify?
      then m.(queue := m.queue[1..], pendingNotify := false, phase := Notifying(m.slug, m.subscribers))
      else m.(queue := m.queue[1..], pendingRehydrate := false, phase := Rehydrating(m.rehydrateFns))
    case CallNext =>
      match m.phase {
        case Notifying(current, callees) =>
          if callees == [] then m
          else m.(phase := Notifying(current, callees[1..]), lastGiven := m.lastGiven[callees[0] := current])
        case Rehydrating(fns) =>
          if fns == [] then m
          else
            var called := if fns[0].ChatStore? then Reloaded(m) else m;
            called.(phase := Rehydrating(fns[1..]))
        case Idle => m
      }
    case EndTask => m.(phase := Idle)
  }

  /** The module variables at load time, with the chat store just created. */
  function Initial(storage: Storage): Machine {
    Reloaded(Machine(None, None, [], [ChatStore], false, false, [], Idle, storage, map[], None, map[], {}))
  }

  predicate RunOk(m: Machine, actions: seq<Action>)
    decreases |actions|
  {
    actions == [] || (Enabled(m, actions[0]) && RunOk(Step(m, actions[0]), actions[1..]))
  }

  function Run(m: Machine, actions: seq<Action>): Machine
    decreases |actions|
  {
    if actions == [] then m else Run(Step(m, actions[0]), actions[1..])
  }

  // ----- What every run keeps -----

  /** A flag is set exactly when one such task is queued, and never two. */
  ghost predicate FlagsMatchQueue(m: Machine) {
    && multiset(m.queue)[Notify] == (if m.pendingNotify then 1 else 0)
    && multiset(m.queue)[Rehydrate] == (if m.pendingRehydrate then 1 else 0)
  }

  /** Whoever is due has the current slug, or will get it from a running or queued notification. */
  ghost predicate NobodyForgotten(m: Machine) {
    && m.due <= SetOf(m.subscribers)
    && (m.phase.Notifying? && m.phase.current != m.slug ==> Notify in m.queue)
    && forall f :: f in m.due ==>
      || Notify in m.queue
      || (f in m.lastGiven && m.lastGiven[f] == m.slug)
      || (m.phase.Notifying? && m.phase.current == m.slug && f in m.phase.callees)
  }

  ghost predicate DraftsSynced(m: Machine) {
    NonEmpty(m.drafts) == NonEmpty(ReadDrafts(m.storage, WsKey(DRAFTS_KEY, m.slug)))
  }

  ghost predicate DraftsCurrent(m: Machine) {
    && ChatStore in m.rehydrateFns
    && (|| Rehydrate in m.queue
        || (m.phase.Rehydrating? && ChatStore in m.phase.fns)
        || DraftsSynced(m))
  }

  ghost predicate Invariant(m: Machine) {
    FlagsMatchQueue(m) && NobodyForgotten(m) && DraftsCurrent(m)
  }

  lemma InitialInvariant(storage: Storage)
    ensures Invariant(Initial(storage))
  {
  }

  lemma StartKeepsFlags(m: Machine)
    requires FlagsMatchQueue(m) && m.queue != []
    ensures FlagsMatchQueue(Step(m, StartTask))
  {
    TailCount(m.queue, Notify);
    TailCount(m.queue, Rehydrate);
  }

  lemma TailCount(queue: seq<Task>, t: Task)
    requires queue != []
    ensures multiset(queue)[t] == multiset(queue[1..])[t] + if queue[0] == t then 1 else 0
  {
    assert queue == [queue[0]] + queue[1..];
  }

  lemma SwitchKeepsFlags(m: Machine, slug: Slug, wsId: Option<string>)
    requires FlagsMatchQueue(m)
    ensures FlagsMatchQueue(Switched(m, slug, wsId))
  {
  }

  lemma FlagsStep(m: Machine, a: Action)
    requires FlagsMatchQueue(m) && Enabled(m, a)
    ensures FlagsMatchQueue(Step(m, a))
  {
    match a
    case SetCurrentWorkspace(slug, wsId) => SwitchKeepsFlags(m, slug, wsId);
    case StartTask => StartKeepsFlags(m);
    case _ => assert Step(m, a).queue == m.queue;
  }

  lemma ForgottenStep(m: Machine, a: Action)
    requires FlagsMatchQueue(m) && NobodyForgotten(m) && Enabled(m, a)
    ensures NobodyForgotten(Step(m, a))
  {
    match a
    case SetCurrentWorkspace(slug, wsId) => SwitchForgetsNobody(m, slug, wsId);
    case StartTask => StartForgetsNobody(m);
    case CallNext => CallForgetsNobody(m);
    case _ =>
  }

  lemma SwitchForgetsNobody(m: Machine, slug: Slug, wsId: Option<string>)
    requires FlagsMatchQueue(m) && NobodyForgotten(m)
    ensures NobodyForgotten(Switched(m, slug, wsId))
  {
    if slug != m.slug {
      assert m.pendingNotify ==> Notify in multiset(m.queue);
      assert Notify in Switched(m, slug, wsId).queue;
    }
  }

  lemma StartForgetsNobody(m: Machine)
    requires NobodyForgotten(m) && Enabled(m, StartTask)
    ensures NobodyForgotten(Step(m, StartTask))
  {
    assert m.queue == [m.queue[0]] + m.queue[1..];
  }

  lemma CallForgetsNobody(m: Machine)
    requires NobodyForgotten(m) && Enabled(m, CallNext)
    ensures NobodyForgotten(Step(m, CallNext))
  {
    if m.phase.Notifying? { assert m.phase.callees == [m.phase.callees[0]] + m.phase.callees[1..]; }
  }

  lemma BasesDiffer(slug: Slug)
    ensures WsKey(SESSION_STORAGE_KEY, slug) != WsKey(DRAFTS_KEY, slug)
  {
    assert SESSION_STORAGE_KEY[13] == 'a' && DRAFTS_KEY[13] == 'd';
    assert WsKey(SESSION_STORAGE_KEY, slug)[13] == 'a' && WsKey(DRAFTS_KEY, slug)[13] == 'd';
  }

  lemma PersistMissesDrafts(m: Machine, base: string, value: Blob)
    requires base != DRAFTS_KEY
    ensures ReadDrafts(AwareSet(m.storage, m.slug, base, value), WsKey(DRAFTS_KEY, m.slug))
      == ReadDrafts(m.storage, WsKey(DRAFTS_KEY, m.slug))
  {
    if Active(m.slug) {
      var suffix := ":" + m.slug.value;
      assert NamespacedKey(base, m.slug.value) == base + suffix;
      assert NamespacedKey(DRAFTS_KEY, m.slug.value) == DRAFTS_KEY + suffix;
      SuffixCancels(base, DRAFTS_KEY, suffix);
    }
  }

  lemma SuffixCancels(a: string, b: string, suffix: string)
    ensures a + suffix == b + suffix ==> a == b
  {
    assert (a + suffix)[..|a|] == a && (b + suffix)[..|b|] == b;
  }

  lemma DraftsStep(m: Machine, a: Action)
    requires FlagsMatchQueue(m) && DraftsCurrent(m) && Enabled(m, a)
    ensures DraftsCurrent(Step(m, a))
  {
    match a
    case SetCurrentWorkspace(slug, wsId) => SwitchKeepsDraftsCurrent(m, slug, wsId);
    case SetInputDraft(s, draft) => WrittenDraftsSynced(m, m.drafts[s := draft]);
    case ClearInputDraft(s) => if s in m.drafts { WrittenDraftsSynced(m, m.drafts - {s}); }
    case SetActiveSession(id) => BasesDiffer(m.slug);
    case Persist(base, value) => PersistMissesDrafts(m, base, value);
    case StartTask => assert m.queue == [m.queue[0]] + m.queue[1..];
    case CallNext => CallKeepsDraftsCurrent(m);
    case _ =>
  }

  lemma SwitchKeepsDraftsCurrent(m: Machine, slug: Slug, wsId: Option<string>)
    requires FlagsMatchQueue(m) && DraftsCurrent(m)
    ensures DraftsCurrent(Switched(m, slug, wsId))
  {
    if slug != m.slug {
      assert m.pendingRehydrate ==> Rehydrate in multiset(m.queue);
      assert Rehydrate in Switched(m, slug, wsId).queue;
    }
  }

  lemma CallKeepsDraftsCurrent(m: Machine)
    requires DraftsCurrent(m) && Enabled(m, CallNext)
    ensures DraftsCurrent(Step(m, CallNext))
  {
    if m.phase.Rehydrating? {
      assert m.phase.fns == [m.phase.fns[0]] + m.phase.fns[1..];
      assert m.phase.fns[0].ChatStore? ==> DraftsSynced(Reloaded(m));
    }
  }

  lemma WrittenDraftsSynced(m: Machine, drafts: map<string, string>)
    ensures DraftsSynced(WithDrafts(m, drafts))
  {
    DraftsRoundTrip(m.storage, WsKey(DRAFTS_KEY, m.slug), drafts);
  }

  lemma StepKeepsInvariant(m: Machine, a: Action)
    requires Invariant(m) && Enabled(m, a)
    ensures Invariant(Step(m, a))
  {
    FlagsStep(m, a);
    ForgottenStep(m, a);
    DraftsStep(m, a);
  }

  lemma {:induction false} RunKeepsInvariant(m: Machine, actions: seq<Action>)
    requires Invariant(m) && RunOk(m, actions)
    ensures Invariant(Run(m, actions))
    decreases |actions|
  {
    if actions != [] {
      StepKeepsInvariant(m, actions[0]);
      RunKeepsInvariant(Step(m, actions[0]), actions[1..]);
    }
  }

  predicate Drained(m: Machine) {
    m.queue == [] && m.phase.Idle?
  }

  /** After every run, re-entrant switches included: each flag says whether its one task is queued, and once
      all microtasks are done every subscriber still there since the last switch knows the current slug and
      the drafts in memory are those stored for the current workspace. */
  lemma DrainedIsSettled(storage: Storage, actions: seq<Action>)
    requires RunOk(Initial(storage), actions)
    ensures var m := Run(Initial(storage), actions);
      && FlagsMatchQueue(m)
      && (Drained(m) ==>
            && !m.pendingNotify && !m.pendingRehydrate && DraftsSynced(m)
            && forall f :: f in m.due ==> f in m.lastGiven && m.lastGiven[f] == m.slug)
  {
    InitialInvariant(storage);
    RunKeepsInvariant(Initial(storage), actions);
  }

  // ----- Draft writes between a switch and its rehydration -----

  /** The non-empty drafts stored for the current workspace. */
  function StoredDrafts(m: Machine): map<string, string> {
    NonEmpty(ReadDrafts(m.storage, WsKey(DRAFTS_KEY, m.slug)))
  }

  predicate AgreeOutside(a: map<string, string>, b: map<string, string>, s: string) {
    a - {s} == b - {s}
  }

  /** The chat store has not been rehydrated since the last switch. */
  predicate AwaitsRehydration(m: Machine) {
    Rehydrate in m.queue || (m.phase.Rehydrating? && ChatStore in m.phase.fns)
  }

  /** Writing one session's draft leaves the stored drafts of all others alone exactly when memory and
      storage agree on those. */
  lemma DraftWriteIsLocalIff(m: Machine, s: string, draft: string)
    ensures AgreeOutside(StoredDrafts(Step(m, SetInputDraft(s, draft))), StoredDrafts(m), s)
      <==> AgreeOutside(NonEmpty(m.drafts), StoredDrafts(m), s)
  {
    var next := m.drafts[s := draft];
    DraftsRoundTrip(m.storage, WsKey(DRAFTS_KEY, m.slug), next);
    assert NonEmpty(NonEmpty(next)) == NonEmpty(next);
    assert NonEmpty(next) - {s} == NonEmpty(m.drafts) - {s};
  }

  /** In every reachable state that awaits no rehydration a draft write is local. */
  lemma SettledDraftWriteIsLocal(storage: Storage, actions: seq<Action>, s: string, draft: string)
    requires RunOk(Initial(storage), actions) && !AwaitsRehydration(Run(Initial(storage), actions))
    ensures var m := Run(Initial(storage), actions);
      AgreeOutside(StoredDrafts(Step(m, SetInputDraft(s, draft))), StoredDrafts(m), s)
  {
    InitialInvariant(storage);
    RunKeepsInvariant(Initial(storage), actions);
    DraftWriteIsLocalIff(Run(Initial(storage), actions), s, draft);
  }

  /** Nothing but the drafts, in memory and under the key of the current workspace, is different. */
  predicate OnlyDraftsDiffer(m: Machine, n: Machine) {
    && n.(drafts := m.drafts, storage := m.storage) == m
    && n.storage - {WsKey(DRAFTS_KEY, m.slug)} == m.storage - {WsKey(DRAFTS_KEY, m.slug)}
  }

  /** A written draft is in memory and, unless empty, in storage; memory keeps all other drafts. */
  lemma SetDraftSetsOne(m: Machine, s: string, draft: string)
    ensures var n := Step(m, SetInputDraft(s, draft));
      && s in n.drafts && n.drafts[s] == draft && n.drafts - {s} == m.drafts - {s}
      && (if draft == "" then s !in StoredDrafts(n) else s in StoredDrafts(n) && StoredDrafts(n)[s] == draft)
      && OnlyDraftsDiffer(m, n)
  {
    DraftsRoundTrip(m.storage, WsKey(DRAFTS_KEY, m.slug), m.drafts[s := draft]);
  }

  /** A cleared draft is in neither memory nor storage, and memory keeps all other drafts; clearing a session
      without a draft changes nothing. */
  lemma ClearDraftClearsOne(m: Machine, s: string)
    ensures var n := Step(m, ClearInputDraft(s));
      && s !in n.drafts && n.drafts - {s} == m.drafts - {s}
      && (if s in m.drafts then s !in StoredDrafts(n) else n == m)
      && OnlyDraftsDiffer(m, n)
  {
    DraftsRoundTrip(m.storage, WsKey(DRAFTS_KEY, m.slug), m.drafts - {s});
  }

  /** Clearing the draft of a session that has one leaves the stored drafts of all others alone exactly when
      memory and storage agree on those. */
  lemma DraftClearIsLocalIff(m: Machine, s: string)
    requires s in m.drafts
    ensures AgreeOutside(StoredDrafts(Step(m, ClearInputDraft(s))), StoredDrafts(m), s)
      <==> AgreeOutside(NonEmpty(m.drafts), StoredDrafts(m), s)
  {
    var next := m.drafts - {s};
    DraftsRoundTrip(m.storage, WsKey(DRAFTS_KEY, m.slug), next);
    assert NonEmpty(NonEmpty(next)) == NonEmpty(next);
    assert NonEmpty(next) - {s} == NonEmpty(m.drafts) - {s};
  }

  /** In every reachable state that awaits no rehydration, clearing takes exactly that draft out of the storage. */
  lemma SettledDraftClearIsLocal(storage: Storage, actions: seq<Action>, s: string)
    requires RunOk(Initial(storage), actions) && !AwaitsRehydration(Run(Initial(storage), actions))
    ensures var m := Run(Initial(storage), actions);
      StoredDrafts(Step(m, ClearInputDraft(s))) == StoredDrafts(m) - {s}
  {
    var m := Run(Initial(storage), actions);
    InitialInvariant(storage);
    RunKeepsInvariant(Initial(storage), actions);
    ClearDraftClearsOne(m, s);
    if s in m.drafts {
      DraftClearIsLocalIff(m, s);
      var n := StoredDrafts(Step(m, ClearInputDraft(s)));
      assert n == n - {s};
    } else {
      assert s !in NonEmpty(m.drafts) && NonEmpty(m.drafts) == StoredDrafts(m);
    }
  }

  /** The active session is held in memory as given and, unless none or empty, is what a rehydration finds; drafts
      and other keys are left alone. */
  lemma SessionIsKept(m: Machine, id: Option<string>)
    ensures var n := Step(m, SetActiveSession(id));
      && n.session == id && n.(session := m.session, storage := m.storage) == m
      && n.storage - {WsKey(SESSION_STORAGE_KEY, m.slug)} == m.storage - {WsKey(SESSION_STORAGE_KEY, m.slug)}
      && Reloaded(n).session == (if id == Some("") then None else id)
      && StoredDrafts(n) == StoredDrafts(m)
  {
    BasesDiffer(m.slug);
  }

  /** What another store persists is read back under the current slug, and the chat store's drafts stay. */
  lemma PersistedIsRead(m: Machine, base: string, value: Blob)
    requires base != DRAFTS_KEY
    ensures var n := Step(m, Persist(base, value));
      && AwareGet(n.storage, m.slug, base) == (if Active(m.slug) then Some(value) else None)
      && n.(storage := m.storage) == m && StoredDrafts(n) == StoredDrafts(m)
  {
    PersistMissesDrafts(m, base, value);
  }

  /** A rehydration takes drafts and session from the keys of the current workspace, and changes nothing else. */
  lemma ReloadReadsStorage(m: Machine, drafts: map<string, string>, id: string)
    ensures var n := Reloaded(m);
      && n.(drafts := m.drafts, session := m.session) == m
      && NonEmpty(n.drafts) == StoredDrafts(m)
      && (GetItem(m.storage, WsKey(DRAFTS_KEY, m.slug)) == Some(Json(drafts)) ==> n.drafts == drafts)
      && (WsKey(DRAFTS_KEY, m.slug) !in m.storage ==> n.drafts == map[])
      && (GetItem(m.storage, WsKey(SESSION_STORAGE_KEY, m.slug)) == Some(Raw(id)) ==> n.session == Some(id))
      && (WsKey(SESSION_STORAGE_KEY, m.slug) !in m.storage ==> n.session == None)
  {
  }

  /** A switch, and a subscriber that writes a draft when it is notified, before the rehydration. */
  function EarlyWrite(slug: string, s: string, draft: string): seq<Action> {
    [SetCurrentWorkspace(Some(slug), None), StartTask, CallNext, SetInputDraft(s, draft)]
  }

  /** A subscriber that writes a draft while it is told of the new workspace puts all drafts of the old one
      there, in place of whatever was stored. */
  lemma EarlyWriteReplacesDrafts(m: Machine, slug: string, s: string, draft: string)
    requires FlagsMatchQueue(m) && Drained(m) && m.slug != Some(slug) && m.subscribers != []
    ensures RunOk(m, EarlyWrite(slug, s, draft))
    ensures var after := Run(m, EarlyWrite(slug, s, draft));
      && after.slug == Some(slug) && StoredDrafts(after) == NonEmpty(m.drafts[s := draft])
      && AwaitsRehydration(after)
  {
    var told := Step(Step(Step(m, SetCurrentWorkspace(Some(slug), None)), StartTask), CallNext);
    ToldOfSwitch(m, slug);
    DraftsRoundTrip(told.storage, WsKey(DRAFTS_KEY, told.slug), m.drafts[s := draft]);
    RunOfFour(m, SetCurrentWorkspace(Some(slug), None), StartTask, CallNext, SetInputDraft(s, draft));
  }

  lemma ToldOfSwitch(m: Machine, slug: string)
    requires FlagsMatchQueue(m) && Drained(m) && m.slug != Some(slug) && m.subscribers != []
    ensures var switched := Step(m, SetCurrentWorkspace(Some(slug), None));
      var notifying := Step(switched, StartTask);
      var told := Step(notifying, CallNext);
      && Enabled(switched, StartTask) && Enabled(notifying, CallNext)
      && told.queue == [Rehydrate] && told.drafts == m.drafts && told.slug == Some(slug)
  {
    var switched := Step(m, SetCurrentWorkspace(Some(slug), None));
    assert !m.pendingNotify && !m.pendingRehydrate;
    assert switched.queue == [Notify, Rehydrate];
    assert Step(switched, StartTask).queue == [Rehydrate];
  }

  lemma RunOfFour(m: Machine, a: Action, b: Action, c: Action, d: Action)
    ensures Run(m, [a, b, c, d]) == Step(Step(Step(Step(m, a), b), c), d)
    ensures RunOk(m, [a, b, c, d]) <==>
      Enabled(m, a) && Enabled(Step(m, a), b) && Enabled(Step(Step(m, a), b), c)
      && Enabled(Step(Step(Step(m, a), b), c), d)
  {
    RunOne(m, a, [b, c, d]);
    RunOne(Step(m, a), b, [c, d]);
    RunOne(Step(Step(m, a), b), c, [d]);
    RunOne(Step(Step(Step(m, a), b), c), d, []);
    assert [d] + [] == [d] && [c] + [d] == [c, d] && [b] + [c, d] == [b, c, d] && [a] + [b, c, d] == [a, b, c, d];
  }

  lemma RunOne(m: Machine, a: Action, rest: seq<Action>)
    ensures Run(m, [a] + rest) == Run(Step(m, a), rest)
    ensures RunOk(m, [a] + rest) <==> Enabled(m, a) && RunOk(Step(m, a), rest)
  {
    assert ([a] + rest)[0] == a && ([a] + rest)[1..] == rest;
  }

  lemma {:induction false} RunConcat(m: Machine, a: seq<Action>, b: seq<Action>)
    ensures Run(m, a + b) == Run(Run(m, a), b)
    ensures RunOk(m, a + b) <==> RunOk(m, a) && RunOk(Run(m, a), b)
    decreases |a|
  {
    if a == [] {
      assert a + b == b;
    } else {
      RunConcat(Step(m, a[0]), a[1..], b);
      RunOne(m, a[0], a[1..] + b);
      assert a + b == [a[0]] + (a[1..] + b);
    }
  }

  /** A subscriber joins and a workspace is opened; both microtasks run to their end. */
  function OpenWorkspace(slug: string): seq<Action> {
    [Subscribe(0), SetCurrentWorkspace(Some(slug), None), StartTask, CallNext]
    + [EndTask, StartTask, CallNext, EndTask]
  }

  lemma WorkspaceOpens(storage: Storage, slug: string)
    ensures RunOk(Initial(storage), OpenWorkspace(slug))
    ensures var m := Run(Initial(storage), OpenWorkspace(slug));
      && Drained(m) && FlagsMatchQueue(m) && m.slug == Some(slug) && m.subscribers == [0] && m.storage == storage
      && m.drafts == ReadDrafts(storage, WsKey(DRAFTS_KEY, Some(slug)))
  {
    var m0 := Initial(storage);
    NotifiedOfOpening(storage, slug);
    var m4 := Run(m0, [Subscribe(0), SetCurrentWorkspace(Some(slug), None), StartTask, CallNext]);
    RehydratedAfterOpening(m4);
    RunConcat(m0, [Subscribe(0), SetCurrentWorkspace(Some(slug), None), StartTask, CallNext],
      [EndTask, StartTask, CallNext, EndTask]);
  }

  lemma NotifiedOfOpening(storage: Storage, slug: string)
    ensures var actions := [Subscribe(0), SetCurrentWorkspace(Some(slug), None), StartTask, CallNext];
      var m := Run(Initial(storage), actions);
      && RunOk(Initial(storage), actions)
      && m.queue == [Rehydrate] && m.phase == Notifying(Some(slug), []) && m.slug == Some(slug)
      && !m.pendingNotify && m.pendingRehydrate
      && m.subscribers == [0] && m.rehydrateFns == [ChatStore] && m.storage == storage
  {
    var m0 := Initial(storage);
    var m2 := Step(Step(m0, Subscribe(0)), SetCurrentWorkspace(Some(slug), None));
    assert m2.queue == [Notify, Rehydrate] && m2.subscribers == [0];
    var m3 := Step(m2, StartTask);
    assert m3.queue == [Rehydrate] && m3.phase == Notifying(Some(slug), [0]);
    RunOfFour(m0, Subscribe(0), SetCurrentWorkspace(Some(slug), None), StartTask, CallNext);
  }

  lemma RehydratedAfterOpening(m: Machine)
    requires m.queue == [Rehydrate] && m.phase.Notifying? && m.phase.callees == [] && m.rehydrateFns == [ChatStore]
    requires !m.pendingNotify
    ensures var actions := [EndTask, StartTask, CallNext, EndTask];
      var after := Run(m, actions);
      && RunOk(m, actions)
      && Drained(after) && FlagsMatchQueue(after) && after.slug == m.slug && after.subscribers == m.subscribers
      && after.storage == m.storage && after.drafts == ReadDrafts(m.storage, WsKey(DRAFTS_KEY, m.slug))
  {
    var m2 := Step(Step(m, EndTask), StartTask);
    assert m2.queue == [] && m2.phase == Rehydrating([ChatStore]);
    RunOfFour(m, EndTask, StartTask, CallNext, EndTask);
  }

  /** A run from the start in which the drafts of workspace a replace those of workspace b, whatever either held. */
  lemma DraftsCarriedOver(storage: Storage, a: string, b: string, s: string, draft: string)
    requires a != b
    ensures var actions := OpenWorkspace(a) + EarlyWrite(b, s, draft);
      && RunOk(Initial(storage), actions)
      && Run(Initial(storage), actions).slug == Some(b)
      && StoredDrafts(Run(Initial(storage), actions))
         == NonEmpty(ReadDrafts(storage, WsKey(DRAFTS_KEY, Some(a)))[s := draft])
  {
    WorkspaceOpens(storage, a);
    var m := Run(Initial(storage), OpenWorkspace(a));
    EarlyWriteReplacesDrafts(m, b, s, draft);
    RunConcat(Initial(storage), OpenWorkspace(a), EarlyWrite(b, s, draft));
  }

  // ----- The module and the store as they are written -----

  class Platform {
    var currentSlug: Slug
    var currentWsId: Option<string>
    var slugSubscribers: seq<int>
    var rehydrateFns: seq<Fn>
    var pendingNotify: bool
    var pendingRehydrate: bool
    var queue: seq<Task>
    var phase: Phase
    var storage: Storage
    var inputDrafts: map<string, string>
    var activeSessionId: Option<string>
    ghost var lastGiven: map<int, Slug>
    ghost var due: set<int>

    ghost function View(): Machine
      reads this
    {
      Machine(currentSlug, currentWsId, slugSubscribers, rehydrateFns, pendingNotify, pendingRehydrate,
              queue, phase, storage, inputDrafts, activeSessionId, lastGiven, due)
    }

    constructor (storage: Storage)
      ensures View() == Initial(storage)
    {
      currentSlug, currentWsId := None, None;
      slugSubscribers, rehydrateFns := [], [ChatStore];
      pendingNotify, pendingRehydrate, queue, phase := false, false, [], Idle;
      lastGiven, due := map[], {};
      this.storage := storage;
      inputDrafts := ReadDrafts(storage, WsKey(DRAFTS_KEY, None));
      var raw := GetItem(storage, WsKey(SESSION_STORAGE_KEY, None));
      activeSessionId := if raw.Some? && raw.value.Raw? then Some(raw.value.s) else None;
    }

    method SetWorkspace(slug: Slug, wsId: Option<string>)
      modifies this
      ensures View() == Step(old(View()), SetCurrentWorkspace(slug, wsId))
      ensures currentSlug == slug && currentWsId == wsId
      ensures slug == old(currentSlug) ==> queue == old(queue) && due == old(due)
      ensures slug != old(currentSlug) ==>
        && pendingNotify && pendingRehydrate && due == set f | f in old(slugSubscribers)
        && queue == old(queue) + (if old(pendingNotify) then [] else [Notify])
                               + (if old(pendingRehydrate) then [] else [Rehydrate])
      ensures slugSubscribers == old(slugSubscribers) && rehydrateFns == old(rehydrateFns) && phase == old(phase)
      ensures storage == old(storage) && inputDrafts == old(inputDrafts) && activeSessionId == old(activeSessionId)
    {
      if currentSlug == slug {
        currentWsId := wsId;
        return;
      }
      currentSlug, currentWsId := slug, wsId;
      due := SetOf(slugSubscribers);
      ScheduleTasks();
    }

    /** Each kind of task is queued at most once. */
    method ScheduleTasks()
      modifies this`pendingNotify, this`pendingRehydrate, this`queue
      ensures pendingNotify && pendingRehydrate
      ensures queue == old(queue) + (if old(pendingNotify) then [] else [Notify])
                                  + (if old(pendingRehydrate) then [] else [Rehydrate])
    {
      if !pendingNotify {
        pendingNotify := true;
        queue := queue + [Notify];
      }
      if !pendingRehydrate {
        pendingRehydrate := true;
        queue := queue + [Rehydrate];
      }
    }

    method SubscribeToCurrentSlug(f: int)
      modifies this
      ensures View() == Step(old(View()), Subscribe(f))
      ensures slugSubscribers == if f in old(slugSubscribers) then old(slugSubscribers) else old(slugSubscribers) + [f]
      ensures phase.Notifying? && f !in old(slugSubscribers) ==> f in phase.callees
      ensures f in old(slugSubscribers) ==> View() == old(View())
    {
      if f !in slugSubscribers {
        slugSubscribers := slugSubscribers + [f];
        if phase.Notifying? { phase := phase.(callees := phase.callees + [f]); }
      }
    }

    method UnsubscribeFromCurrentSlug(f: int)
      modifies this
      ensures View() == Step(old(View()), Unsubscribe(f))
      ensures f !in slugSubscribers && (phase.Notifying? ==> f !in phase.callees)
      ensures f !in old(slugSubscribers) ==> slugSubscribers == old(slugSubscribers)
      ensures forall g :: g != f ==> (g in slugSubscribers <==> g in old(slugSubscribers))
    {
      if f !in slugSubscribers { FilterAll((g: int) => g != f, slugSubscribers); }
      slugSubscribers := Minus(slugSubscribers, f);
      if phase.Notifying? { phase := phase.(callees := Minus(phase.callees, f)); }
      due := due - {f};
    }

    method RegisterForWorkspaceRehydration(fn: Fn)
      modifies this
      ensures View() == Step(old(View()), Register(fn))
      ensures rehydrateFns == old(rehydrateFns) + [fn]
      ensures old(phase).Rehydrating? ==> phase == Rehydrating(old(phase).fns + [fn])
    {
      rehydrateFns := rehydrateFns + [fn];
      if phase.Rehydrating? { phase := phase.(fns := phase.fns + [fn]); }
    }

    /** The loop prunes empty drafts; an empty blob is removed. */
    method WriteDraftBlob(key: string, drafts: map<string, string>)
      modifies this`storage
      ensures storage == WriteDrafts(old(storage), key, drafts)
    {
      var pruned: map<string, string> := map[];
      var rest := drafts.Keys;
      while rest != {}
        invariant rest <= drafts.Keys
        invariant pruned == map k | k in drafts && k !in rest && drafts[k] != "" :: drafts[k]
        decreases rest
      {
        var k :| k in rest;
        if drafts[k] != "" { pruned := pruned[k := drafts[k]]; }
        rest := rest - {k};
      }
      assert pruned == NonEmpty(drafts);
      if |pruned| == 0 {
        storage := storage - {key};
      } else {
        storage := storage[key := Json(pruned)];
      }
    }

    method SetDraft(sessionId: string, draft: string)
      modifies this
      ensures View() == Step(old(View()), SetInputDraft(sessionId, draft))
      ensures inputDrafts == old(inputDrafts)[sessionId := draft] && OnlyDraftsDiffer(old(View()), View())
    {
      SetDraftSetsOne(View(), sessionId, draft);
      var next := inputDrafts[sessionId := draft];
      WriteDraftBlob(WsKey(DRAFTS_KEY, currentSlug), next);
      inputDrafts := next;
    }

    method ClearDraft(sessionId: string)
      modifies this
      ensures View() == Step(old(View()), ClearInputDraft(sessionId))
      ensures inputDrafts == old(inputDrafts) - {sessionId} && OnlyDraftsDiffer(old(View()), View())
      ensures sessionId in old(inputDrafts) ==> sessionId !in StoredDrafts(View())
    {
      ClearDraftClearsOne(View(), sessionId);
      if sessionId !in inputDrafts { return; }
      var next := inputDrafts - {sessionId};
      WriteDraftBlob(WsKey(DRAFTS_KEY, currentSlug), next);
      inputDrafts := next;
    }

    method SetActive(id: Option<string>)
      modifies this
      ensures View() == Step(old(View()), SetActiveSession(id))
      ensures activeSessionId == id && inputDrafts == old(inputDrafts)
      ensures Reloaded(View()).session == (if id == Some("") then None else id)
    {
      SessionIsKept(View(), id);
      var key := WsKey(SESSION_STORAGE_KEY, currentSlug);
      if id.Some? && id.value != "" {
        storage := storage[key := Raw(id.value)];
      } else {
        storage := storage - {key};
      }
      activeSessionId := id;
    }

    /** The host takes the oldest microtask. */
    method StartMicrotask()
      requires Enabled(View(), StartTask)
      modifies this
      ensures View() == Step(old(View()), StartTask)
      ensures queue == old(queue)[1..]
      ensures phase ==
        if old(queue)[0].Notify? then Notifying(currentSlug, slugSubscribers) else Rehydrating(rehydrateFns)
      ensures pendingNotify == (old(pendingNotify) && !old(queue)[0].Notify?)
      ensures pendingRehydrate == (old(pendingRehydrate) && !old(queue)[0].Rehydrate?)
    {
      var task := queue[0];
      queue := queue[1..];
      match task
      case Notify =>
        pendingNotify := false;
        phase := Notifying(currentSlug, slugSubscribers);
      case Rehydrate =>
        pendingRehydrate := false;
        phase := Rehydrating(rehydrateFns);
    }

    /** One turn of the running microtask's loop. */
    method CallNextCallback()
      requires Enabled(View(), CallNext)
      modifies this
      ensures View() == Step(old(View()), CallNext)
      ensures old(phase).Notifying? ==>
        && phase == Notifying(old(phase).current, old(phase).callees[1..])
        && lastGiven == old(lastGiven)[old(phase).callees[0] := old(phase).current]
        && inputDrafts == old(inputDrafts) && activeSessionId == old(activeSessionId)
      ensures old(phase).Rehydrating? ==>
        && phase == Rehydrating(old(phase).fns[1..]) && lastGiven == old(lastGiven)
        && (old(phase).fns[0].ChatStore? ==> NonEmpty(inputDrafts) == old(StoredDrafts(View())))
        && (!old(phase).fns[0].ChatStore? ==>
              inputDrafts == old(inputDrafts) && activeSessionId == old(activeSessionId))
      ensures storage == old(storage) && queue == old(queue)
    {
      match phase
      case Notifying(current, callees) =>
        lastGiven := lastGiven[callees[0] := current];
        phase := Notifying(current, callees[1..]);
      case Rehydrating(fns) =>
        if fns[0].ChatStore? {
          var raw := GetItem(storage, WsKey(SESSION_STORAGE_KEY, currentSlug));
          activeSessionId := if raw.Some? && raw.value.Raw? then Some(raw.value.s) else None;
          inputDrafts := ReadDrafts(storage, WsKey(DRAFTS_KEY, currentSlug));
        }
        phase := Rehydrating(fns[1..]);
    }

    method EndMicrotask()
      requires Enabled(View(), EndTask)
      modifies this
      ensures View() == Step(old(View()), EndTask)
      ensures phase == Idle && queue == old(queue) && lastGiven == old(lastGiven) && storage == old(storage)
    {
      phase := Idle;
    }
  }
}
