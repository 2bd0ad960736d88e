// The client-side query cache: data under key sequences, addressed by prefix.

module QueryCache {
  import opened Options
  import opened Seqs
  import opened Issues

  /** One component of a query key: a string, or a filter object. */
  datatype Part = Str(s: string) | Obj(fields: map<string, string>)

  type Key = seq<Part>

  datatype Data =
    | Lists(buckets: Buckets)
    | Detail(issue: Issue)
    | Rows(issues: seq<Issue>)
    | IssueLabels(labels: seq<Label>)   // the labels of one issue
    | AllLabels(labels: seq<Label>)     // the labels of a workspace
    | Other(blob: string)

  /** None is a query that is registered but holds no data yet. */
  type Store = map<Key, Option<Data>>

  /** `setQueryData`; an updater that yields nothing leaves the cache alone. */
  function Put(data: Store, key: Key, value: Option<Data>): Store {
    if value.Some? then data[key := value] else data
  }

  function Get(data: Store, key: Key): Option<Data> {
    if key in data then data[key] else None
  }

  /** f applied to all data whose key starts with prefix. */
  function UpdateUnder(data: Store, prefix: Key, f: Data -> Data): Store {
    map k | k in data :: if prefix <= k && data[k].Some? then Some(f(data[k].value)) else data[k]
  }

  function UpdateKeys(data: Store, keys: set<Key>, f: Data -> Data): Store {
    map k | k in data :: if k in keys && data[k].Some? then Some(f(data[k].value)) else data[k]
  }

  /** f applied to the data of one key, if there is any. */
  function UpdateAt(data: Store, key: Key, f: Data -> Data): Store {
    if Get(data, key).Some? then data[key := Some(f(data[key].value))] else data
  }

  function RemoveUnder(data: Store, prefix: Key): Store {
    map k | k in data && !(prefix <= k) :: data[k]
  }

  /** What is loaded. */
  function Loaded(data: Store): map<Key, Data> {
    map k | k in data && data[k].Some? :: data[k].value
  }

  datatype Snapshot = Snapshot(key: Key, value: Option<Data>)

  function Restore(data: Store, snaps: seq<Snapshot>): Store {
    if snaps == [] then data
    else
      var last := snaps[|snaps| - 1];
      Put(Restore(data, snaps[..|snaps| - 1]), last.key, last.value)
  }

  class QueryClient {
    var order: seq<Key>     // registration order
    var data: Store
    var stale: set<Key>     // marked by invalidateQueries

    ghost predicate Valid()
      reads this
    {
      && NoDup(order)
      && (forall k :: k in order ==> k in data)
      && (forall k :: k in data ==> k in order)
    }

    constructor ()
      ensures Valid() && data == map[] && stale == {}
    {
      order, data, stale := [], map[], {};
    }

    method SetQueryData(key: Key, value: Option<Data>)
      requires Valid()
      modifies this
      ensures Valid() && data == Put(old(data), key, value)
      ensures old(order) <= order && (key in old(data) ==> order == old(order))
      ensures stale == if value.Some? then old(stale) - {key} else old(stale)
    {
      if value.Some? {
        if key !in data { order := order + [key]; }
        data := data[key := value];
        stale := stale - {key};
      }
    }

    method GetQueryData(key: Key) returns (value: Option<Data>)
      ensures value == Get(data, key)
    {
      value := if key in data then data[key] else None;
    }

    /** The registered keys under a prefix, in registration order. */
    function Matching(prefix: Key): (keys: seq<Key>)
      reads this
    {
      Filter((k: Key) => prefix <= k, order)
    }

    /** The data of the first registered query under a prefix. */
    function FirstUnder(prefix: Key): Option<Data>
      reads this
    {
      if Matching(prefix) == [] then None else Get(data, Matching(prefix)[0])
    }

    method GetQueriesData(prefix: Key) returns (snaps: seq<Snapshot>)
      requires Valid()
      ensures forall s :: s in snaps ==> InStore(data, s, prefix)
      ensures forall k :: k in data && prefix <= k ==> Snapshot(k, data[k]) in snaps
      ensures NoDup(snaps)
      ensures |snaps| == |Matching(prefix)| && forall i :: 0 <= i < |snaps| ==> snaps[i].key == Matching(prefix)[i]
    {
      var keys := Matching(prefix);
      FilterNoDup((k: Key) => prefix <= k, order);
      snaps := [];
      for i := 0 to |keys|
        invariant |snaps| == i && forall j :: 0 <= j < i ==> snaps[j] == Snapshot(keys[j], data[keys[j]])
      {
        assert keys[i] in keys;
        snaps := snaps + [Snapshot(keys[i], data[keys[i]])];
      }
      forall s | s in snaps ensures InStore(data, s, prefix) {
        var i :| 0 <= i < |snaps| && snaps[i] == s;
        assert keys[i] in keys;
      }
      forall k | k in data && prefix <= k ensures Snapshot(k, data[k]) in snaps {
        assert k in keys;
        var i :| 0 <= i < |keys| && keys[i] == k;
        assert snaps[i] == Snapshot(k, data[k]);
      }
    }

    /** Rewrites every loaded query under a prefix. */
    method UpdateQueries(prefix: Key, f: Data -> Data)
      requires Valid()
      modifies this
      ensures Valid() && data == UpdateUnder(old(data), prefix, f) && order == old(order)
      ensures stale <= old(stale) && forall k :: k in old(stale) && !(prefix <= k) ==> k in stale
    {
      var queries := GetQueriesData(prefix);
      ghost var before, done: set<Key> := data, {};
      assert forall j :: 0 <= j < |queries| ==> queries[j] in queries;
      for i := 0 to |queries|
        invariant Valid() && order == old(order)
        invariant forall j :: 0 <= j < |queries| ==> InStore(before, queries[j], prefix)
        invariant data == UpdateKeys(before, done, f)
        invariant forall j :: 0 <= j < i ==> queries[j].key in done
        invariant forall k :: k in done ==> prefix <= k
        invariant stale <= old(stale) && forall k :: k in old(stale) && !(prefix <= k) ==> k in stale
      {
        assert InStore(before, queries[i], prefix);
        RewriteQuery(before, done, f, queries[i]);
        done := done + {queries[i].key};
      }
      AllKeysDone(old(data), prefix, done, f, queries);
    }

    /** Rewrites one more query, when it holds data. */
    method RewriteQuery(ghost before: Store, ghost done: set<Key>, f: Data -> Data, query: Snapshot)
      requires Valid() && data == UpdateKeys(before, done, f)
      requires query.key in before && query.value == before[query.key]
      modifies this
      ensures Valid() && data == UpdateKeys(before, done + {query.key}, f) && order == old(order)
      ensures stale <= old(stale) && old(stale) <= stale + {query.key}
    {
      UpdateKeysStep(before, done, f, query.key);
      if query.value.Some? {
        SetQueryData(query.key, Some(f(query.value.value)));
      }
    }

    method RestoreQueries(snaps: seq<Snapshot>)
      requires Valid()
      modifies this
      ensures Valid() && data == Restore(old(data), snaps)
    {
      for i := 0 to |snaps|
        invariant Valid() && data == Restore(old(data), snaps[..i])
      {
        assert snaps[..i + 1][..i] == snaps[..i];
        SetQueryData(snaps[i].key, snaps[i].value);
      }
      assert snaps[..|snaps|] == snaps;
    }

    method RemoveQueries(prefix: Key)
      requires Valid()
      modifies this
      ensures Valid() && data == RemoveUnder(old(data), prefix)
      ensures stale == set k | k in old(stale) && !(prefix <= k)
    {
      FilterNoDup((k: Key) => !(prefix <= k), order);
      order := Filter((k: Key) => !(prefix <= k), order);
      data := RemoveUnder(data, prefix);
      stale := set k | k in stale && !(prefix <= k);
    }

    method InvalidateQueries(prefix: Key)
      requires Valid()
      modifies this`stale
      ensures stale == old(stale) + set k | k in data && prefix <= k
    {
      stale := stale + set k | k in data && prefix <= k;
    }
  }

  /** Everything under the prefix will be fetched again. */
  ghost predicate MarkedStale(qc: QueryClient, prefix: Key)
    reads qc
  {
    forall k :: k in qc.data && prefix <= k ==> k in qc.stale
  }

  ghost predicate InStore(data: Store, s: Snapshot, prefix: Key) {
    prefix <= s.key && s.key in data && s.value == data[s.key]
  }

  lemma UpdateKeysStep(data: Store, done: set<Key>, f: Data -> Data, k: Key)
    requires k in data
    ensures UpdateKeys(data, done + {k}, f) ==
      if data[k].Some? then Put(UpdateKeys(data, done, f), k, Some(f(data[k].value))) else UpdateKeys(data, done, f)
  {
  }

  lemma AllKeysDone(data: Store, prefix: Key, done: set<Key>, f: Data -> Data, queries: seq<Snapshot>)
    requires forall k :: k in data && prefix <= k ==> Snapshot(k, data[k]) in queries
    requires forall k :: k in done ==> prefix <= k
    requires forall j :: 0 <= j < |queries| ==> queries[j].key in done
    ensures UpdateKeys(data, done, f) == UpdateUnder(data, prefix, f)
  {
    forall k | k in data && prefix <= k ensures k in done {
      var j :| 0 <= j < |queries| && queries[j] == Snapshot(k, data[k]);
    }
  }

  // ----- Snapshots undo writes -----

  /** Whatever key a change touched was loaded before and is among the snapshots. */
  ghost predicate CoversChanges(before: Store, after: Store, snaps: seq<Snapshot>) {
    && (forall s :: s in snaps && s.value.Some? ==> s.key in before && before[s.key] == s.value)
    && (forall k :: k in before && !(k in after && after[k] == before[k]) ==>
          before[k].Some? && Snapshot(k, before[k]) in snaps)
    && (forall k :: k in after ==> k in before)
  }

  lemma {:induction false} RestoreValue(data: Store, snaps: seq<Snapshot>, k: Key)
    ensures k in Restore(data, snaps) <==> k in data || exists s :: s in snaps && s.key == k && s.value.Some?
    ensures k in Restore(data, snaps) ==>
      || (k in data && Restore(data, snaps)[k] == data[k] && forall s :: s in snaps && s.key == k ==> s.value.None?)
      || (exists s :: s in snaps && s.key == k && s.value.Some? && Restore(data, snaps)[k] == s.value)
  {
    if snaps != [] {
      var init, last := snaps[..|snaps| - 1], snaps[|snaps| - 1];
      assert snaps == init + [last];
      RestoreValue(data, init, k);
    }
  }

  /** Restoring snapshots that cover all changes gives back the cache. */
  lemma RestoreUndoes(before: Store, after: Store, snaps: seq<Snapshot>)
    requires CoversChanges(before, after, snaps)
    ensures Restore(after, snaps) == before
  {
    forall k
      ensures k in Restore(after, snaps) <==> k in before
      ensures k in before ==> Restore(after, snaps)[k] == before[k]
    {
      RestoreValue(after, snaps, k);
    }
  }
}
