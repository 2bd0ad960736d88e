// The display order of a timeline: created_at ascending, ids breaking ties.

module TimelineSort {
  import opened Seqs
  import opened Sorting
  import opened Timeline

  /** Lexicographic order of strings. */
  predicate StrLess(a: string, b: string) {
    b != [] && (a == [] || a[0] < b[0] || (a[0] == b[0] && StrLess(a[1..], b[1..])))
  }

  lemma {:induction false} StrLessOrders(a: string, b: string, c: string)
    ensures OrdersTriple(StrLess, a, b, c)
    ensures a != b ==> StrLess(a, b) || StrLess(b, a)
  {
    if a != [] && b != [] {
      assert a == [a[0]] + a[1..] && b == [b[0]] + b[1..];
      StrLessOrders(a[1..], b[1..], if c == [] then c else c[1..]);
    }
  }

  predicate Before(a: Entry, b: Entry) {
    if a.createdAt != b.createdAt then StrLess(a.createdAt, b.createdAt) else StrLess(a.id, b.id)
  }

  lemma BeforeOrders()
    ensures StrictWeak(Before)
    ensures KeysDecide((e: Entry) => e.id, Before)
  {
    forall a, b, c ensures OrdersTriple(Before, a, b, c) {
      StrLessOrders(a.createdAt, b.createdAt, c.createdAt);
      StrLessOrders(a.id, b.id, c.id);
      StrLessOrders(a.createdAt, c.createdAt, b.createdAt);
      StrLessOrders(b.createdAt, c.createdAt, a.createdAt);
    }
    forall a: Entry, b: Entry | a.id != b.id ensures Before(a, b) || Before(b, a) {
      StrLessOrders(a.createdAt, b.createdAt, "");
      StrLessOrders(a.id, b.id, "");
    }
  }

  /** Strings in alphabetical order: a proper prefix, or smaller at the first difference. */
  ghost predicate Alphabetical(a: string, b: string) {
    a < b || exists k: nat :: FirstDifference(a, b, k) && a[k] < b[k]
  }

  predicate FirstDifference(a: string, b: string, k: nat) {
    k < |a| && k < |b| && a[..k] == b[..k] && a[k] != b[k]
  }

  lemma {:induction false} StrLessIsAlphabetical(a: string, b: string)
    ensures StrLess(a, b) <==> Alphabetical(a, b)
  {
    if a == [] || b == [] {
      EmptyIsFirst(a, b);
    } else if a[0] != b[0] {
      HeadsDiffer(a, b);
    } else {
      StrLessIsAlphabetical(a[1..], b[1..]);
      HeadsAlike(a, b);
    }
  }

  lemma EmptyIsFirst(a: string, b: string)
    requires a == [] || b == []
    ensures Alphabetical(a, b) <==> b != []
  {
    assert forall k: nat :: !FirstDifference(a, b, k);
    assert a < b <==> b != [];
  }

  lemma HeadsDiffer(a: string, b: string)
    requires a != [] && b != [] && a[0] != b[0]
    ensures Alphabetical(a, b) <==> a[0] < b[0]
  {
    forall k: nat ensures FirstDifference(a, b, k) <==> k == 0 {
      if 0 < k <= |a| && k <= |b| { assert a[..k][0] == a[0] && b[..k][0] == b[0]; }
    }
  }

  lemma HeadsAlike(a: string, b: string)
    requires a != [] && b != [] && a[0] == b[0]
    ensures Alphabetical(a, b) <==> Alphabetical(a[1..], b[1..])
  {
    assert a == [a[0]] + a[1..] && b == [b[0]] + b[1..];
    forall k: nat ensures FirstDifference(a, b, k + 1) <==> FirstDifference(a[1..], b[1..], k) {
      if k < |a[1..]| && k < |b[1..]| {
        assert a[..k + 1] == [a[0]] + a[1..][..k] && b[..k + 1] == [b[0]] + b[1..][..k];
        assert a[..k + 1][1..] == a[1..][..k] && b[..k + 1][1..] == b[1..][..k];
      }
    }
    if k: nat :| FirstDifference(a, b, k) && a[k] < b[k] {
      assert a[0] == b[0] && k > 0 && FirstDifference(a, b, (k - 1) + 1);
      assert FirstDifference(a[1..], b[1..], k - 1);
    }
    if k: nat :| FirstDifference(a[1..], b[1..], k) && a[1..][k] < b[1..][k] {
      assert FirstDifference(a, b, k + 1);
    }
  }

  /** a is older than b, or of the same time and not behind it by id. */
  ghost predicate OldestFirst(a: Entry, b: Entry) {
    Alphabetical(a.createdAt, b.createdAt) || (a.createdAt == b.createdAt && !Alphabetical(b.id, a.id))
  }

  lemma SortedIsOldestFirst(s: seq<Entry>, i: nat, j: nat)
    requires Sorted(Before, s) && i < j < |s|
    ensures OldestFirst(s[i], s[j])
  {
    StrLessOrders(s[i].createdAt, s[j].createdAt, "");
    StrLessIsAlphabetical(s[i].createdAt, s[j].createdAt);
    StrLessIsAlphabetical(s[j].createdAt, s[i].createdAt);
    StrLessIsAlphabetical(s[j].id, s[i].id);
  }

  method SortTimelineEntriesAsc(entries: array<Entry>)
    modifies entries
    ensures entries[..] == SortBy(Before, old(entries[..]))
    ensures Sorted(Before, entries[..]) && multiset(entries[..]) == multiset(old(entries[..]))
    ensures forall i, j :: 0 <= i < j < entries.Length ==> OldestFirst(entries[i], entries[j])
  {
    var sorted := SortBy(Before, entries[..]);
    BeforeOrders();
    SortSorts(Before, entries[..]);
    SortPermutes(Before, entries[..]);
    forall i | 0 <= i < entries.Length { entries[i] := sorted[i]; }
    assert entries[..] == sorted;
    forall i, j | 0 <= i < j < entries.Length ensures OldestFirst(entries[i], entries[j]) {
      assert sorted[i] == entries[i] && sorted[j] == entries[j];
      SortedIsOldestFirst(sorted, i, j);
    }
  }

  /** The list after one created comment arrives. */
  function WithCreated(s0: seq<Entry>, entry: Entry): seq<Entry> {
    AddOnce((e: Entry) => e.id, Before, s0, entry)
  }

  function WithAllCreated(s0: seq<Entry>, entries: seq<Entry>): seq<Entry> {
    AddAll((e: Entry) => e.id, Before, s0, entries)
  }

  /** Created comments give one list, sorted and with distinct ids, however they arrive. */
  lemma CreatesConverge(s0: seq<Entry>, xs: seq<Entry>, ys: seq<Entry>)
    requires Sorted(Before, s0) && DistinctIds(s0)
    requires forall e, f :: e in s0 + xs && f in s0 + xs && e.id == f.id ==> e == f
    requires forall e :: e in xs <==> e in ys
    ensures WithAllCreated(s0, xs) == WithAllCreated(s0, ys)
    ensures Sorted(Before, WithAllCreated(s0, xs)) && DistinctIds(WithAllCreated(s0, xs))
    ensures forall e :: e in WithAllCreated(s0, xs) <==> e in s0 || e in xs
  {
    BeforeOrders();
    Convergence((e: Entry) => e.id, Before, s0, xs, ys);
    AddAllKeeps((e: Entry) => e.id, Before, s0, xs);
  }
}
