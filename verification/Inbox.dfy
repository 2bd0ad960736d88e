// The inbox: one newest active item per issue, and what marking read, archiving
// and issue events do to the list and to the unread count.

module Inbox {
  import opened Options
  import opened Seqs
  import opened Sorting

  datatype Item = Item(
    id: string, issueId: Option<string>, issueStatus: string, read: bool, archived: bool, createdAt: int)

  function KeyOf(x: Item): string {
    if x.issueId.Some? then x.issueId.value else x.id
  }

  predicate IsActive(x: Item) {
    !x.archived
  }

  predicate IsUnread(x: Item) {
    !x.read
  }

  /** The comparator of both sorts: newest first. */
  predicate Newer(a: Item, b: Item) {
    a.createdAt > b.createdAt
  }

  function HasKey(k: string): Item -> bool {
    (x: Item) => KeyOf(x) == k
  }

  function LacksKey(k: string): Item -> bool {
    (x: Item) => KeyOf(x) != k
  }

  /** The keys in order of first appearance. */
  function GroupKeys(s: seq<Item>): seq<string> {
    if s == [] then []
    else WithKey(GroupKeys(s[..|s| - 1]), KeyOf(s[|s| - 1]))
  }

  function WithKey(ks: seq<string>, k: string): seq<string> {
    if k in ks then ks else ks + [k]
  }

  lemma GroupKeysSnoc(s: seq<Item>, x: Item)
    ensures GroupKeys(s + [x]) == WithKey(GroupKeys(s), KeyOf(x))
  {
    assert (s + [x])[..|s|] == s;
  }

  lemma {:induction false} GroupKeysAre(s: seq<Item>, k: string)
    ensures k in GroupKeys(s) <==> exists x :: x in s && KeyOf(x) == k
    ensures NoDup(GroupKeys(s))
  {
    if s != [] {
      var n := |s| - 1;
      GroupKeysAre(s[..n], k);
      assert s == s[..n] + [s[n]];
    }
  }

  function Group(s: seq<Item>, k: string): seq<Item> {
    Filter(HasKey(k), s)
  }

  function NewestOf(s: seq<Item>): Item
    requires s != []
  {
    SortBy(Newer, s)[0]
  }

  function Representatives(s: seq<Item>, ks: seq<string>): (r: seq<Item>)
    requires forall k :: k in ks ==> Group(s, k) != []
    ensures |r| == |ks|
  {
    if ks == [] then []
    else Representatives(s, ks[..|ks| - 1]) + [NewestOf(Group(s, ks[|ks| - 1]))]
  }

  lemma GroupsNonEmpty(s: seq<Item>)
    ensures forall k :: k in GroupKeys(s) ==> Group(s, k) != []
  {
    forall k | k in GroupKeys(s) ensures Group(s, k) != [] {
      GroupKeysAre(s, k);
      var x :| x in s && KeyOf(x) == k;
      assert x in Group(s, k);
    }
  }

  /** The first of the newest items of every group, in order of the groups. */
  function Reps(s: seq<Item>): seq<Item> {
    GroupsNonEmpty(s);
    Representatives(s, GroupKeys(s))
  }

  function Dedup(items: seq<Item>): seq<Item> {
    SortBy(Newer, Reps(Filter(IsActive, items)))
  }

  method DeduplicateInboxItems(items: seq<Item>) returns (r: seq<Item>)
    ensures r == Dedup(items)
  {
    var active := Filter(IsActive, items);
    var order, groups := GroupActive(active);
    GroupsNonEmpty(active);
    var merged: seq<Item> := [];
    for i := 0 to |order|
      invariant merged == Representatives(active, order[..i])
    {
      assert order[..i + 1][..i] == order[..i];
      var sorted := SortBy(Newer, groups[order[i]]);
      merged := merged + [sorted[0]];
    }
    assert order[..|order|] == order;
    r := SortBy(Newer, merged);
  }

  method GroupActive(active: seq<Item>) returns (order: seq<string>, groups: map<string, seq<Item>>)
    ensures order == GroupKeys(active)
    ensures forall k :: k in order ==> k in groups && groups[k] == Group(active, k)
  {
    order, groups := [], map[];
    for i := 0 to |active|
      invariant Grouped(order, groups, active[..i])
    {
      var item := active[i];
      var key := KeyOf(item);
      assert active[..i + 1] == active[..i] + [item];
      GroupedStep(order, groups, active[..i], item);
      if key !in groups {
        order := order + [key];
      }
      groups := groups[key := (if key in groups then groups[key] else []) + [item]];
    }
    assert active[..|active|] == active;
  }

  ghost predicate Grouped(order: seq<string>, groups: map<string, seq<Item>>, s: seq<Item>) {
    && order == GroupKeys(s)
    && (forall k :: k in groups <==> k in order)
    && (forall k :: k in groups ==> groups[k] == Group(s, k))
  }

  lemma GroupedStep(order: seq<string>, groups: map<string, seq<Item>>, s: seq<Item>, x: Item)
    requires Grouped(order, groups, s)
    ensures var k := KeyOf(x);
      Grouped(if k in groups then order else order + [k],
              groups[k := (if k in groups then groups[k] else []) + [x]], s + [x])
  {
    var key := KeyOf(x);
    GroupKeysSnoc(s, x);
    if key !in groups { NoGroupYet(s, key); }
    forall k ensures Group(s + [x], k) == Group(s, k) + if key == k then [x] else [] { GroupSnoc(s, x, k); }
  }

  lemma GroupSnoc(s: seq<Item>, x: Item, k: string)
    ensures Group(s + [x], k) == Group(s, k) + if KeyOf(x) == k then [x] else []
  {
    FilterConcat(HasKey(k), s, [x]);
    FilterCons(HasKey(k), x, []);
    assert [x] + [] == [x];
  }

  lemma NoGroupYet(s: seq<Item>, k: string)
    requires k !in GroupKeys(s)
    ensures Group(s, k) == []
  {
    GroupKeysAre(s, k);
    FilterNone(HasKey(k), s);
  }

  method UnreadCount(items: seq<Item>) returns (n: nat)
    ensures n == |Filter(IsUnread, Dedup(items))|
  {
    var list := DeduplicateInboxItems(items);
    n := |Filter(IsUnread, list)|;
  }

  // ----- What the list shows -----

  lemma NewerOrders()
    ensures StrictWeak(Newer)
  {
  }

  lemma NewestIsNewest(s: seq<Item>)
    requires s != []
    ensures NewestOf(s) in s && forall y :: y in s ==> y.createdAt <= NewestOf(s).createdAt
  {
    var r := SortBy(Newer, s);
    NewerOrders();
    SortSorts(Newer, s);
    assert r[0] in r;
    forall y | y in s ensures y.createdAt <= r[0].createdAt {
      assert y in r;
      var i :| 0 <= i < |r| && r[i] == y;
      if i > 0 { assert !Newer(r[i], r[0]); }
    }
  }

  /** x is active in s, of the key's group and newest there. */
  ghost predicate Represents(x: Item, s: seq<Item>, k: string) {
    x in s && KeyOf(x) == k && forall y :: y in s && KeyOf(y) == k ==> y.createdAt <= x.createdAt
  }

  lemma NewestRepresents(s: seq<Item>, k: string)
    requires Group(s, k) != []
    ensures Represents(NewestOf(Group(s, k)), s, k)
  {
    NewestIsNewest(Group(s, k));
  }

  lemma {:induction false} RepresentativesAt(s: seq<Item>, ks: seq<string>, i: nat)
    requires forall k :: k in ks ==> Group(s, k) != []
    requires i < |ks|
    ensures Group(s, ks[i]) != [] && Representatives(s, ks)[i] == NewestOf(Group(s, ks[i]))
  {
    var n := |ks| - 1;
    assert ks == ks[..n] + [ks[n]];
    var init := ks[..n];
    RepresentativesSnoc(s, init, ks[n]);
    if i < n { RepresentativesAt(s, init, i); }
  }

  lemma RepAt(s: seq<Item>, i: nat)
    requires i < |GroupKeys(s)|
    ensures |Reps(s)| == |GroupKeys(s)| && Represents(Reps(s)[i], s, GroupKeys(s)[i])
  {
    GroupsNonEmpty(s);
    RepresentativesAt(s, GroupKeys(s), i);
    NewestRepresents(s, GroupKeys(s)[i]);
  }

  lemma RepsNoDup(s: seq<Item>)
    ensures NoDup(Reps(s))
  {
    GroupKeysAre(s, "");
    assert |Reps(s)| == |GroupKeys(s)|;
    forall i, j | 0 <= i < j < |Reps(s)| ensures Reps(s)[i] != Reps(s)[j] {
      RepAt(s, i);
      RepAt(s, j);
    }
  }

  /** The list shows, newest first and once each, exactly the newest active item of every group
      (the first of them, when several are equally new). */
  lemma DedupIsSorted(items: seq<Item>)
    ensures Sorted(Newer, Dedup(items)) && NoDup(Dedup(items))
  {
    var reps := Reps(Filter(IsActive, items));
    NewerOrders();
    SortSorts(Newer, reps);
    RepsNoDup(Filter(IsActive, items));
    SortPermutes(Newer, reps);
    PermutationNoDup(reps, SortBy(Newer, reps));
  }

  lemma DedupShowsNewest(items: seq<Item>, x: Item)
    requires x in Dedup(items)
    ensures Represents(x, Filter(IsActive, items), KeyOf(x))
  {
    var s := Filter(IsActive, items);
    assert x in Reps(s);
    var i :| 0 <= i < |Reps(s)| && Reps(s)[i] == x;
    assert |Reps(s)| == |GroupKeys(s)|;
    RepAt(s, i);
  }

  lemma DedupCoversEveryGroup(items: seq<Item>, y: Item) returns (x: Item)
    requires y in items && !y.archived
    ensures x in Dedup(items) && KeyOf(x) == KeyOf(y)
  {
    var s := Filter(IsActive, items);
    GroupKeysAre(s, KeyOf(y));
    var i :| 0 <= i < |GroupKeys(s)| && GroupKeys(s)[i] == KeyOf(y);
    RepAt(s, i);
    x := Reps(s)[i];
    assert x in Reps(s);
  }

  lemma DedupOncePerGroup(items: seq<Item>, x: Item, y: Item)
    requires x in Dedup(items) && y in Dedup(items) && KeyOf(x) == KeyOf(y)
    ensures x == y
  {
    var s := Filter(IsActive, items);
    var i := RepIndex(s, x);
    var j := RepIndex(s, y);
    GroupKeysAre(s, KeyOf(x));
    SameKeySameItem(Reps(s), GroupKeys(s), i, j);
  }

  lemma SameKeySameItem(reps: seq<Item>, keys: seq<string>, i: nat, j: nat)
    requires NoDup(keys) && i < |keys| == |reps| && j < |keys|
    ensures keys[i] == keys[j] ==> reps[i] == reps[j]
  {
  }

  lemma RepIndex(s: seq<Item>, x: Item) returns (i: nat)
    requires x in Reps(s)
    ensures i < |GroupKeys(s)| == |Reps(s)| && Reps(s)[i] == x && GroupKeys(s)[i] == KeyOf(x)
  {
    var reps := Reps(s);
    i :| 0 <= i < |reps| && reps[i] == x;
    RepsLength(s);
    RepAt(s, i);
  }

  lemma RepsLength(s: seq<Item>)
    ensures |Reps(s)| == |GroupKeys(s)|
  {
    GroupsNonEmpty(s);
  }

  function SameAge(x: Item): Item -> bool {
    (y: Item) => y.createdAt == x.createdAt
  }

  /** Of several equally new items of a group, the first in the list is shown. */
  lemma DedupShowsFirstOfNewest(items: seq<Item>, x: Item)
    requires x in Dedup(items)
    ensures var newest := Filter(SameAge(x), Filter(HasKey(KeyOf(x)), Filter(IsActive, items)));
      newest != [] && newest[0] == x
  {
    var s := Filter(IsActive, items);
    var i := RepIndex(s, x);
    GroupsNonEmpty(s);
    RepresentativesAt(s, GroupKeys(s), i);
    NewestIsFirst(Group(s, KeyOf(x)));
  }

  lemma NewestIsFirst(g: seq<Item>)
    requires g != []
    ensures Filter(SameAge(NewestOf(g)), g) != [] && Filter(SameAge(NewestOf(g)), g)[0] == NewestOf(g)
  {
    var r, p := SortBy(Newer, g), SameAge(NewestOf(g));
    NewerOrders();
    SortIsStable(Newer, p, g);
    assert r == [r[0]] + r[1..];
    FilterCons(p, r[0], r[1..]);
  }

  /** Groups whose newest items are equally new are shown in order of their first active items. */
  lemma DedupKeepsOrderOfTies(items: seq<Item>, x: Item)
    ensures Filter(SameAge(x), Dedup(items)) == Filter(SameAge(x), Reps(Filter(IsActive, items)))
  {
    NewerOrders();
    SortIsStable(Newer, SameAge(x), Reps(Filter(IsActive, items)));
  }

  /** Groups are numbered as they appear: later items only add to the end. */
  lemma {:induction false} GroupKeysGrow(s: seq<Item>, n: nat)
    requires n <= |s|
    ensures GroupKeys(s[..n]) <= GroupKeys(s)
  {
    if n == |s| {
      assert s[..n] == s;
    } else {
      assert s[..|s| - 1][..n] == s[..n];
      GroupKeysGrow(s[..|s| - 1], n);
    }
  }

  // ----- Changes that drop a group -----

  function NotKey(k: string): string -> bool {
    (x: string) => x != k
  }

  lemma {:induction false} KeysWithout(s: seq<Item>, k: string)
    ensures GroupKeys(Filter(LacksKey(k), s)) == Filter(NotKey(k), GroupKeys(s))
  {
    if s != [] {
      var init, last := s[..|s| - 1], s[|s| - 1];
      assert s == init + [last];
      KeysWithout(init, k);
      var kept, ks := Filter(LacksKey(k), init), GroupKeys(init);
      FilterConcat(LacksKey(k), init, [last]);
      if KeyOf(last) != k {
        assert Filter(LacksKey(k), [last]) == [last];
        GroupKeysSnoc(kept, last);
      } else {
        assert Filter(LacksKey(k), [last]) == [];
        assert kept + [] == kept;
      }
      KeptKeys(ks, KeyOf(last), k);
    }
  }

  lemma KeptKeys(ks: seq<string>, x: string, k: string)
    ensures Filter(NotKey(k), WithKey(ks, x)) ==
      if x != k then WithKey(Filter(NotKey(k), ks), x) else Filter(NotKey(k), ks)
  {
    FilterConcat(NotKey(k), ks, [x]);
    if x != k {
      assert Filter(NotKey(k), [x]) == [x];
    } else {
      assert Filter(NotKey(k), [x]) == [];
      assert Filter(NotKey(k), ks) + [] == Filter(NotKey(k), ks);
    }
  }

  lemma {:induction false} GroupOfFiltered(s: seq<Item>, k: string, j: string)
    requires j != k
    ensures Filter(HasKey(j), Filter(LacksKey(k), s)) == Filter(HasKey(j), s)
  {
    if s != [] {
      assert s == [s[0]] + s[1..];
      GroupOfFiltered(s[1..], k, j);
      FilterCons(LacksKey(k), s[0], s[1..]);
      FilterCons(HasKey(j), s[0], s[1..]);
      FilterCons(HasKey(j), s[0], Filter(LacksKey(k), s[1..]));
    }
  }

  lemma {:induction false} RepsWithout(s: seq<Item>, t: seq<Item>, ks: seq<string>, k: string)
    requires forall j :: j in ks ==> Group(s, j) != []
    requires forall j :: j != k ==> Group(t, j) == Group(s, j)
    ensures forall j :: j in Filter(NotKey(k), ks) ==> Group(t, j) != []
    ensures Representatives(t, Filter(NotKey(k), ks)) == Filter(LacksKey(k), Representatives(s, ks))
  {
    if ks != [] {
      var init, last := ks[..|ks| - 1], ks[|ks| - 1];
      assert ks == init + [last];
      RepsWithout(s, t, init, k);
      var kept, x := Filter(NotKey(k), init), NewestOf(Group(s, last));
      FilterConcat(NotKey(k), init, [last]);
      NewestRepresents(s, last);
      FilterConcat(LacksKey(k), Representatives(s, init), [x]);
      if last != k {
        assert Filter(NotKey(k), [last]) == [last] && Filter(LacksKey(k), [x]) == [x];
        RepresentativesSnoc(t, kept, last);
      } else {
        assert Filter(NotKey(k), [last]) == [] && Filter(LacksKey(k), [x]) == [];
        assert kept + [] == kept;
      }
    }
  }

  lemma RepresentativesSnoc(s: seq<Item>, ks: seq<string>, k: string)
    requires forall j :: j in ks + [k] ==> Group(s, j) != []
    ensures Group(s, k) != []
    ensures Representatives(s, ks + [k]) == Representatives(s, ks) + [NewestOf(Group(s, k))]
  {
    assert k in ks + [k];
    assert (ks + [k])[..|ks|] == ks;
  }

  /** When exactly one group becomes inactive, the list loses exactly that group's entry and keeps its order. */
  lemma DropGroup(items: seq<Item>, after: seq<Item>, k: string)
    requires Filter(IsActive, after) == Filter(LacksKey(k), Filter(IsActive, items))
    ensures Dedup(after) == Filter(LacksKey(k), Dedup(items))
  {
    var s, t := Filter(IsActive, items), Filter(IsActive, after);
    KeysWithout(s, k);
    GroupsNonEmpty(s);
    forall j | j != k ensures Group(t, j) == Group(s, j) { GroupOfFiltered(s, k, j); }
    RepsWithout(s, t, GroupKeys(s), k);
    NewerOrders();
    SortFilter(Newer, LacksKey(k), Reps(s));
  }

  // ----- Changes that keep the grouping -----

  /** f changes neither identity, grouping, activity nor age. */
  ghost predicate KeepsGrouping(f: Item -> Item) {
    forall x :: f(x).id == x.id && f(x).issueId == x.issueId && f(x).archived == x.archived
      && f(x).createdAt == x.createdAt
  }

  lemma {:induction false} KeysOfMapped(f: Item -> Item, s: seq<Item>)
    requires KeepsGrouping(f)
    ensures GroupKeys(Map(f, s)) == GroupKeys(s)
  {
    if s != [] {
      var n := |s| - 1;
      KeysOfMapped(f, s[..n]);
      assert Map(f, s)[..n] == Map(f, s[..n]);
    }
  }

  lemma NewestOfMapped(f: Item -> Item, s: seq<Item>)
    requires KeepsGrouping(f) && s != []
    ensures NewestOf(Map(f, s)) == f(NewestOf(s))
  {
    SortMap(Newer, Newer, f, s);
  }

  lemma {:induction false} RepsOfMapped(f: Item -> Item, s: seq<Item>, ks: seq<string>)
    requires KeepsGrouping(f)
    requires forall k :: k in ks ==> Group(s, k) != []
    requires forall k :: k in ks ==> Group(Map(f, s), k) != []
    ensures Representatives(Map(f, s), ks) == Map(f, Representatives(s, ks))
  {
    if ks != [] {
      var init, last := ks[..|ks| - 1], ks[|ks| - 1];
      assert ks == init + [last];
      RepsOfMapped(f, s, init);
      GroupOfMapped(f, s, last);
      NewestOfMapped(f, Group(s, last));
      RepresentativesSnoc(s, init, last);
      RepresentativesSnoc(Map(f, s), init, last);
      MapSnoc(f, Representatives(s, init), NewestOf(Group(s, last)));
    }
  }

  lemma MappedGroupsNonEmpty(f: Item -> Item, s: seq<Item>, ks: seq<string>)
    requires KeepsGrouping(f) && forall k :: k in ks ==> Group(s, k) != []
    ensures forall k :: k in ks ==> Group(Map(f, s), k) != []
  {
    forall k | k in ks ensures Group(Map(f, s), k) != [] { GroupOfMapped(f, s, k); }
  }

  lemma GroupOfMapped(f: Item -> Item, s: seq<Item>, k: string)
    requires KeepsGrouping(f)
    ensures Group(Map(f, s), k) == Map(f, Group(s, k))
  {
    FilterMap(HasKey(k), HasKey(k), f, s);
  }

  lemma DedupOfMapped(f: Item -> Item, items: seq<Item>)
    requires KeepsGrouping(f)
    ensures Dedup(Map(f, items)) == Map(f, Dedup(items))
  {
    var s := Filter(IsActive, items);
    FilterMap(IsActive, IsActive, f, items);
    KeysOfMapped(f, s);
    GroupsNonEmpty(s);
    MappedGroupsNonEmpty(f, s, GroupKeys(s));
    RepsOfMapped(f, s, GroupKeys(s));
    SortMap(Newer, Newer, f, Reps(s));
  }

  // ----- The optimistic mutations and issue events -----

  function ReadOne(id: string): Item -> Item {
    (x: Item) => if x.id == id then x.(read := true) else x
  }

  function ReadActive(x: Item): Item {
    if !x.archived then x.(read := true) else x
  }

  function FirstItem(items: seq<Item>, id: string): (r: Option<Item>)
    ensures r.Some? ==> r.value in items && r.value.id == id
    ensures r.None? ==> forall x :: x in items ==> x.id != id
  {
    if items == [] then None
    else
      assert items == [items[0]] + items[1..];
      if items[0].id == id then Some(items[0]) else FirstItem(items[1..], id)
  }

  function ArchiveWith(id: string, issueId: Option<string>): Item -> Item {
    (x: Item) =>
      if x.id == id || (issueId.Some? && issueId.value != "" && x.issueId == issueId) then x.(archived := true) else x
  }

  function Archived(items: seq<Item>, id: string): seq<Item> {
    var target := FirstItem(items, id);
    Map(ArchiveWith(id, if target.Some? then target.value.issueId else None), items)
  }

  function OfOtherIssue(issueId: string): Item -> bool {
    (x: Item) => x.issueId != Some(issueId)
  }

  function WithStatus(issueId: string, status: string): Item -> Item {
    (x: Item) => if x.issueId == Some(issueId) then x.(issueStatus := status) else x
  }

  /** An item of the issue shows the status, and any other item is as before. */
  predicate StatusSet(before: Item, after: Item, issueId: string, status: string) {
    if before.issueId.Some? && before.issueId.value == issueId
    then after.issueStatus == status && after.(issueStatus := before.issueStatus) == before
    else after == before
  }

  /** What archiving an item archives: that item, and all items that name the same, non-empty issue id as the first
      item of its id does; every other item is as before. */
  ghost predicate ArchivesItem(before: seq<Item>, after: seq<Item>, id: string) {
    && |after| == |before|
    && forall i :: 0 <= i < |before| ==>
      if before[i].id == id || exists k: nat :: FirstOfId(before, id, k) && ArchivedAlong(before[k], before[i])
      then after[i].archived && after[i].(archived := before[i].archived) == before[i]
      else after[i] == before[i]
  }

  predicate FirstOfId(items: seq<Item>, id: string, k: nat) {
    k < |items| && items[k].id == id && forall j :: 0 <= j < k ==> items[j].id != id
  }

  lemma {:induction false} FirstItemIs(items: seq<Item>, id: string, k: nat)
    requires FirstOfId(items, id, k)
    ensures FirstItem(items, id) == Some(items[k])
  {
    if k > 0 {
      assert forall j :: 0 <= j < k ==> items[1..][j] == items[j + 1];
      FirstItemIs(items[1..], id, k - 1);
    }
  }

  lemma {:induction false} FirstItemAt(items: seq<Item>, id: string)
    ensures FirstItem(items, id).Some? ==> exists k: nat :: FirstOfId(items, id, k)
  {
    if items != [] {
      if items[0].id == id {
        assert FirstOfId(items, id, 0);
      } else {
        FirstItemAt(items[1..], id);
        if k: nat :| FirstOfId(items[1..], id, k) {
          assert forall j :: 0 <= j < |items| - 1 ==> items[1..][j] == items[j + 1];
          assert FirstOfId(items, id, k + 1);
        }
      }
    }
  }

  lemma ArchivedItems(items: seq<Item>, id: string)
    ensures ArchivesItem(items, Archived(items, id), id)
  {
    FirstItemAt(items, id);
    forall k: nat | FirstOfId(items, id, k) { FirstItemIs(items, id, k); }
  }

  class InboxQuery {
    var data: Option<seq<Item>>

    constructor (data: Option<seq<Item>>)
      ensures this.data == data
    {
      this.data := data;
    }

    method MarkReadOnMutate(id: string) returns (prev: Option<seq<Item>>)
      modifies this
      ensures prev == old(data)
      ensures data == if prev.Some? then Some(Map(ReadOne(id), prev.value)) else None
      ensures prev.Some? ==> |data.value| == |prev.value| && forall i :: 0 <= i < |prev.value| ==>
        data.value[i] == if prev.value[i].id == id then prev.value[i].(read := true) else prev.value[i]
      ensures prev.Some? && DistinctItems(prev.value) ==>
        |Filter(IsUnread, Dedup(data.value))| ==
          |Filter(IsUnread, Dedup(prev.value))| - if ShownUnread(Dedup(prev.value), id) then 1 else 0
    {
      if data.Some? && DistinctItems(data.value) { MarkReadCountsOnce(data.value, id); }
      prev := data;
      if data.Some? { data := Some(Map(ReadOne(id), data.value)); }
    }

    method ArchiveOnMutate(id: string) returns (prev: Option<seq<Item>>)
      modifies this
      ensures prev == old(data)
      ensures data == if prev.Some? then Some(Archived(prev.value, id)) else None
      ensures prev.Some? ==> ArchivesItem(prev.value, data.value, id)
      ensures prev.Some? && DistinctItems(prev.value) ==>
        forall x | x in prev.value && x.id == id && TakesItsGroupAlong(prev.value, x) ::
          Dedup(data.value) == Filter(LacksKey(KeyOf(x)), Dedup(prev.value))
    {
      if data.Some? { ArchivedItems(data.value, id); }
      if data.Some? && DistinctItems(data.value) {
        forall x | x in data.value && x.id == id { ArchiveDropsTheGroupIff(data.value, x); }
      }
      prev := data;
      var target := if prev.Some? then FirstItem(prev.value, id) else None;
      var issueId := if target.Some? then target.value.issueId else None;
      if data.Some? { data := Some(Map(ArchiveWith(id, issueId), data.value)); }
    }

    method MarkAllReadOnMutate() returns (prev: Option<seq<Item>>)
      modifies this
      ensures prev == old(data)
      ensures data == if prev.Some? then Some(Map(ReadActive, prev.value)) else None
      ensures prev.Some? ==> |data.value| == |prev.value| && forall i :: 0 <= i < |prev.value| ==>
        data.value[i] == if prev.value[i].archived then prev.value[i] else prev.value[i].(read := true)
      ensures prev.Some? ==> Filter(IsUnread, Dedup(data.value)) == []
    {
      if data.Some? { MarkAllReadCountsZero(data.value); }
      prev := data;
      if data.Some? { data := Some(Map(ReadActive, data.value)); }
    }

    method OnError(prev: Option<seq<Item>>)
      modifies this
      ensures data == if prev.Some? then prev else old(data)
    {
      if prev.Some? { data := prev; }
    }

    method OnInboxIssueDeleted(issueId: string)
      modifies this
      ensures data == if old(data).Some? then Some(Filter(OfOtherIssue(issueId), old(data).value)) else None
      ensures old(data).Some? ==>
        forall x :: x in data.value <==> x in old(data).value && !(x.issueId.Some? && x.issueId.value == issueId)
      ensures old(data).Some? && (forall y :: y in old(data).value && y.issueId.None? ==> y.id != issueId) ==>
        Dedup(data.value) == Filter(LacksKey(issueId), Dedup(old(data).value))
    {
      if data.Some? && forall y :: y in data.value && y.issueId.None? ==> y.id != issueId {
        IssueDeletedDropsTheGroup(data.value, issueId);
      }
      if data.Some? { data := Some(Filter(OfOtherIssue(issueId), data.value)); }
    }

    method OnInboxIssueStatusChanged(issueId: string, status: string)
      modifies this
      ensures data == if old(data).Some? then Some(Map(WithStatus(issueId, status), old(data).value)) else None
      ensures old(data).Some? ==> |data.value| == |old(data).value| && forall i :: 0 <= i < |data.value| ==>
        StatusSet(old(data).value[i], data.value[i], issueId, status)
      ensures old(data).Some? ==> Dedup(data.value) == Map(WithStatus(issueId, status), Dedup(old(data).value))
    {
      if data.Some? { StatusChangeKeepsTheList(data.value, issueId, status); }
      if data.Some? { data := Some(Map(WithStatus(issueId, status), data.value)); }
    }
  }

  ghost predicate DistinctItems(items: seq<Item>) {
    forall i, j :: 0 <= i < j < |items| ==> items[i].id != items[j].id
  }

  lemma SameId(items: seq<Item>, x: Item, y: Item)
    requires DistinctItems(items) && x in items && y in items && x.id == y.id
    ensures x == y
  {
    var i :| 0 <= i < |items| && items[i] == x;
    var j :| 0 <= j < |items| && items[j] == y;
    if i < j { } else if j < i { }
  }

  lemma {:induction false} FilterOfMarked(p: Item -> bool, q: Item -> bool, f: Item -> Item, s: seq<Item>)
    requires forall x :: x in s ==> p(f(x)) == q(x) && (q(x) ==> f(x) == x)
    ensures Filter(p, Map(f, s)) == Filter(q, s)
  {
    if s == [] {
      assert Map(f, s) == [];
    } else {
      assert s == [s[0]] + s[1..];
      FilterOfMarked(p, q, f, s[1..]);
      MapCons(f, s[0], s[1..]);
      FilterCons(p, f(s[0]), Map(f, s[1..]));
      FilterCons(q, s[0], s[1..]);
    }
  }

  /** Archiving x takes y along: they name the same, non-empty issue id. */
  predicate ArchivedAlong(x: Item, y: Item) {
    x.issueId.Some? && x.issueId.value != "" && y.issueId == x.issueId
  }

  ghost predicate TakesItsGroupAlong(items: seq<Item>, x: Item) {
    forall y :: y in items && !y.archived && KeyOf(y) == KeyOf(x) && y.id != x.id ==> ArchivedAlong(x, y)
  }

  lemma ArchivedIs(items: seq<Item>, x: Item)
    requires DistinctItems(items) && x in items
    ensures Archived(items, x.id) == Map(ArchiveWith(x.id, x.issueId), items)
  {
    SameId(items, x, FirstItem(items, x.id).value);
  }

  /** Archiving an item gives the old list without that item's group, in the same order, exactly when all
      other active items of the group name the item's issue by a non-empty id. */
  lemma ArchiveDropsTheGroupIff(items: seq<Item>, x: Item)
    requires DistinctItems(items) && x in items
    ensures Dedup(Archived(items, x.id)) == Filter(LacksKey(KeyOf(x)), Dedup(items)) <==> TakesItsGroupAlong(items, x)
  {
    ArchivedIs(items, x);
    if TakesItsGroupAlong(items, x) {
      ActiveAfterArchive(items, x);
      ActiveOfOtherKeys(items, KeyOf(x));
      DropGroup(items, Archived(items, x.id), KeyOf(x));
    } else {
      var y :| y in items && !y.archived && KeyOf(y) == KeyOf(x) && y.id != x.id && !ArchivedAlong(x, y);
      StaysBehind(items, ArchiveWith(x.id, x.issueId), y);
      var shown := DedupCoversEveryGroup(Archived(items, x.id), y);
      assert shown !in Filter(LacksKey(KeyOf(x)), Dedup(items));
    }
  }

  lemma StaysBehind(items: seq<Item>, f: Item -> Item, y: Item)
    requires y in items && f(y) == y
    ensures y in Map(f, items)
  {
    var i :| 0 <= i < |items| && items[i] == y;
    assert Map(f, items)[i] == y;
  }

  lemma ActiveAfterArchive(items: seq<Item>, x: Item)
    requires DistinctItems(items) && x in items && TakesItsGroupAlong(items, x)
    ensures Filter(IsActive, Map(ArchiveWith(x.id, x.issueId), items)) == Filter(ActiveLacking(KeyOf(x)), items)
  {
    var f, q := ArchiveWith(x.id, x.issueId), ActiveLacking(KeyOf(x));
    forall y | y in items ensures IsActive(f(y)) == q(y) && (q(y) ==> f(y) == y) {
      if y.id == x.id { SameId(items, x, y); }
    }
    FilterOfMarked(IsActive, q, f, items);
  }

  /** As the server keeps them: issue ids are not empty, and no item id is used as an issue id. */
  ghost predicate WellKeyed(items: seq<Item>) {
    && (forall x :: x in items && x.issueId.Some? ==> x.issueId.value != "")
    && (forall x, y :: x in items && y in items && x.issueId.Some? ==> x.issueId.value != y.id)
  }

  lemma ArchiveDropsTheGroup(items: seq<Item>, x: Item)
    requires DistinctItems(items) && WellKeyed(items) && x in items
    ensures Dedup(Archived(items, x.id)) == Filter(LacksKey(KeyOf(x)), Dedup(items))
  {
    ArchiveDropsTheGroupIff(items, x);
  }

  function ActiveLacking(k: string): Item -> bool {
    (x: Item) => KeyOf(x) != k && !x.archived
  }

  lemma {:induction false} ActiveOfOtherKeys(items: seq<Item>, k: string)
    ensures Filter(ActiveLacking(k), items) == Filter(LacksKey(k), Filter(IsActive, items))
  {
    if items != [] {
      assert items == [items[0]] + items[1..];
      ActiveOfOtherKeys(items[1..], k);
      FilterCons(ActiveLacking(k), items[0], items[1..]);
      FilterCons(IsActive, items[0], items[1..]);
      FilterCons(LacksKey(k), items[0], Filter(IsActive, items[1..]));
    }
  }

  /** An item with an empty issue id is grouped with others like it but leaves them behind. */
  lemma EmptyIssueIdKeepsTheGroup(items: seq<Item>, x: Item, y: Item)
    requires DistinctItems(items) && x in items && y in items && x.id != y.id && !y.archived
    requires x.issueId == Some("") && y.issueId == Some("")
    ensures Dedup(Archived(items, x.id)) != Filter(LacksKey(KeyOf(x)), Dedup(items))
  {
    ArchiveDropsTheGroupIff(items, x);
  }

  /** A deleted issue's group leaves the list. */
  lemma IssueDeletedDropsTheGroup(items: seq<Item>, issueId: string)
    requires forall y :: y in items && y.issueId.None? ==> y.id != issueId
    ensures Dedup(Filter(OfOtherIssue(issueId), items)) == Filter(LacksKey(issueId), Dedup(items))
  {
    FilterAgree(OfOtherIssue(issueId), LacksKey(issueId), items);
    FiltersCommute(items, issueId);
    DropGroup(items, Filter(OfOtherIssue(issueId), items), issueId);
  }

  lemma {:induction false} FiltersCommute(items: seq<Item>, k: string)
    ensures Filter(IsActive, Filter(LacksKey(k), items)) == Filter(LacksKey(k), Filter(IsActive, items))
  {
    if items != [] {
      assert items == [items[0]] + items[1..];
      FiltersCommute(items[1..], k);
      FilterCons(IsActive, items[0], items[1..]);
      FilterCons(LacksKey(k), items[0], items[1..]);
      FilterCons(LacksKey(k), items[0], Filter(IsActive, items[1..]));
      FilterCons(IsActive, items[0], Filter(LacksKey(k), items[1..]));
    }
  }

  /** A status change moves and counts nothing. */
  lemma StatusChangeKeepsTheList(items: seq<Item>, issueId: string, status: string)
    ensures Dedup(Map(WithStatus(issueId, status), items)) == Map(WithStatus(issueId, status), Dedup(items))
    ensures |Filter(IsUnread, Dedup(Map(WithStatus(issueId, status), items)))| == |Filter(IsUnread, Dedup(items))|
  {
    DedupOfMapped(WithStatus(issueId, status), items);
    FilterMap(IsUnread, IsUnread, WithStatus(issueId, status), Dedup(items));
  }

  lemma {:induction false} CountAfterRead(s: seq<Item>, id: string)
    requires DistinctItems(s)
    ensures |Filter(IsUnread, Map(ReadOne(id), s))| == |Filter(IsUnread, s)| - if ShownUnread(s, id) then 1 else 0
  {
    if s == [] {
      assert Map(ReadOne(id), s) == [];
    } else {
      var first, rest := s[0], s[1..];
      assert s == [first] + rest;
      TailItems(first, rest);
      CountAfterRead(rest, id);
      UnreadCons(first, rest, id);
      ShownUnreadCons(first, rest, id);
      assert first.id == id ==> !ShownUnread(rest, id);
    }
  }

  lemma TailItems(first: Item, rest: seq<Item>)
    requires DistinctItems([first] + rest)
    ensures DistinctItems(rest) && forall x :: x in rest ==> x.id != first.id
  {
    var s := [first] + rest;
    assert forall i :: 0 <= i < |rest| ==> rest[i] == s[i + 1];
    forall x | x in rest ensures x.id != first.id {
      var i :| 0 <= i < |rest| && rest[i] == x;
      assert s[0] == first && s[i + 1] == x;
    }
  }

  lemma UnreadCons(first: Item, rest: seq<Item>, id: string)
    ensures |Filter(IsUnread, [first] + rest)| == |Filter(IsUnread, rest)| + if IsUnread(first) then 1 else 0
    ensures |Filter(IsUnread, Map(ReadOne(id), [first] + rest))| == |Filter(IsUnread, Map(ReadOne(id), rest))|
      + if IsUnread(first) && first.id != id then 1 else 0
  {
    FilterCons(IsUnread, first, rest);
    MapCons(ReadOne(id), first, rest);
    FilterCons(IsUnread, ReadOne(id)(first), Map(ReadOne(id), rest));
  }

  /** The item is in the list, and unread. */
  predicate ShownUnread(s: seq<Item>, id: string) {
    exists x :: x in s && x.id == id && IsUnread(x)
  }

  lemma ShownUnreadCons(first: Item, rest: seq<Item>, id: string)
    ensures ShownUnread([first] + rest, id) <==> (first.id == id && IsUnread(first)) || ShownUnread(rest, id)
  {
    assert first in [first] + rest && forall x :: x in rest ==> x in [first] + rest;
  }

  /** Marking an item read lowers the unread count by one exactly when that item is shown and unread. */
  lemma MarkReadCountsOnce(items: seq<Item>, id: string)
    requires DistinctItems(items)
    ensures |Filter(IsUnread, Dedup(Map(ReadOne(id), items)))| ==
      |Filter(IsUnread, Dedup(items))| - if ShownUnread(Dedup(items), id) then 1 else 0
  {
    DedupOfMapped(ReadOne(id), items);
    DedupIdsDistinct(items);
    CountAfterRead(Dedup(items), id);
  }

  lemma DedupIdsDistinct(items: seq<Item>)
    requires DistinctItems(items)
    ensures DistinctItems(Dedup(items))
  {
    var r := Dedup(items);
    DedupIsSorted(items);
    forall i, j | 0 <= i < j < |r| ensures r[i].id != r[j].id {
      DedupShowsNewest(items, r[i]);
      DedupShowsNewest(items, r[j]);
      if r[i].id == r[j].id { SameId(items, r[i], r[j]); }
    }
  }

  /** Marking all read leaves nothing unread. */
  lemma MarkAllReadCountsZero(items: seq<Item>)
    ensures Filter(IsUnread, Dedup(Map(ReadActive, items))) == []
  {
    var f := (x: Item) => ReadActive(x);
    assert Map(ReadActive, items) == Map(f, items);
    DedupOfMapped(f, items);
    forall x | x in Dedup(items) ensures !x.archived { DedupShowsNewest(items, x); }
    FilterNone(IsUnread, Map(f, Dedup(items)));
  }
}
