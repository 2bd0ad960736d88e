// Coalescing of consecutive identical activities.

module TimelineCoalesce {
  import opened Options
  import opened Seqs
  import opened Sorting
  import opened Timeline

  const COALESCE_MS := 2 * 60 * 1000

  /** Reading a timestamp; None where `Date` yields NaN. */
  type Clock = string -> Option<int>

  const NO_TIME_LIMIT_ACTIONS := {"task_completed", "task_failed"}
  const NEVER_COALESCE_ACTIONS := {"squad_leader_evaluated"}

  predicate NoTimeLimit(action: string) {
    action in NO_TIME_LIMIT_ACTIONS
  }

  predicate NeverCoalesces(action: string) {
    action in NEVER_COALESCE_ACTIONS
  }

  function ActionOf(e: Entry): string {
    if e.action.Some? then e.action.value else ""
  }

  function Weight(e: Entry): int {
    if e.coalescedCount.Some? then e.coalescedCount.value else 1
  }

  predicate Close(time: Clock, a: Entry, b: Entry) {
    var s, t := time(a.createdAt), time(b.createdAt);
    s.Some? && t.Some? && -COALESCE_MS <= t.value - s.value <= COALESCE_MS
  }

  predicate Mergeable(time: Clock, prev: Entry, e: Entry) {
    && e.kind.Activity? && !NeverCoalesces(ActionOf(e)) && prev.kind.Activity?
    && prev.action == e.action && prev.actorType == e.actorType && prev.actorId == e.actorId
    && (NoTimeLimit(ActionOf(e)) || Close(time, prev, e))
  }

  /** Which entry may be merged into which previous row. */
  type Rule = (Entry, Entry) -> bool

  function MergeRule(time: Clock): Rule {
    (prev, e) => Mergeable(time, prev, e)
  }

  /** The rule does not look at the counts that rows have gathered. */
  ghost predicate IgnoresCounts(rule: Rule) {
    && (forall a, b, e :: SameButCount(a, b) ==> rule(a, e) == rule(b, e))
    && (forall a, b, e :: SameButCount(a, b) ==> rule(e, a) == rule(e, b))
  }

  ghost predicate SameButCount(a: Entry, b: Entry) {
    a == b.(coalescedCount := a.coalescedCount)
  }

  /** Entry i continues the run of the entry before it. */
  ghost predicate Continues(rule: Rule, entries: seq<Entry>, i: nat) {
    0 < i < |entries| && rule(entries[i - 1], entries[i])
  }

  /** Where the last maximal run of mergeable entries starts. */
  ghost function LastStart(rule: Rule, entries: seq<Entry>): (start: nat)
    requires entries != []
    ensures start < |entries|
    ensures forall i :: start < i < |entries| ==> Continues(rule, entries, i)
    ensures !Continues(rule, entries, start)
  {
    var n := |entries| - 1;
    if !Continues(rule, entries, n) then n
    else
      assert forall i: nat :: i < n ==> (Continues(rule, entries[..n], i) <==> Continues(rule, entries, i));
      LastStart(rule, entries[..n])
  }

  /** The row for a whole run: its last entry, counting all of it. */
  ghost function RunRow(run: seq<Entry>): Entry
    requires run != []
  {
    if |run| == 1 then run[0]
    else run[|run| - 1].(coalescedCount := Some(Weight(run[0]) + |run| - 1))
  }

  /** One row per maximal run. */
  ghost function Rows(rule: Rule, entries: seq<Entry>): seq<Entry> {
    if entries == [] then []
    else
      var start := LastStart(rule, entries);
      Rows(rule, entries[..start]) + [RunRow(entries[start..])]
  }

  lemma LastStartStep(rule: Rule, entries: seq<Entry>, e: Entry)
    requires entries != []
    ensures LastStart(rule, entries + [e]) ==
      if rule(entries[|entries| - 1], e) then LastStart(rule, entries) else |entries|
  {
    var longer, n := entries + [e], |entries|;
    assert longer[..n] == entries;
    assert Continues(rule, longer, n) <==> rule(entries[n - 1], e);
  }

  lemma LastRow(rule: Rule, entries: seq<Entry>, e: Entry)
    requires entries != [] && IgnoresCounts(rule)
    ensures var out := Rows(rule, entries);
      out != [] && (rule(out[|out| - 1], e) <==> rule(entries[|entries| - 1], e))
  {
    var start := LastStart(rule, entries);
    assert SameButCount(RunRow(entries[start..]), entries[|entries| - 1]);
  }

  lemma RunRowGrows(run: seq<Entry>, e: Entry)
    requires run != []
    ensures RunRow(run + [e]) == e.(coalescedCount := Some(Weight(RunRow(run)) + 1))
  {
    assert (run + [e])[|run|] == e && (run + [e])[0] == run[0];
  }

  lemma RunGrows(rule: Rule, entries: seq<Entry>, e: Entry)
    requires entries != [] && rule(entries[|entries| - 1], e)
    ensures Rows(rule, entries) != []
    ensures var out := Rows(rule, entries);
      Rows(rule, entries + [e]) == out[..|out| - 1] + [e.(coalescedCount := Some(Weight(out[|out| - 1]) + 1))]
  {
    var start := LastStart(rule, entries);
    LastStartStep(rule, entries, e);
    RunRowGrows(entries[start..], e);
    assert (entries + [e])[..start] == entries[..start];
    assert (entries + [e])[start..] == entries[start..] + [e];
    var before := Rows(rule, entries[..start]);
    assert (before + [RunRow(entries[start..])])[..|before|] == before;
  }

  lemma RunStarts(rule: Rule, entries: seq<Entry>, e: Entry)
    requires entries == [] || !rule(entries[|entries| - 1], e)
    ensures Rows(rule, entries + [e]) == Rows(rule, entries) + [e]
  {
    if entries != [] {
      LastStartStep(rule, entries, e);
    }
    assert (entries + [e])[..|entries|] == entries;
    assert (entries + [e])[|entries|..] == [e];
  }

  /** The rows after one more entry: merged into the last row, or a row of its own. */
  function Pushed(rule: Rule, out: seq<Entry>, e: Entry): seq<Entry> {
    if |out| > 0 && rule(out[|out| - 1], e)
    then out[|out| - 1 := e.(coalescedCount := Some(Weight(out[|out| - 1]) + 1))]
    else out + [e]
  }

  lemma RowsStep(rule: Rule, entries: seq<Entry>, e: Entry)
    requires IgnoresCounts(rule)
    ensures Rows(rule, entries + [e]) == Pushed(rule, Rows(rule, entries), e)
  {
    var out := Rows(rule, entries);
    if entries != [] {
      LastRow(rule, entries, e);
      if rule(entries[|entries| - 1], e) {
        RunGrows(rule, entries, e);
        var merged := e.(coalescedCount := Some(Weight(out[|out| - 1]) + 1));
        assert out[|out| - 1 := merged] == out[..|out| - 1] + [merged];
      } else {
        RunStarts(rule, entries, e);
      }
    } else {
      RunStarts(rule, entries, e);
    }
  }

  ghost function TotalWeight(out: seq<Entry>): int {
    if out == [] then 0 else TotalWeight(out[..|out| - 1]) + Weight(out[|out| - 1])
  }

  /** On raw entries the counts of the rows add up to the number of entries. */
  lemma {:induction false} CountsAreConserved(rule: Rule, entries: seq<Entry>)
    requires forall e :: e in entries ==> e.coalescedCount.None?
    ensures TotalWeight(Rows(rule, entries)) == |entries|
  {
    if entries != [] {
      var start := LastStart(rule, entries);
      CountsAreConserved(rule, entries[..start]);
      var out := Rows(rule, entries);
      assert out[..|out| - 1] == Rows(rule, entries[..start]);
    }
  }

  /** No entry could be merged into the one before it. */
  ghost predicate Settled(rule: Rule, s: seq<Entry>) {
    forall k :: 0 < k < |s| ==> !Continues(rule, s, k)
  }

  lemma SettledSnoc(rule: Rule, s: seq<Entry>, e: Entry)
    ensures Settled(rule, s + [e]) <==> Settled(rule, s) && (s == [] || !rule(s[|s| - 1], e))
  {
    assert forall k: nat :: k < |s| ==> (Continues(rule, s + [e], k) <==> Continues(rule, s, k));
    assert Continues(rule, s + [e], |s|) <==> s != [] && rule(s[|s| - 1], e);
  }

  lemma {:induction false} SettledStays(rule: Rule, s: seq<Entry>)
    requires Settled(rule, s)
    ensures Rows(rule, s) == s
  {
    if s != [] {
      var n := |s| - 1;
      assert LastStart(rule, s) == n;
      assert forall k :: 0 < k < n ==> (Continues(rule, s[..n], k) <==> Continues(rule, s, k));
      SettledStays(rule, s[..n]);
      assert s[n..] == [s[n]] && s == s[..n] + [s[n]];
    }
  }

  /** Rows never outnumber entries, and are as many only when nothing could be merged. */
  lemma {:induction false} RowsShrink(rule: Rule, s: seq<Entry>)
    ensures |Rows(rule, s)| <= |s| && (|Rows(rule, s)| == |s| ==> Settled(rule, s))
  {
    if s != [] {
      var start := LastStart(rule, s);
      RowsShrink(rule, s[..start]);
      if start == |s| - 1 {
        assert s == s[..start] + [s[start]];
        assert start > 0 ==> (Continues(rule, s, start) <==> rule(s[start - 1], s[start]));
        SettledSnoc(rule, s[..start], s[start]);
      }
    }
  }

  /** entries[i..j + 1] is a longest stretch in which every entry continues the one before it. */
  ghost predicate MaximalRun(rule: Rule, entries: seq<Entry>, i: nat, j: nat) {
    && i <= j < |entries|
    && !Continues(rule, entries, i) && !Continues(rule, entries, j + 1)
    && forall k :: i < k <= j ==> Continues(rule, entries, k)
  }

  /** The last entry of a maximal run could be merged into the entry before the run, though the first could not. */
  ghost predicate Reopens(rule: Rule, entries: seq<Entry>, i: nat, j: nat) {
    MaximalRun(rule, entries, i, j) && i > 0 && rule(entries[i - 1], entries[j])
  }

  ghost predicate SomeRunReopens(rule: Rule, entries: seq<Entry>) {
    exists i: nat, j: nat :: Reopens(rule, entries, i, j)
  }

  /** The last maximal run is entries[start..]. */
  ghost predicate StartsLastRun(rule: Rule, entries: seq<Entry>, start: nat) {
    entries != [] && MaximalRun(rule, entries, start, |entries| - 1)
  }

  lemma ReopensInPrefixOrLast(rule: Rule, entries: seq<Entry>, start: nat, i: nat, j: nat)
    requires StartsLastRun(rule, entries, start)
    ensures Reopens(rule, entries, i, j) <==>
      || Reopens(rule, entries[..start], i, j)
      || (i == start && j == |entries| - 1 && start > 0 && rule(entries[start - 1], entries[|entries| - 1]))
  {
    if j < start {
      RunOfPrefix(rule, entries, start, i, j);
    } else {
      RunPastStart(rule, entries, start, i, j);
    }
  }

  lemma RunOfPrefix(rule: Rule, entries: seq<Entry>, start: nat, i: nat, j: nat)
    requires j < start < |entries| && !Continues(rule, entries, start)
    ensures Reopens(rule, entries[..start], i, j) <==> Reopens(rule, entries, i, j)
  {
    var before := entries[..start];
    forall k: nat | k <= start
      ensures Continues(rule, before, k) <==> Continues(rule, entries, k)
    {
    }
    assert MaximalRun(rule, before, i, j) <==> MaximalRun(rule, entries, i, j);
    assert 0 < i <= j ==> before[i - 1] == entries[i - 1] && before[j] == entries[j];
  }

  lemma RunPastStart(rule: Rule, entries: seq<Entry>, start: nat, i: nat, j: nat)
    requires StartsLastRun(rule, entries, start) && start <= j
    ensures MaximalRun(rule, entries, i, j) <==> i == start && j == |entries| - 1
  {
    assert start < i < |entries| ==> Continues(rule, entries, i);
    assert j < |entries| - 1 ==> Continues(rule, entries, j + 1);
  }

  /** Merging stays possible between two rows exactly when some run reopens. */
  lemma {:induction false} SettledIffNoRunReopens(rule: Rule, entries: seq<Entry>)
    requires IgnoresCounts(rule)
    ensures Settled(rule, Rows(rule, entries)) <==> !SomeRunReopens(rule, entries)
  {
    if entries != [] {
      var start, n := LastStart(rule, entries), |entries| - 1;
      SettledIffNoRunReopens(rule, entries[..start]);
      assert StartsLastRun(rule, entries, start);
      forall i: nat, j: nat { ReopensInPrefixOrLast(rule, entries, start, i, j); }
      assert SomeRunReopens(rule, entries) <==>
        SomeRunReopens(rule, entries[..start]) || (start > 0 && rule(entries[start - 1], entries[n])) by {
        ReopensInPrefixOrLast(rule, entries, start, start, n);
      }
      var row := RunRow(entries[start..]);
      SettledSnoc(rule, Rows(rule, entries[..start]), row);
      if start > 0 {
        LastRow(rule, entries[..start], row);
        assert SameButCount(row, entries[n]);
      }
    }
  }

  /** A second pass changes nothing exactly when no run reopens. */
  lemma SecondPassIff(rule: Rule, entries: seq<Entry>)
    requires IgnoresCounts(rule)
    ensures Rows(rule, Rows(rule, entries)) == Rows(rule, entries) <==> !SomeRunReopens(rule, entries)
  {
    SettledIffNoRunReopens(rule, entries);
    RowsShrink(rule, Rows(rule, entries));
    if Settled(rule, Rows(rule, entries)) {
      SettledStays(rule, Rows(rule, entries));
    }
  }

  /** Entries satisfying p are never merged with anything, whatever their count. */
  ghost predicate Spares(rule: Rule, p: Entry -> bool) {
    && (forall a, b :: rule(a, b) ==> !p(a) && !p(b))
    && (forall a, b :: SameButCount(a, b) ==> p(a) == p(b))
  }

  lemma RowsSplit(rule: Rule, entries: seq<Entry>) returns (before: seq<Entry>, run: seq<Entry>)
    requires entries != []
    ensures entries == before + run && run != [] && |before| < |entries|
    ensures Rows(rule, entries) == Rows(rule, before) + [RunRow(run)]
    ensures forall j :: 0 < j < |run| ==> Continues(rule, run, j)
  {
    var start := LastStart(rule, entries);
    before, run := entries[..start], entries[start..];
    forall j | 0 < j < |run| ensures Continues(rule, run, j) {
      assert Continues(rule, entries, start + j);
    }
  }

  lemma {:induction false} SparedStay(rule: Rule, p: Entry -> bool, entries: seq<Entry>)
    requires Spares(rule, p)
    ensures Filter(p, Rows(rule, entries)) == Filter(p, entries)
    decreases |entries|
  {
    if entries != [] {
      var before, run := RowsSplit(rule, entries);
      SparedStay(rule, p, before);
      SparedInRun(rule, p, run);
      FilterPieces(p, Rows(rule, before), [RunRow(run)], before, run);
    }
  }

  lemma SparedInRun(rule: Rule, p: Entry -> bool, run: seq<Entry>)
    requires Spares(rule, p) && run != []
    requires forall j :: 0 < j < |run| ==> Continues(rule, run, j)
    ensures Filter(p, [RunRow(run)]) == Filter(p, run)
  {
    if |run| == 1 {
      assert run == [run[0]];
    } else {
      forall i | 0 <= i < |run| ensures !p(run[i]) {
        assert Continues(rule, run, if i > 0 then i else 1);
      }
      assert SameButCount(RunRow(run), run[|run| - 1]);
      FilterNone(p, run);
      FilterNone(p, [RunRow(run)]);
    }
  }

  // ----- The merge rule of timelines -----

  lemma MergeRuleIgnoresCounts(time: Clock)
    ensures IgnoresCounts(MergeRule(time))
  {
  }

  lemma RowsStepAt(rule: Rule, entries: seq<Entry>, i: nat)
    requires i < |entries| && IgnoresCounts(rule)
    ensures Rows(rule, entries[..i + 1]) == Pushed(rule, Rows(rule, entries[..i]), entries[i])
  {
    assert entries[..i + 1] == entries[..i] + [entries[i]];
    RowsStep(rule, entries[..i], entries[i]);
  }

  lemma MergeStep(time: Clock, entries: seq<Entry>, i: nat)
    requires i < |entries|
    ensures Rows(MergeRule(time), entries[..i + 1])
      == Pushed(MergeRule(time), Rows(MergeRule(time), entries[..i]), entries[i])
  {
    MergeRuleIgnoresCounts(time);
    RowsStepAt(MergeRule(time), entries, i);
  }

  method CoalesceTimeline(time: Clock, entries: seq<Entry>) returns (out: seq<Entry>)
    ensures out == Rows(MergeRule(time), entries)
  {
    out := [];
    for i := 0 to |entries|
      invariant out == Rows(MergeRule(time), entries[..i])
    {
      MergeStep(time, entries, i);
      out := PushEntry(time, out, entries[i]);
    }
    assert entries[..|entries|] == entries;
  }

  method PushEntry(time: Clock, out0: seq<Entry>, entry: Entry) returns (out: seq<Entry>)
    ensures out == Pushed(MergeRule(time), out0, entry)
  {
    out := out0;
    if |out| > 0 && Mergeable(time, out[|out| - 1], entry) {
      out := out[|out| - 1 := entry.(coalescedCount := Some(Weight(out[|out| - 1]) + 1))];
    } else {
      out := out + [entry];
    }
  }

  /** Comments and audit entries. */
  predicate StandsAlone(e: Entry) {
    e.kind.Comment? || NeverCoalesces(ActionOf(e))
  }

  lemma MergeRuleSparesAlone(time: Clock)
    ensures Spares(MergeRule(time), StandsAlone)
  {
  }

  /** Comments and audit entries come out one by one, untouched and in order. */
  lemma NeverMerged(time: Clock, entries: seq<Entry>)
    ensures Filter(StandsAlone, Rows(MergeRule(time), entries)) == Filter(StandsAlone, entries)
  {
    MergeRuleSparesAlone(time);
    SparedStay(MergeRule(time), StandsAlone, entries);
  }

  ghost predicate Chronological(time: Clock, entries: seq<Entry>) {
    && (forall e :: e in entries ==> time(e.createdAt).Some?)
    && forall i, j :: 0 <= i < j < |entries| ==> time(entries[i].createdAt).value <= time(entries[j].createdAt).value
  }

  /** Inside a run every entry carries the attributes that were compared. */
  lemma {:induction false} RunIsUniform(time: Clock, entries: seq<Entry>, start: nat, i: nat)
    requires start <= i < |entries|
    requires forall j :: start < j <= i ==> Continues(MergeRule(time), entries, j)
    ensures entries[i].kind == entries[start].kind && entries[i].action == entries[start].action
    ensures entries[i].actorType == entries[start].actorType && entries[i].actorId == entries[start].actorId
    decreases i
  {
    if i > start {
      RunIsUniform(time, entries, start, i - 1);
      assert Continues(MergeRule(time), entries, i);
    }
  }

  lemma GapOnlyWidens(time: Clock, prev: Entry, first: Entry, last: Entry)
    requires !Mergeable(time, prev, first)
    requires last.kind == first.kind && last.action == first.action
    requires last.actorType == first.actorType && last.actorId == first.actorId
    requires time(prev.createdAt).Some? && time(first.createdAt).Some? && time(last.createdAt).Some?
    requires time(prev.createdAt).value <= time(first.createdAt).value <= time(last.createdAt).value
    ensures !Mergeable(time, prev, last)
  {
  }

  /** In chronological input the gap to the entry before a run is widest at the end of the run. */
  lemma ChronologicalNeverReopens(time: Clock, entries: seq<Entry>, i: nat, j: nat)
    requires Chronological(time, entries)
    ensures !Reopens(MergeRule(time), entries, i, j)
  {
    if MaximalRun(MergeRule(time), entries, i, j) && i > 0 {
      RunIsUniform(time, entries, i, j);
      assert !Mergeable(time, entries[i - 1], entries[i]) && (i < j ==> i - 1 < j);
      GapOnlyWidens(time, entries[i - 1], entries[i], entries[j]);
    }
  }

  /** In chronological input no two neighbouring rows could be merged any more. */
  lemma RowsAreSettled(time: Clock, entries: seq<Entry>)
    requires Chronological(time, entries)
    ensures Settled(MergeRule(time), Rows(MergeRule(time), entries))
  {
    MergeRuleIgnoresCounts(time);
    SettledIffNoRunReopens(MergeRule(time), entries);
    forall i: nat, j: nat { ChronologicalNeverReopens(time, entries, i, j); }
  }

  /** Coalescing the rows once more changes nothing exactly when no run of mergeable entries ends within
      reach of the entry before it. */
  lemma SecondPassIsIdentityIff(time: Clock, entries: seq<Entry>)
    ensures Rows(MergeRule(time), Rows(MergeRule(time), entries)) == Rows(MergeRule(time), entries)
      <==> !SomeRunReopens(MergeRule(time), entries)
  {
    MergeRuleIgnoresCounts(time);
    SecondPassIff(MergeRule(time), entries);
  }

  lemma SecondPassIsIdentity(time: Clock, entries: seq<Entry>)
    requires Chronological(time, entries)
    ensures Rows(MergeRule(time), Rows(MergeRule(time), entries)) == Rows(MergeRule(time), entries)
  {
    SecondPassIsIdentityIff(time, entries);
    forall i: nat, j: nat { ChronologicalNeverReopens(time, entries, i, j); }
  }

  /** Going back in time can leave neighbours that a second pass would merge. */
  lemma BackwardsTimeLeavesMergeableRows(time: Clock, x: Entry)
    requires x.kind.Activity? && x.action == Some("status_changed")
    requires time("a") == Some(0) && time("b") == Some(200000) && time("c") == Some(100000)
    ensures var entries := [x.(createdAt := "a"), x.(createdAt := "b"), x.(createdAt := "c")];
      Rows(MergeRule(time), Rows(MergeRule(time), entries)) != Rows(MergeRule(time), entries)
  {
    var rule, entries := MergeRule(time), [x.(createdAt := "a"), x.(createdAt := "b"), x.(createdAt := "c")];
    assert !Continues(rule, entries, 1) && Continues(rule, entries, 2) && !Continues(rule, entries, 3);
    assert Reopens(rule, entries, 1, 2);
    SecondPassIsIdentityIff(time, entries);
  }

  /** Two entries become one row exactly when both are activities of one actor and action, the action is not the
      evaluation of a squad leader, and they are at most two minutes apart or a task was completed or failed. The row
      is the later entry and counts both. */
  lemma AlikeMergeWithinTwoMinutes(time: Clock, a: Entry, b: Entry)
    ensures Rows(MergeRule(time), [a, b]) ==
      if Alike(a, b) && (b.action in {Some("task_completed"), Some("task_failed")} || WithinTwoMinutes(time, a, b))
      then [b.(coalescedCount := Some((if a.coalescedCount.Some? then a.coalescedCount.value else 1) + 1))]
      else [a, b]
  {
    MergeRuleIgnoresCounts(time);
    RowsOfTwo(MergeRule(time), a, b);
    assert Alike(a, b) ==> (b.action in {Some("task_completed"), Some("task_failed")} <==> NoTimeLimit(ActionOf(b)));
  }

  lemma RowsOfTwo(rule: Rule, a: Entry, b: Entry)
    requires IgnoresCounts(rule)
    ensures Rows(rule, [a, b]) == if rule(a, b) then [b.(coalescedCount := Some(Weight(a) + 1))] else [a, b]
  {
    RowsStep(rule, [], a);
    RowsStep(rule, [a], b);
    var merged := b.(coalescedCount := Some(Weight(a) + 1));
    assert [] + [a] == [a] && [a] + [b] == [a, b] && [a][0 := merged] == [merged];
  }

  predicate Alike(a: Entry, b: Entry) {
    && a.kind.Activity? && b.kind.Activity? && b.action != Some("squad_leader_evaluated")
    && a.action == b.action && a.actorType == b.actorType && a.actorId == b.actorId
  }

  predicate WithinTwoMinutes(time: Clock, a: Entry, b: Entry) {
    && time(a.createdAt).Some? && time(b.createdAt).Some?
    && -120000 <= time(b.createdAt).value - time(a.createdAt).value <= 120000
  }
}
