// The mention composer: typing, the `@` button and picking a suggestion, and
// when its text and markers still serialize to links.

module Composer {
  import opened Options
  import opened Seqs
  import opened Mentions
  import opened ChipText

  function Upto(s: string, n: nat): string {
    if n <= |s| then s[..n] else s
  }

  function From(s: string, n: nat): string {
    if n <= |s| then s[n..] else []
  }

  datatype Insertion = Insertion(newText: string, cursor: nat)

  /** The `@` and its query replaced by a marked chip and a space. */
  function InsertMention(text: string, start: nat, queryLength: nat, m: Marker): Insertion {
    var before := Upto(text, start);
    var insert := [SENTINEL, '@'] + m.name + " ";
    Insertion(before + insert + From(text, start + 1 + queryLength), |before| + |insert|)
  }

  class MentionInput {
    var text: string
    var selStart: nat
    var selEnd: nat
    var markers: seq<Marker>
    var mentioning: Option<Mentioning>

    constructor ()
      ensures text == [] && selStart == selEnd == 0 && markers == [] && mentioning == None
    {
      text, selStart, selEnd, markers, mentioning := [], 0, 0, [], None;
    }

    /** The suggestion state is the token under a cursor. */
    ghost predicate Mentions(cursor: int)
      reads this
    {
      if mentioning.Some?
      then TokenAt(text, cursor, mentioning.value.start)
        && mentioning.value.query == text[mentioning.value.start + 1..cursor]
      else forall i: nat :: !TokenAt(text, cursor, i)
    }

    method OnChangeText(next: string)
      modifies this
      ensures text == next && markers == old(markers) && selStart == old(selStart) && selEnd == old(selEnd)
      ensures Mentions(selEnd)
    {
      text := next;
      mentioning := TokenAtCursor(next, selEnd);
    }

    method OnSelectionChange(start: nat, end: nat)
      modifies this
      ensures selStart == start && selEnd == end && text == old(text) && markers == old(markers)
      ensures Mentions(end)
    {
      selStart, selEnd := start, end;
      mentioning := TokenAtCursor(text, end);
    }

    /** The button always opens the suggestions with an empty query. */
    method OnAtButtonPress()
      modifies this
      ensures selStart == selEnd > 0 && mentioning == Some(Mentioning(selEnd - 1, []))
      ensures Upto(old(text), old(selStart)) <= text && markers == old(markers)
      ensures var before := Upto(old(text), old(selStart));
        text == before + ((if before == [] || IsSpace(before[|before| - 1]) then "" else " ") + "@")
                + From(old(text), old(selEnd))
    {
      var before, after := Upto(text, selStart), From(text, selEnd);
      var pad := if |before| > 0 && !IsSpace(before[|before| - 1]) then " " else "";
      var next, cursor := before + (pad + "@") + after, |before| + |pad| + 1;
      text, selStart, selEnd := next, cursor, cursor;
      mentioning := TokenAtCursor(next, cursor);
      assert TokenAt(next, cursor, cursor - 1) by {
        assert next[cursor - 1] == '@';
        if pad == " " { assert next[cursor - 2] == ' '; }
        else if |before| > 0 { assert next[cursor - 2] == before[|before| - 1]; }
      }
      TokenUnique(next, cursor, cursor - 1, mentioning.value.start);
    }

    method OnSelectMention(m: Marker)
      modifies this
      ensures old(mentioning).None? ==>
        text == old(text) && markers == old(markers) && selStart == old(selStart) && selEnd == old(selEnd)
      ensures old(mentioning).Some? ==>
        var ins := InsertMention(old(text), old(mentioning).value.start, |old(mentioning).value.query|, m);
        text == ins.newText && selStart == selEnd == ins.cursor && markers == old(markers) + [m]
      ensures mentioning == None
    {
      if mentioning.Some? {
        var ins := InsertMention(text, mentioning.value.start, |mentioning.value.query|, m);
        text, selStart, selEnd := ins.newText, ins.cursor, ins.cursor;
        markers := markers + [m];
        mentioning := None;
      }
    }

    method Serialize() returns (r: string)
      ensures r == Serialized(text, markers)
    {
      r := SerializeMentions(text, markers);
    }
  }

  lemma TokenUnique(text: string, cursor: int, i: nat, j: nat)
    requires TokenAt(text, cursor, i) && TokenAt(text, cursor, j)
    ensures i == j
  {
  }

  // ----- Tokens of joined texts -----

  /** A text whose end cannot reach into what follows. */
  predicate Closed(a: string) {
    a == [] || IsSpace(a[|a| - 1])
  }

  lemma {:induction false} WordStopsInside(a: string, b: string)
    requires a != [] && IsSpace(a[|a| - 1])
    ensures WordLength(a + b) == WordLength(a) < |a|
  {
    WordLengthIs(a + b, WordLength(a));
  }

  lemma RunsOfPlainHead(text: string)
    requires text != [] && text[0] != SENTINEL
    ensures Runs(Tokens(text)) == Runs(Tokens(text[1..]))
  {
    assert Tokens(text)[1..] == Tokens(text[1..]);
  }

  lemma {:induction false} RunsConcat(a: string, b: string)
    requires Closed(a)
    ensures Runs(Tokens(a + b)) == Runs(Tokens(a)) + Runs(Tokens(b))
    decreases |a|
  {
    if a == [] {
      assert a + b == b;
    } else {
      if a[0] == SENTINEL && a[1] == '@' {
        var n := WordLength(a[2..]);
        RunHeadConcat(a, b);
        RunsConcat(a[2..][n..], b);
        ConcatAssociates([a[2..][..n]], Runs(Tokens(a[2..][n..])), Runs(Tokens(b)));
      } else {
        SkipHeadConcat(a, b);
        RunsConcat(a[1..], b);
      }
    }
  }

  lemma SkipHeadConcat(a: string, b: string)
    requires a != [] && Closed(a) && !(a[0] == SENTINEL && a[1] == '@')
    ensures Closed(a[1..])
    ensures Runs(Tokens(a)) == Runs(Tokens(a[1..])) && Runs(Tokens(a + b)) == Runs(Tokens(a[1..] + b))
  {
    ClosedTail(a, b);
    SkipHead(a);
    SkipHead(a + b);
  }

  lemma ClosedTail(a: string, b: string)
    requires a != [] && Closed(a)
    ensures Closed(a[1..]) && (a + b)[1..] == a[1..] + b && (a + b)[0] == a[0]
    ensures a[0] == SENTINEL ==> |a| > 1 && (a + b)[1] == a[1]
  {
    assert !IsSpace(SENTINEL);
    if |a| > 1 { assert a[1..][|a| - 2] == a[|a| - 1]; }
  }

  /** A head that starts no run can be skipped. */
  lemma SkipHead(text: string)
    requires text != [] && !(|text| > 1 && text[0] == SENTINEL && text[1] == '@')
    ensures Runs(Tokens(text)) == Runs(Tokens(text[1..]))
  {
    if text[0] == SENTINEL { TokensOfStray(text, []); } else { RunsOfPlainHead(text); }
  }

  lemma RunHeadConcat(a: string, b: string)
    requires |a| > 2 && a[0] == SENTINEL && a[1] == '@' && IsSpace(a[|a| - 1])
    ensures var n := WordLength(a[2..]);
      && n < |a[2..]| && Closed(a[2..][n..])
      && Runs(Tokens(a)) == [a[2..][..n]] + Runs(Tokens(a[2..][n..]))
      && Runs(Tokens(a + b)) == [a[2..][..n]] + Runs(Tokens(a[2..][n..] + b))
  {
    var tail, n := a[2..], WordLength(a[2..]);
    assert (a + b)[2..] == tail + b;
    WordStopsInside(tail, b);
    assert (tail + b)[..n] == tail[..n] && (tail + b)[n..] == tail[n..] + b;
    TokensOfRun(a, n, []);
    TokensOfRun(a + b, n, []);
  }

  lemma {:induction false} RunsHaveNoSpace(text: string)
    ensures forall w :: w in Runs(Tokens(text)) ==> NoSpace(w)
    decreases |text|
  {
    if text != [] {
      if text[0] != SENTINEL {
        RunsHaveNoSpace(text[1..]);
        assert Tokens(text)[1..] == Tokens(text[1..]);
      } else if |text| < 2 || text[1] != '@' {
        RunsHaveNoSpace(text[1..]);
        TokensOfStray(text, []);
      } else {
        var n := WordLength(text[2..]);
        RunsHaveNoSpace(text[2..][n..]);
        TokensOfRun(text, n, []);
      }
    }
  }

  /** The first word of a name: what a chip for it reads back as. */
  function FirstWord(name: string): string {
    name[..WordLength(name)]
  }

  /** The chip inserted for m reads back as one run, when the name hides no further marks. */
  lemma InsertedRuns(before: string, m: Marker, after: string)
    requires Closed(before) && SENTINEL !in m.name
    ensures Runs(Tokens(before + ([SENTINEL, '@'] + m.name + " ") + after))
      == Runs(Tokens(before)) + [FirstWord(m.name)] + Runs(Tokens(after))
  {
    var chip := [SENTINEL, '@'] + m.name + " ";
    ChipRuns(m);
    RunsOfThree(before, chip, after);
  }

  lemma RunsOfThree(a: string, b: string, c: string)
    requires Closed(a) && Closed(b)
    ensures Runs(Tokens(a + b + c)) == Runs(Tokens(a)) + Runs(Tokens(b)) + Runs(Tokens(c))
  {
    RunsConcat(a, b);
    assert Closed(a + b);
    RunsConcat(a + b, c);
  }

  lemma ChipRuns(m: Marker)
    requires SENTINEL !in m.name
    ensures Runs(Tokens([SENTINEL, '@'] + m.name + " ")) == [FirstWord(m.name)]
  {
    var chip, n := [SENTINEL, '@'] + m.name + " ", WordLength(m.name);
    assert chip[2..] == m.name + " ";
    WordLengthIs(chip[2..], n);
    TokensOfRun(chip, n, []);
    assert chip[2..][..n] == FirstWord(m.name);
    var rest := chip[2..][n..];
    assert rest == m.name[n..] + " " && SENTINEL !in " ";
    TokensAfterPlain(rest, [], []);
    assert rest + [] == rest;
  }

  lemma QueryHidesNoRuns(query: string, after: string)
    requires SENTINEL !in query
    ensures Runs(Tokens("@" + query + after)) == Runs(Tokens(after))
  {
    assert SENTINEL !in "@";
    TokensAfterPlain("@" + query, after, []);
  }

  lemma {:induction false} ShiftedConstant<T(!new)>(w: T, ws: seq<T>, name: T)
    ensures [w] + ws == ws + [name] <==> w == name && forall x :: x in ws ==> x == name
    decreases |ws|
  {
    if ws == [] {
      assert [w] + ws == [w] && ws + [name] == [name];
    } else {
      var rest := ws[1..];
      assert ws == [ws[0]] + rest;
      ShiftedConstant(ws[0], rest, name);
      assert ([w] + ws)[1..] == [ws[0]] + rest && (ws + [name])[1..] == rest + [name];
      assert ([w] + ws)[0] == w && (ws + [name])[0] == ws[0];
      if [w] + ws == ws + [name] { assert [ws[0]] + rest == rest + [name]; }
      if w == name && (forall x :: x in ws ==> x == name) {
        assert forall k :: 0 <= k < |ws| ==> ws[k] in ws;
        assert forall k :: 0 <= k <= |ws| ==> ([w] + ws)[k] == name && (ws + [name])[k] == name;
      }
    }
  }

  /** Picking a suggestion keeps text and markers in step exactly when the picked name is one word and
      every chip to the right of the cursor already carries that same name. */
  lemma SelectKeepsLinksIff(text: string, markers: seq<Marker>, cursor: int, start: nat, m: Marker)
    requires TokenAt(text, cursor, start) && SENTINEL !in text[start + 1..cursor] && SENTINEL !in m.name
    requires Consistent(text, markers)
    ensures Consistent(InsertMention(text, start, cursor - start - 1, m).newText, markers + [m])
      <==> NoSpace(m.name) && forall w :: w in Runs(Tokens(text[cursor..])) ==> w == m.name
  {
    var newText := InsertMention(text, start, cursor - start - 1, m).newText;
    var A, B := Runs(Tokens(text[..start])), Runs(Tokens(text[cursor..]));
    RunsAroundToken(text, cursor, start);
    RunsAfterInsert(text, cursor, start, m);
    assert Names(markers + [m]) == Names(markers) + [m.name];
    RunsShift(A, FirstWord(m.name), B, m.name);
    if NoSpace(m.name) { WordLengthIs(m.name, |m.name|); }
  }

  lemma RunsAfterInsert(text: string, cursor: int, start: nat, m: Marker)
    requires TokenAt(text, cursor, start) && SENTINEL !in m.name
    ensures Runs(Tokens(InsertMention(text, start, cursor - start - 1, m).newText))
      == Runs(Tokens(text[..start])) + [FirstWord(m.name)] + Runs(Tokens(text[cursor..]))
  {
    var before := text[..start];
    if start > 0 { assert before[start - 1] == text[start - 1]; }
    InsertedRuns(before, m, text[cursor..]);
  }

  lemma RunsAroundToken(text: string, cursor: int, start: nat)
    requires TokenAt(text, cursor, start) && SENTINEL !in text[start + 1..cursor]
    ensures Closed(text[..start])
    ensures Runs(Tokens(text)) == Runs(Tokens(text[..start])) + Runs(Tokens(text[cursor..]))
  {
    var before, query, after := text[..start], text[start + 1..cursor], text[cursor..];
    if start > 0 { assert before[start - 1] == text[start - 1]; }
    assert text == before + ("@" + query + after);
    RunsConcat(before, "@" + query + after);
    QueryHidesNoRuns(query, after);
  }

  lemma RunsShift(a: seq<string>, w: string, b: seq<string>, name: string)
    ensures a + [w] + b == a + b + [name] <==> w == name && forall x :: x in b ==> x == name
  {
    assert a + [w] + b == a + ([w] + b) && a + b + [name] == a + (b + [name]);
    PrefixCancels(a, [w] + b, b + [name]);
    ShiftedConstant(w, b, name);
  }

  lemma PrefixCancels<T>(a: seq<T>, b: seq<T>, c: seq<T>)
    ensures a + b == a + c <==> b == c
  {
    if a + b == a + c {
      assert b == (a + b)[|a|..] && c == (a + c)[|a|..];
    }
  }

  /** Picking any other mention costs the message all its links: it is sent as the text without marks. */
  lemma OutOfStepDropsEveryMark(text: string, markers: seq<Marker>, cursor: int, start: nat, m: Marker)
    requires TokenAt(text, cursor, start) && SENTINEL !in text[start + 1..cursor] && SENTINEL !in m.name
    requires Consistent(text, markers)
    requires !NoSpace(m.name) || exists w :: w in Runs(Tokens(text[cursor..])) && w != m.name
    ensures var after := InsertMention(text, start, cursor - start - 1, m).newText;
      && Serialized(after, markers + [m]) == StripSentinels(after)
      && SENTINEL !in Serialized(after, markers + [m])
  {
    SelectKeepsLinksIff(text, markers, cursor, start, m);
  }

  // ----- Which marker a chip links to -----

  lemma {:induction false} PiecesConcat(a: seq<Piece>, b: seq<Piece>)
    ensures Shown(a + b) == Shown(a) + Shown(b) && MarkersOf(a + b) == MarkersOf(a) + MarkersOf(b)
  {
    if a == [] {
      assert a + b == b;
    } else {
      var own := if a[0].Text? then a[0].s else [SENTINEL, '@'] + a[0].m.name;
      var mark := if a[0].Text? then [] else [a[0].m];
      assert (a + b)[1..] == a[1..] + b && (a + b)[0] == a[0];
      PiecesConcat(a[1..], b);
      ConcatAssociates(own, Shown(a[1..]), Shown(b));
      ConcatAssociates(mark, MarkersOf(a[1..]), MarkersOf(b));
    }
  }

  /** The same pieces, the k-th chip carrying the k-th marker of the list. */
  function Paired(ps: seq<Piece>, markers: seq<Marker>): seq<Piece>
    requires |markers| == |MarkersOf(ps)|
  {
    if ps == [] then []
    else if ps[0].Text? then [ps[0]] + Paired(ps[1..], markers)
    else [Chip(markers[0])] + Paired(ps[1..], markers[1..])
  }

  lemma {:induction false} PairedShowsTheSame(ps: seq<Piece>, markers: seq<Marker>)
    requires Names(markers) == Names(MarkersOf(ps))
    ensures |markers| == |MarkersOf(ps)|
    ensures Shown(Paired(ps, markers)) == Shown(ps) && MarkersOf(Paired(ps, markers)) == markers
    ensures ChipsDelimited(ps) ==> ChipsDelimited(Paired(ps, markers))
  {
    assert |Names(markers)| == |markers| && |Names(MarkersOf(ps))| == |MarkersOf(ps)|;
    if ps != [] {
      if ps[0].Text? {
        assert [] + MarkersOf(ps[1..]) == MarkersOf(ps[1..]);
        PairedShowsTheSame(ps[1..], markers);
        PiecesConcat([ps[0]], Paired(ps[1..], markers));
        assert ([ps[0]] + Paired(ps[1..], markers))[1..] == Paired(ps[1..], markers);
        assert [] + markers == markers;
      } else {
        var rest := markers[1..];
        TailNames(markers, ps[0].m, MarkersOf(ps[1..]));
        PairedShowsTheSame(ps[1..], rest);
        assert ([Chip(markers[0])] + Paired(ps[1..], rest))[1..] == Paired(ps[1..], rest);
        assert [markers[0]] + rest == markers;
      }
    }
  }

  lemma TailNames(markers: seq<Marker>, m: Marker, rest: seq<Marker>)
    requires Names(markers) == Names([m] + rest) && markers != []
    ensures markers[0].name == m.name && Names(markers[1..]) == Names(rest)
  {
    assert Names(markers)[0] == markers[0].name && Names([m] + rest)[0] == m.name;
    assert Names(markers)[1..] == Names(markers[1..]);
    assert Names([m] + rest)[1..] == Names(rest);
  }

  /** Whenever the names agree, the k-th chip links to the k-th marker, whosever it is. */
  lemma ChipsLinkInOrder(ps: seq<Piece>, markers: seq<Marker>)
    requires ChipsDelimited(ps) && Names(markers) == Names(MarkersOf(ps))
    ensures |markers| == |MarkersOf(ps)| && Serialized(Shown(ps), markers) == Linked(Paired(ps, markers))
  {
    PairedShowsTheSame(ps, markers);
    SerializeLinksEveryChip(Paired(ps, markers));
  }

  /** Picking a mention between pieces: every chip goes on linking to its own marker exactly when all chips
      behind the picked one carry that very marker. With people of one name it can be another's. */
  lemma SelectKeepsOwnMarkersIff(ps: seq<Piece>, query: string, qs: seq<Piece>, m: Marker)
    requires ChipsDelimited(ps + [Chip(m), Text(" ")] + qs)
    ensures var after, markers := ps + [Chip(m), Text(" ")] + qs, MarkersOf(ps) + MarkersOf(qs) + [m];
      && InsertMention(Shown(ps) + ("@" + query) + Shown(qs), |Shown(ps)|, |query|, m).newText == Shown(after)
      && (markers == MarkersOf(after) <==> forall x :: x in MarkersOf(qs) ==> x == m)
      && (Names(markers) == Names(MarkersOf(after)) ==>
            |markers| == |MarkersOf(after)| && Serialized(Shown(after), markers) == Linked(Paired(after, markers)))
      && (markers == MarkersOf(after) ==> Serialized(Shown(after), markers) == Linked(after))
  {
    var chip, after := [Chip(m), Text(" ")], ps + [Chip(m), Text(" ")] + qs;
    var markers := MarkersOf(ps) + MarkersOf(qs) + [m];
    ChipAndSpace(m);
    PiecesConcat(ps, chip);
    PiecesConcat(ps + chip, qs);
    InsertedText(Shown(ps), query, Shown(qs), m);
    MarkersShift(MarkersOf(ps), m, MarkersOf(qs));
    if Names(markers) == Names(MarkersOf(after)) { ChipsLinkInOrder(after, markers); }
    if markers == MarkersOf(after) { SerializeLinksEveryChip(after); }
  }

  lemma ChipAndSpace(m: Marker)
    ensures Shown([Chip(m), Text(" ")]) == [SENTINEL, '@'] + m.name + " " && MarkersOf([Chip(m), Text(" ")]) == [m]
  {
    var chip, space := [Chip(m)], [Text(" ")];
    assert [Chip(m), Text(" ")] == chip + space && chip[1..] == [] && space[1..] == [];
    PiecesConcat(chip, space);
    assert MarkersOf(chip) == [m] + MarkersOf([]) && MarkersOf(space) == [] + MarkersOf([]);
  }

  /** A pick replaces the `@` and the query by the chip and a space, and leaves the cursor right behind them. */
  lemma InsertedText(before: string, query: string, after: string, m: Marker)
    ensures var ins := InsertMention(before + ("@" + query) + after, |before|, |query|, m);
      && ins.newText == before + ([SENTINEL, '@'] + m.name + " ") + after
      && ins.newText[..ins.cursor] == before + ([SENTINEL, '@'] + m.name + " ")
  {
    var text := before + ("@" + query) + after;
    assert text[..|before|] == before && text[|before| + 1 + |query|..] == after;
  }

  lemma MarkersShift(a: seq<Marker>, m: Marker, b: seq<Marker>)
    ensures a + b + [m] == a + [m] + b <==> forall x :: x in b ==> x == m
  {
    assert a + [m] + b == a + ([m] + b) && a + b + [m] == a + (b + [m]);
    PrefixCancels(a, [m] + b, b + [m]);
    ShiftedConstant(m, b, m);
  }
}
