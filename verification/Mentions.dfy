// Serialization of composer text: chips marked by an invisible separator become
// mention links, or all marks are dropped.

module Mentions {
  import opened Options
  import opened Seqs

  const SENTINEL := '\U{2063}'

  datatype MentionType = Member | Agent | Squad | All | IssueRef

  datatype Marker = Marker(kind: MentionType, id: string, name: string)

  /** The characters matched by `\s`. */
  predicate IsSpace(c: char) {
    || '\t' <= c <= '\r' || c == ' ' || c == '\U{00A0}' || c == '\U{1680}' || '\U{2000}' <= c <= '\U{200A}'
    || c == '\U{2028}' || c == '\U{2029}' || c == '\U{202F}' || c == '\U{205F}' || c == '\U{3000}' || c == '\U{FEFF}'
  }

  /** They are the white space and line terminators of ECMAScript, one by one. */
  lemma SpacesAre(c: char)
    ensures IsSpace(c) <==>
      c in {'\t', '\n', '\U{000B}', '\U{000C}', '\r', ' ', '\U{00A0}', '\U{1680}', '\U{2000}', '\U{2001}', '\U{2002}',
            '\U{2003}', '\U{2004}', '\U{2005}', '\U{2006}', '\U{2007}', '\U{2008}', '\U{2009}', '\U{200A}', '\U{2028}',
            '\U{2029}', '\U{202F}', '\U{205F}', '\U{3000}', '\U{FEFF}'}
  {
  }

  predicate NoSpace(s: string) {
    forall i :: 0 <= i < |s| ==> !IsSpace(s[i])
  }

  // ----- The token under the cursor -----

  datatype Mentioning = Mentioning(start: nat, query: string)

  /** An `@` at i, at a word start, with nothing but the word between it and the cursor. */
  predicate TokenAt(text: string, cursor: int, i: nat) {
    && i < cursor <= |text| && text[i] == '@'
    && (i == 0 || IsSpace(text[i - 1]))
    && forall j :: i < j < cursor ==> text[j] != '@' && !IsSpace(text[j])
  }

  method TokenAtCursor(text: string, cursor: int) returns (r: Option<Mentioning>)
    ensures r.Some? ==> TokenAt(text, cursor, r.value.start) && r.value.query == text[r.value.start + 1..cursor]
    ensures r.None? ==> forall i: nat :: !TokenAt(text, cursor, i)
  {
    if cursor < 1 || cursor > |text| { return None; }
    var i := cursor - 1;
    while i >= 0 && text[i] != '@'
      invariant -1 <= i < cursor
      invariant forall j :: i < j < cursor ==> text[j] != '@' && !IsSpace(text[j])
      decreases i
    {
      if IsSpace(text[i]) { return None; }
      i := i - 1;
    }
    if i < 0 { return None; }
    if i > 0 && text[i - 1] == SENTINEL { return None; }
    if i > 0 && !IsSpace(text[i - 1]) { return None; }
    return Some(Mentioning(i, text[i + 1..cursor]));
  }

  // ----- Reading text as tokens -----

  datatype Token = Plain(c: char) | Stray | Run(word: string)

  /** The number of characters before the first white space. */
  function WordLength(s: string): (n: nat)
    ensures n <= |s|
    ensures forall i :: 0 <= i < n ==> !IsSpace(s[i])
    ensures n < |s| ==> IsSpace(s[n])
  {
    if s == [] || IsSpace(s[0]) then 0
    else
      var n := WordLength(s[1..]);
      assert forall i :: 0 <= i < n ==> s[i + 1] == s[1..][i];
      assert forall i :: 1 <= i < n + 1 ==> s[i] == s[1..][i - 1];
      n + 1
  }

  function Tokens(text: string): seq<Token>
    decreases |text|
  {
    if text == [] then []
    else if text[0] != SENTINEL then [Plain(text[0])] + Tokens(text[1..])
    else if |text| < 2 || text[1] != '@' then [Stray] + Tokens(text[1..])
    else
      var n := WordLength(text[2..]);
      [Run(text[2..][..n])] + Tokens(text[2..][n..])
  }

  /** The text that a token list stands for. */
  function Untokenize(ts: seq<Token>): string {
    if ts == [] then []
    else (match ts[0]
          case Plain(c) => [c]
          case Stray => [SENTINEL]
          case Run(w) => [SENTINEL, '@'] + w) + Untokenize(ts[1..])
  }

  /** Reading into tokens loses nothing. */
  lemma {:induction false} TokensLossless(text: string)
    ensures Untokenize(Tokens(text)) == text
    decreases |text|
  {
    if text != [] {
      if text[0] != SENTINEL {
        TokensLossless(text[1..]);
        assert ([Plain(text[0])] + Tokens(text[1..]))[1..] == Tokens(text[1..]);
      } else if |text| < 2 || text[1] != '@' {
        TokensLossless(text[1..]);
        assert ([Stray] + Tokens(text[1..]))[1..] == Tokens(text[1..]);
      } else {
        var n := WordLength(text[2..]);
        var w, rest := text[2..][..n], text[2..][n..];
        TokensLossless(rest);
        assert ([Run(w)] + Tokens(rest))[1..] == Tokens(rest);
        assert text == [SENTINEL, '@'] + w + rest;
      }
    }
  }

  /** The words behind marked `@`s, in text order. */
  function Runs(ts: seq<Token>): seq<string> {
    if ts == [] then []
    else (if ts[0].Run? then [ts[0].word] else []) + Runs(ts[1..])
  }

  function Names(markers: seq<Marker>): seq<string> {
    Map((m: Marker) => m.name, markers)
  }

  function TypeName(t: MentionType): string {
    match t
    case Member => "member"
    case Agent => "agent"
    case Squad => "squad"
    case All => "all"
    case IssueRef => "issue"
  }

  function LabelOf(m: Marker): string {
    if m.kind.IssueRef? then m.name else "@" + m.name
  }

  function Link(m: Marker): string {
    "[" + LabelOf(m) + "](mention://" + TypeName(m.kind) + "/" + m.id + ")"
  }

  /** Plain characters kept, stray marks dropped, each run replaced by the next marker's link. */
  function Links(ts: seq<Token>, markers: seq<Marker>): string {
    if ts == [] then []
    else match ts[0]
      case Plain(c) => [c] + Links(ts[1..], markers)
      case Stray => Links(ts[1..], markers)
      case Run(_) => if markers == [] then [] else Link(markers[0]) + Links(ts[1..], markers[1..])
  }

  function StripSentinels(text: string): string {
    Filter((c: char) => c != SENTINEL, text)
  }

  /** Marks go, wherever they stand, and all other characters stay in order. */
  lemma StripTakesOutMarks(a: string, b: string)
    requires SENTINEL !in a
    ensures StripSentinels(a) == a && StripSentinels(a + [SENTINEL] + b) == a + StripSentinels(b)
    ensures StripSentinels(a + b) == a + StripSentinels(b)
    ensures StripSentinels(['\U{2063}', '@'] + b) == "@" + StripSentinels(b)
  {
    var other := (c: char) => c != SENTINEL;
    FilterAll(other, a);
    FilterNone(other, [SENTINEL]);
    FilterConcat(other, a, [SENTINEL]);
    FilterConcat(other, a + [SENTINEL], b);
    FilterConcat(other, a, b);
    FilterConcat(other, [SENTINEL, '@'], b);
    assert a + [] == a;
  }

  /** The chips are the markers, word for word and in order. */
  predicate Consistent(text: string, markers: seq<Marker>) {
    Runs(Tokens(text)) == Names(markers)
  }

  function Serialized(text: string, markers: seq<Marker>): string {
    if Consistent(text, markers) then Links(Tokens(text), markers) else StripSentinels(text)
  }

  // ----- The scanner -----

  lemma {:induction false} TokensAfterPlain(plain: string, rest: string, markers: seq<Marker>)
    requires SENTINEL !in plain
    ensures Runs(Tokens(plain + rest)) == Runs(Tokens(rest))
    ensures Links(Tokens(plain + rest), markers) == plain + Links(Tokens(rest), markers)
    decreases |plain|
  {
    if plain == [] {
      assert plain + rest == rest;
    } else {
      var all, tail := plain + rest, plain[1..] + rest;
      assert all[1..] == tail && all[0] == plain[0];
      TokensAfterPlain(plain[1..], rest, markers);
      assert Tokens(all)[1..] == Tokens(tail);
      assert [plain[0]] + plain[1..] == plain;
    }
  }

  lemma TokensOfStray(text: string, markers: seq<Marker>)
    requires text != [] && text[0] == SENTINEL && (|text| < 2 || text[1] != '@')
    ensures Runs(Tokens(text)) == Runs(Tokens(text[1..]))
    ensures Links(Tokens(text), markers) == Links(Tokens(text[1..]), markers)
  {
    assert Tokens(text)[1..] == Tokens(text[1..]);
  }

  lemma TokensOfRun(text: string, n: nat, markers: seq<Marker>)
    requires |text| >= 2 && text[0] == SENTINEL && text[1] == '@' && n == WordLength(text[2..])
    ensures Runs(Tokens(text)) == [text[2..][..n]] + Runs(Tokens(text[2..][n..]))
    ensures markers != [] ==>
      Links(Tokens(text), markers) == Link(markers[0]) + Links(Tokens(text[2..][n..]), markers[1..])
  {
    assert Tokens(text)[1..] == Tokens(text[2..][n..]);
  }

  /** `indexOf` from a position; -1 when there is none. */
  method IndexOf(text: string, c: char, from: nat) returns (at: int)
    requires from <= |text|
    ensures at == -1 ==> c !in text[from..]
    ensures at != -1 ==> from <= at < |text| && text[at] == c && c !in text[from..at]
  {
    at := from;
    while at < |text| && text[at] != c
      invariant from <= at <= |text| && forall j :: from <= j < at ==> text[j] != c
    {
      at := at + 1;
    }
    if at == |text| {
      at := -1;
    }
  }

  method ReadWord(text: string, from: nat) returns (end: nat)
    requires from <= |text|
    ensures end == from + WordLength(text[from..])
  {
    end := from;
    while end < |text| && !IsSpace(text[end])
      invariant from <= end <= |text| && forall j :: from <= j < end ==> !IsSpace(text[j])
    {
      end := end + 1;
    }
    WordLengthIs(text[from..], end - from);
  }

  lemma {:induction false} WordLengthIs(s: string, n: nat)
    requires n <= |s| && (forall j :: 0 <= j < n ==> !IsSpace(s[j])) && (n == |s| || IsSpace(s[n]))
    ensures WordLength(s) == n
  {
    if n > 0 { WordLengthIs(s[1..], n - 1); }
  }

  lemma NoSentinelIsPlain(text: string, markers: seq<Marker>)
    requires SENTINEL !in text
    ensures Serialized(text, markers) == text
  {
    TokensAfterPlain(text, [], markers);
    assert text + [] == text;
    FilterAll((c: char) => c != SENTINEL, text);
  }

  /** What the scanner has done at a position: runs read so far fit the first markers, and `out` links them. */
  ghost predicate Scanned(text: string, markers: seq<Marker>, cursor: nat, used: nat, out: string) {
    && cursor <= |text| && used <= |markers|
    && Runs(Tokens(text)) == Names(markers[..used]) + Runs(Tokens(text[cursor..]))
    && Links(Tokens(text), markers) == out + Links(Tokens(text[cursor..]), markers[used..])
  }

  method SerializeMentions(text: string, markers: seq<Marker>) returns (r: string)
    ensures r == Serialized(text, markers)
  {
    if SENTINEL !in text {
      NoSentinelIsPlain(text, markers);
      return text;
    }
    var out: string := [];
    var cursor, used, abort := 0, 0, false;
    assert text[0..] == text && markers[0..] == markers && Names(markers[..0]) == [];
    while cursor < |text| && !abort
      invariant if abort then !Consistent(text, markers) else Scanned(text, markers, cursor, used, out)
      decreases |text| - cursor, !abort
    {
      cursor, used, out, abort := ScanStep(text, markers, cursor, used, out);
    }
    if abort { return StripSentinels(text); }
    ScanEnd(text, markers, used, out);
    if used != |markers| { return StripSentinels(text); }
    return out;
  }

  /** One turn of the scanning loop. */
  method ScanStep(text: string, markers: seq<Marker>, cursor: nat, used: nat, out: string)
    returns (cursor': nat, used': nat, out': string, abort: bool)
    requires Scanned(text, markers, cursor, used, out) && cursor < |text|
    ensures if abort then cursor' == cursor && !Consistent(text, markers)
            else cursor < cursor' && Scanned(text, markers, cursor', used', out')
  {
    cursor', used', out', abort := cursor, used, out, false;
    var at := IndexOf(text, SENTINEL, cursor);
    if at == -1 {
      assert text[cursor..|text|] == text[cursor..];
      ScanPlain(text, markers, cursor, used, out, |text|);
      return |text|, used, out + text[cursor..], false;
    }
    ScanPlain(text, markers, cursor, used, out, at);
    out' := out + text[cursor..at];
    if at + 1 >= |text| || text[at + 1] != '@' {
      ScanStray(text, markers, at, used, out');
      return at + 1, used, out', false;
    }
    var wordEnd := ReadWord(text, at + 2);
    if used >= |markers| || markers[used].name != text[at + 2..wordEnd] {
      ScanMismatch(text, markers, at, used, out', wordEnd);
      return cursor, used, out', true;
    }
    ScanRun(text, markers, at, used, out', wordEnd);
    return wordEnd, used + 1, out' + Link(markers[used]), false;
  }

  lemma ScanPlain(text: string, markers: seq<Marker>, cursor: nat, used: nat, out: string, at: nat)
    requires Scanned(text, markers, cursor, used, out) && cursor <= at <= |text| && SENTINEL !in text[cursor..at]
    ensures Scanned(text, markers, at, used, out + text[cursor..at])
  {
    var plain, rest := text[cursor..at], text[at..];
    TokensAfterPlain(plain, rest, markers[used..]);
    SliceAgain(text, cursor, at);
    ConcatAssociates(out, plain, Links(Tokens(rest), markers[used..]));
  }

  lemma SliceAgain(text: string, cursor: nat, at: nat)
    requires cursor <= at <= |text|
    ensures text[cursor..at] + text[at..] == text[cursor..]
  {
  }

  lemma ScanStray(text: string, markers: seq<Marker>, at: nat, used: nat, out: string)
    requires Scanned(text, markers, at, used, out) && at < |text| && text[at] == SENTINEL
    requires at + 1 >= |text| || text[at + 1] != '@'
    ensures Scanned(text, markers, at + 1, used, out)
  {
    TokensOfStray(text[at..], markers[used..]);
    assert text[at..][1..] == text[at + 1..];
  }

  /** A marked word starts at `at` and ends at wordEnd. */
  predicate RunAt(text: string, at: nat, wordEnd: nat) {
    && at + 1 < |text| && text[at] == SENTINEL && text[at + 1] == '@'
    && wordEnd == at + 2 + WordLength(text[at + 2..])
  }

  lemma ReadRun(text: string, at: nat, wordEnd: nat, markers: seq<Marker>)
    requires RunAt(text, at, wordEnd)
    ensures at + 2 <= wordEnd <= |text|
    ensures Runs(Tokens(text[at..])) == [text[at + 2..wordEnd]] + Runs(Tokens(text[wordEnd..]))
    ensures markers != [] ==>
      Links(Tokens(text[at..]), markers) == Link(markers[0]) + Links(Tokens(text[wordEnd..]), markers[1..])
  {
    var n := wordEnd - at - 2;
    SliceOfSlice(text, at, n);
    TokensOfRun(text[at..], n, markers);
  }

  lemma SliceOfSlice(text: string, at: nat, n: nat)
    requires at + 2 + n <= |text|
    ensures text[at..][2..] == text[at + 2..]
    ensures text[at + 2..][..n] == text[at + 2..at + 2 + n] && text[at + 2..][n..] == text[at + 2 + n..]
  {
  }

  lemma ScanMismatch(text: string, markers: seq<Marker>, at: nat, used: nat, out: string, wordEnd: nat)
    requires Scanned(text, markers, at, used, out)
    requires RunAt(text, at, wordEnd)
    requires used >= |markers| || markers[used].name != text[at + 2..wordEnd]
    ensures !Consistent(text, markers)
  {
    ReadRun(text, at, wordEnd, []);
    var runs := Runs(Tokens(text));
    assert |runs| > used && runs[used] == text[at + 2..wordEnd];
    assert used < |markers| ==> Names(markers)[used] == markers[used].name;
  }

  lemma ScanRun(text: string, markers: seq<Marker>, at: nat, used: nat, out: string, wordEnd: nat)
    requires Scanned(text, markers, at, used, out)
    requires RunAt(text, at, wordEnd)
    requires used < |markers| && markers[used].name == text[at + 2..wordEnd]
    ensures Scanned(text, markers, wordEnd, used + 1, out + Link(markers[used]))
  {
    ReadRun(text, at, wordEnd, markers[used..]);
    NextMarker(markers, used);
    ConcatAssociates(Names(markers[..used]), [markers[used].name], Runs(Tokens(text[wordEnd..])));
    ConcatAssociates(out, Link(markers[used]), Links(Tokens(text[wordEnd..]), markers[used + 1..]));
  }

  lemma NextMarker(markers: seq<Marker>, used: nat)
    requires used < |markers|
    ensures Names(markers[..used + 1]) == Names(markers[..used]) + [markers[used].name]
    ensures markers[used..] != [] && markers[used..][0] == markers[used] && markers[used..][1..] == markers[used + 1..]
  {
  }

  lemma ScanEnd(text: string, markers: seq<Marker>, used: nat, out: string)
    requires Scanned(text, markers, |text|, used, out)
    ensures Consistent(text, markers) <==> used == |markers|
    ensures used == |markers| ==> Links(Tokens(text), markers) == out
  {
    assert text[|text|..] == [];
    assert Runs(Tokens(text)) == Names(markers[..used]) && |Names(markers)| == |markers|;
    if used == |markers| { assert markers[..used] == markers; }
  }
}
