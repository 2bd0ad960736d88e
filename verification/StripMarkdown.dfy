// The preview stripper, and how it undoes the serializer.

module StripMarkdown {
  import opened Options
  import opened Seqs
  import opened Mentions
  import opened ChipText

  const CAMERA := '\U{1F4F7}'

  /** The number of characters before the first c (all of them when there is none). */
  function Until(c: char, s: string): (n: nat)
    ensures n <= |s|
    ensures forall i :: 0 <= i < n ==> s[i] != c
    ensures n < |s| ==> s[n] == c
  {
    if s == [] || s[0] == c then 0
    else
      var n := Until(c, s[1..]);
      assert forall i :: 1 <= i < n + 1 ==> s[i] == s[1..][i - 1];
      n + 1
  }

  datatype Match = Match(title: string, length: nat)

  /** `[label](prefix...)` at the start: a label up to the first `]`, a target up to the first `)`. */
  function MatchLink(prefix: string, s: string): (r: Option<Match>)
    ensures r.Some? ==> 0 < r.value.length <= |s| && s[0] == '['
  {
    if s == [] || s[0] != '[' then None
    else
      var n := Until(']', s[1..]);
      var tail := s[1..][n..];
      var opening := "](" + prefix;
      if n == 0 || !(opening <= tail) then None
      else
        var target := tail[|opening|..];
        var k := Until(')', target);
        if k == 0 || k == |target| then None else Some(Match(s[1..][..n], 1 + n + |opening| + k + 1))
  }

  /** `![...](...)` at the start; both parts may be empty. */
  function MatchImage(s: string): (r: Option<nat>)
    ensures r.Some? ==> 0 < r.value <= |s| && "![" <= s
  {
    if !("![" <= s) then None
    else
      var n := Until(']', s[2..]);
      var tail := s[2..][n..];
      if !("](" <= tail) then None
      else
        var k := Until(')', tail[2..]);
        if k == |tail| - 2 then None else Some(2 + n + 2 + k + 1)
  }

  function ReplaceImages(s: string): string
    decreases |s|
  {
    if s == [] then []
    else
      var m := MatchImage(s);
      if m.Some? then [CAMERA] + ReplaceImages(s[m.value..]) else [s[0]] + ReplaceImages(s[1..])
  }

  function ReplaceLinks(prefix: string, s: string): string
    decreases |s|
  {
    if s == [] then []
    else
      var m := MatchLink(prefix, s);
      if m.Some? then m.value.title + ReplaceLinks(prefix, s[m.value.length..])
      else [s[0]] + ReplaceLinks(prefix, s[1..])
  }

  /** Runs of line breaks become one. */
  function CollapseNewlines(s: string): string {
    if s == [] then []
    else if s[0] == '\n' && |s| > 1 && s[1] == '\n' then CollapseNewlines(s[1..])
    else [s[0]] + CollapseNewlines(s[1..])
  }

  function TrimStart(s: string): string {
    if s != [] && IsSpace(s[0]) then TrimStart(s[1..]) else s
  }

  function TrimEnd(s: string): string {
    if s != [] && IsSpace(s[|s| - 1]) then TrimEnd(s[..|s| - 1]) else s
  }

  function Tidy(s: string): string {
    TrimEnd(TrimStart(CollapseNewlines(s)))
  }

  function Strip(md: string): string {
    if md == [] then []
    else Tidy(ReplaceLinks("", ReplaceLinks("mention://", ReplaceImages(md))))
  }

  // ----- Stripping what was serialized -----

  /** What the user sees: chips by their labels. */
  function Seen(ps: seq<Piece>): string {
    if ps == [] then []
    else (if ps[0].Text? then ps[0].s else LabelOf(ps[0].m)) + Seen(ps[1..])
  }

  /** Issues are seen by their name alone: the pieces with every issue chip replaced by plain text. */
  function IssuesAsText(ps: seq<Piece>): seq<Piece> {
    if ps == [] then []
    else [if ps[0].Chip? && ps[0].m.kind.IssueRef? then Text(ps[0].m.name) else ps[0]] + IssuesAsText(ps[1..])
  }

  /** Neither the texts nor the names hold a mark. */
  predicate Unmarked(ps: seq<Piece>) {
    forall p :: p in ps ==> SENTINEL !in if p.Text? then p.s else p.m.name
  }

  /** What the user sees is what stands in the input field without the invisible marks, but for the `@` of issues. */
  lemma {:induction false} SeenIsTyped(ps: seq<Piece>)
    requires Unmarked(ps)
    ensures Seen(ps) == StripSentinels(Shown(IssuesAsText(ps)))
    ensures (forall p :: p in ps && p.Chip? ==> !p.m.kind.IssueRef?) ==> Seen(ps) == StripSentinels(Shown(ps))
  {
    if ps != [] {
      var rest, p := ps[1..], ps[0];
      assert ps == [p] + rest;
      SeenIsTyped(rest);
      var more := Shown(IssuesAsText(rest));
      assert IssuesAsText(ps)[1..] == IssuesAsText(rest);
      if p.Text? || p.m.kind.IssueRef? {
        StripTakesOutMarks(if p.Text? then p.s else p.m.name, more);
        StripTakesOutMarks(if p.Text? then p.s else p.m.name, Shown(rest));
      } else {
        ChipIsSeen(p.m.name, more);
        ChipIsSeen(p.m.name, Shown(rest));
      }
    }
  }

  lemma ChipIsSeen(name: string, rest: string)
    requires SENTINEL !in name
    ensures StripSentinels([SENTINEL, '@'] + name + rest) == "@" + name + StripSentinels(rest)
  {
    StripTakesOutMarks([], "@" + name + rest);
    StripTakesOutMarks("@" + name, rest);
    assert [SENTINEL, '@'] + name + rest == [] + [SENTINEL] + ("@" + name + rest);
  }

  predicate EndsWithBang(s: string) {
    s != [] && s[|s| - 1] == '!'
  }

  /** Names are non-empty and free of brackets; ids are non-empty and free of `)` and `![`. */
  predicate PlainMarker(m: Marker) {
    && m.name != [] && '[' !in m.name && ']' !in m.name
    && m.id != [] && ')' !in m.id && NoImage(m.id)
  }

  /** Text pieces hold no `[`, and all markers are plain. */
  predicate PlainPieces(ps: seq<Piece>) {
    ps != [] ==> (if ps[0].Chip? then PlainMarker(ps[0].m) else '[' !in ps[0].s) && PlainPieces(ps[1..])
  }

  /** Nothing but empty text stands before the next chip. */
  predicate NextIsChip(ps: seq<Piece>) {
    ps != [] && (ps[0].Chip? || (ps[0].s == [] && NextIsChip(ps[1..])))
  }

  /** Some text ends with `!` right before a chip. */
  predicate BangBeforeChip(ps: seq<Piece>) {
    ps != [] && ((ps[0].Text? && EndsWithBang(ps[0].s) && NextIsChip(ps[1..])) || BangBeforeChip(ps[1..]))
  }

  /** The pieces behind the next chip. */
  function AfterChip(ps: seq<Piece>): (r: seq<Piece>)
    requires NextIsChip(ps)
    ensures |r| < |ps|
  {
    if ps[0].Chip? then ps[1..] else AfterChip(ps[1..])
  }

  /** What the stripper makes of the pieces: `!` and the chip behind it are one image. */
  function Imaged(ps: seq<Piece>): seq<Piece>
    decreases |ps|
  {
    if ps == [] then []
    else if ps[0].Text? && EndsWithBang(ps[0].s) && NextIsChip(ps[1..])
    then [Text(ps[0].s[..|ps[0].s| - 1]), Text([CAMERA])] + Imaged(AfterChip(ps[1..]))
    else [ps[0]] + Imaged(ps[1..])
  }

  // ----- Images -----

  /** No `![` anywhere. */
  predicate NoImage(s: string) {
    forall i :: 0 <= i < |s| ==> !OpensImage(s, i)
  }

  predicate OpensImage(s: string, i: nat) {
    i + 1 < |s| && s[i] == '!' && s[i + 1] == '['
  }

  lemma NoImageTail(s: string)
    requires NoImage(s) && s != []
    ensures NoImage(s[1..]) && !("![" <= s)
  {
    assert !OpensImage(s, 0);
    forall i | 0 <= i < |s[1..]| ensures !OpensImage(s[1..], i) {
      assert !OpensImage(s, i + 1);
    }
  }

  lemma NoImageConcat(a: string, b: string)
    requires NoImage(a) && NoImage(b) && !(EndsWithBang(a) && "[" <= b)
    ensures NoImage(a + b)
  {
    forall i | 0 <= i < |a + b| ensures !OpensImage(a + b, i) {
      if i + 1 < |a| { assert !OpensImage(a, i); }
      else if i >= |a| { assert !OpensImage(b, i - |a|); }
    }
  }

  lemma TypeNamesPlain(t: MentionType)
    ensures '[' !in TypeName(t) && ')' !in TypeName(t)
  {
    assert '[' !in "member" && '[' !in "agent" && '[' !in "squad" && '[' !in "all" && '[' !in "issue";
    assert ')' !in "member" && ')' !in "agent" && ')' !in "squad" && ')' !in "all" && ')' !in "issue";
  }

  /** A link is a label and a target, both plain. */
  lemma LinkShape(m: Marker)
    requires PlainMarker(m)
    ensures var target := TypeName(m.kind) + "/" + m.id;
      && Link(m) == "[" + (LabelOf(m) + ("](" + "mention://" + (target + ")")))
      && ')' !in target && target != []
    ensures LabelOf(m) != [] && '[' !in LabelOf(m) && ']' !in LabelOf(m)
  {
    TypeNamesPlain(m.kind);
    assert ')' !in "/" && '[' !in "@" && ']' !in "@";
    assert "](" + "mention://" == "](mention://";
  }

  lemma NoBracketNoImage(s: string)
    requires '[' !in s
    ensures NoImage(s)
  {
  }

  lemma LinkHasNoImage(m: Marker)
    requires PlainMarker(m)
    ensures NoImage(Link(m)) && !EndsWithBang(Link(m)) && "[" <= Link(m)
  {
    LinkShape(m);
    TypeNamesPlain(m.kind);
    assert '[' !in "](mention://" && '[' !in "/";
    var opening := "](mention://" + TypeName(m.kind) + "/";
    NoBracketNoImage(LabelOf(m));
    NoBracketNoImage(opening);
    NoImageConcat("[", LabelOf(m));
    NoImageConcat("[" + LabelOf(m), opening);
    NoImageConcat("[" + LabelOf(m) + opening, m.id);
    NoImageConcat("[" + LabelOf(m) + opening + m.id, ")");
    assert Link(m) == "[" + LabelOf(m) + opening + m.id + ")";
  }

  lemma NoImageAhead(a: string, b: string)
    requires a != [] && NoImage(a) && !(EndsWithBang(a) && "[" <= b)
    ensures MatchImage(a + b) == None
    ensures EndsWithBang(a[1..]) ==> EndsWithBang(a)
  {
    var s := a + b;
    assert !OpensImage(a, 0) && s[0] == a[0];
    ImageHead(s);
    assert |s| > 1 ==> s[1] == if |a| > 1 then a[1] else b[0];
    assert b != [] && b[0] == '[' ==> "[" <= b;
  }

  lemma ImageHead(s: string)
    ensures "![" <= s <==> |s| > 1 && s[0] == '!' && s[1] == '['
  {
  }

  lemma NoMatchStep(s: string)
    requires s != [] && MatchImage(s).None?
    ensures ReplaceImages(s) == [s[0]] + ReplaceImages(s[1..])
  {
  }

  lemma TailOfConcat(a: string, b: string)
    requires a != []
    ensures (a + b)[0] == a[0] && (a + b)[1..] == a[1..] + b && [a[0]] + (a[1..] + b) == a + b
  {
  }

  lemma {:induction false} ImagesAfterPlain(a: string, b: string)
    requires NoImage(a) && !(EndsWithBang(a) && "[" <= b)
    ensures ReplaceImages(a + b) == a + ReplaceImages(b)
  {
    if a == [] {
      assert a + b == b;
    } else {
      NoImageTail(a);
      NoImageAhead(a, b);
      TailOfConcat(a, b);
      NoMatchStep(a + b);
      ImagesAfterPlain(a[1..], b);
      TailOfConcat(a, ReplaceImages(b));
    }
  }

  lemma {:induction false} NextIsChipIff(ps: seq<Piece>)
    requires PlainPieces(ps)
    ensures NextIsChip(ps) <==> "[" <= Linked(ps)
    ensures NextIsChip(ps) ==> PlainPieces(AfterChip(ps))
    ensures NextIsChip(ps) ==> exists m :: PlainMarker(m) && Linked(ps) == Link(m) + Linked(AfterChip(ps))
  {
    if ps != [] {
      if ps[0].Chip? {
        LinkHasNoImage(ps[0].m);
      } else {
        NextIsChipIff(ps[1..]);
        if ps[0].s == [] {
          assert [] + Linked(ps[1..]) == Linked(ps[1..]);
        } else {
          assert Linked(ps)[0] == ps[0].s[0] && ps[0].s[0] in ps[0].s;
        }
      }
    }
  }

  lemma BangLinkIsImage(m: Marker, rest: string)
    requires PlainMarker(m)
    ensures ReplaceImages("!" + (Link(m) + rest)) == [CAMERA] + ReplaceImages(rest)
  {
    LinkShape(m);
    var title, target := LabelOf(m), "mention://" + (TypeName(m.kind) + "/" + m.id);
    assert ')' !in "mention://";
    MatchesImage(title, target, rest);
    var head := "![" + (title + ("](" + (target + ")")));
    BangThenLink(title, TypeName(m.kind) + "/" + m.id, rest);
    assert "!" + (Link(m) + rest) == head + rest;
    SplitAt(head, rest);
  }

  lemma BangThenLink(title: string, target: string, rest: string)
    ensures "!" + ("[" + (title + ("](" + "mention://" + (target + ")"))) + rest)
      == "![" + (title + ("](" + (("mention://" + target) + ")"))) + rest
  {
  }

  lemma MatchesImage(title: string, target: string, rest: string)
    requires ']' !in title && ')' !in target
    ensures var head := "![" + (title + ("](" + (target + ")"))); MatchImage(head + rest) == Some(|head|)
  {
    var tail := "](" + (target + (")" + rest));
    var s := "![" + (title + tail);
    ImageThenRest(title, target, rest);
    SplitAt("![", title + tail);
    UntilIs(']', title, tail);
    SplitAt(title, tail);
    SplitAt("](", target + (")" + rest));
    UntilIs(')', target, ")" + rest);
  }

  lemma ImageThenRest(title: string, target: string, rest: string)
    ensures "![" + (title + ("](" + (target + ")"))) + rest == "![" + (title + ("](" + (target + (")" + rest))))
  {
  }

  lemma SplitAt(a: string, b: string)
    ensures a <= a + b && (a + b)[|a|..] == b
  {
  }

  /** Replacing images in serialized pieces replaces every `!` with the chip behind it, and nothing else. */
  lemma {:induction false} LinkedImages(ps: seq<Piece>)
    requires PlainPieces(ps)
    ensures ReplaceImages(Linked(ps)) == Linked(Imaged(ps)) && PlainPieces(Imaged(ps))
    decreases |ps|
  {
    if ps != [] {
      var rest := ps[1..];
      NextIsChipIff(rest);
      if ps[0].Text? && EndsWithBang(ps[0].s) && NextIsChip(rest) {
        var after := AfterChip(rest);
        LinkedImages(after);
        var m :| PlainMarker(m) && Linked(rest) == Link(m) + Linked(after);
        BangLinkIsImage(m, Linked(after));
        BangedText(ps[0].s, Linked(rest), [CAMERA] + Linked(Imaged(after)));
        ImagedLinked(ps[0].s[..|ps[0].s| - 1], Imaged(after));
      } else {
        LinkedImages(rest);
        if ps[0].Chip? { LinkHasNoImage(ps[0].m); } else { NoBracketNoImage(ps[0].s); }
        ImagesAfterPlain(if ps[0].Text? then ps[0].s else Link(ps[0].m), Linked(rest));
        assert ([ps[0]] + Imaged(rest))[1..] == Imaged(rest);
      }
    }
  }

  lemma BangedText(s: string, tail: string, shown: string)
    requires '[' !in s && EndsWithBang(s) && ReplaceImages("!" + tail) == shown
    ensures ReplaceImages(s + tail) == s[..|s| - 1] + shown
  {
    var init := s[..|s| - 1];
    NoBracketNoImage(init);
    ImagesAfterPlain(init, "!" + tail);
    LastApart(s, tail);
  }

  lemma LastApart(s: string, rest: string)
    requires EndsWithBang(s)
    ensures s + rest == s[..|s| - 1] + ("!" + rest)
  {
  }

  lemma ImagedLinked(init: string, more: seq<Piece>)
    requires '[' !in init
    ensures var ps := [Text(init), Text([CAMERA])] + more;
      && Linked(ps) == init + ([CAMERA] + Linked(more)) && Seen(ps) == init + ([CAMERA] + Seen(more))
      && (PlainPieces(more) ==> PlainPieces(ps))
  {
    var ps := [Text(init), Text([CAMERA])] + more;
    var tail := [Text([CAMERA])] + more;
    assert ps[1..] == tail && tail[1..] == more && ps[0] == Text(init) && tail[0] == Text([CAMERA]);
  }

  // ----- Links -----

  lemma {:induction false} LinksAfterPlain(prefix: string, a: string, b: string)
    requires '[' !in a
    ensures ReplaceLinks(prefix, a + b) == a + ReplaceLinks(prefix, b)
  {
    if a == [] {
      assert a + b == b;
    } else {
      assert (a + b)[1..] == a[1..] + b && (a + b)[0] == a[0];
      LinksAfterPlain(prefix, a[1..], b);
      assert [a[0]] + a[1..] == a;
    }
  }

  lemma {:induction false} UntilIs(c: char, a: string, b: string)
    requires c !in a && b != [] && b[0] == c
    ensures Until(c, a + b) == |a|
  {
    if a == [] {
      assert a + b == b;
    } else {
      assert (a + b)[1..] == a[1..] + b;
      UntilIs(c, a[1..], b);
    }
  }

  /** A label and a target make a link, whatever follows it. */
  lemma MatchesLink(prefix: string, title: string, target: string, rest: string)
    requires title != [] && ']' !in title && target != [] && ')' !in target
    ensures var s := "[" + (title + ("](" + prefix + (target + (")" + rest))));
      MatchLink(prefix, s) == Some(Match(title, 1 + |title| + 2 + |prefix| + |target| + 1))
  {
    var opening := "](" + prefix;
    var tail := opening + (target + (")" + rest));
    var s := "[" + (title + tail);
    assert s[1..] == title + tail;
    UntilIs(']', title, tail);
    assert (title + tail)[|title|..] == tail && (title + tail)[..|title|] == title;
    assert tail[..|opening|] == opening && tail[|opening|..] == target + (")" + rest);
    UntilIs(')', target, ")" + rest);
  }

  lemma LinkIsReplaced(m: Marker, rest: string)
    requires PlainMarker(m)
    ensures ReplaceLinks("mention://", Link(m) + rest) == LabelOf(m) + ReplaceLinks("mention://", rest)
  {
    LinkShape(m);
    var target := TypeName(m.kind) + "/" + m.id;
    var s := Link(m) + rest;
    MatchesLink("mention://", LabelOf(m), target, rest);
    LinkThenRest(LabelOf(m), target, rest);
    assert s == "[" + (LabelOf(m) + ("](" + "mention://" + (target + (")" + rest))));
    assert |Link(m)| == 1 + |LabelOf(m)| + 2 + |"mention://"| + |target| + 1;
    assert s[|Link(m)|..] == rest;
  }

  lemma LinkThenRest(title: string, target: string, rest: string)
    ensures "[" + (title + ("](" + "mention://" + (target + ")"))) + rest
      == "[" + (title + ("](" + "mention://" + (target + (")" + rest))))
  {
  }

  lemma {:induction false} LinkedReadsAsSeen(ps: seq<Piece>)
    requires PlainPieces(ps)
    ensures ReplaceLinks("mention://", Linked(ps)) == Seen(ps)
    ensures '[' !in Seen(ps)
  {
    if ps != [] {
      LinkedReadsAsSeen(ps[1..]);
      if ps[0].Chip? {
        LinkShape(ps[0].m);
        LinkIsReplaced(ps[0].m, Linked(ps[1..]));
      } else {
        LinksAfterPlain("mention://", ps[0].s, Linked(ps[1..]));
      }
    }
  }

  /** What stripping makes of serialized pieces, whatever stands before the chips. */
  lemma StripShowsImaged(ps: seq<Piece>)
    requires PlainPieces(ps)
    ensures Strip(Linked(ps)) == Tidy(Seen(Imaged(ps)))
  {
    var shown := Imaged(ps);
    LinkedImages(ps);
    LinkedReadsAsSeen(shown);
    LinksAfterPlain("", Seen(shown), []);
    assert Seen(shown) + [] == Seen(shown);
    if Linked(ps) == [] {
      assert ReplaceImages(Linked(ps)) == [] && ReplaceLinks("mention://", Linked(shown)) == [];
    }
  }

  // ----- Counting exclamation marks -----

  function Bangs(s: string): nat {
    if s == [] then 0 else (if s[0] == '!' then 1 else 0) + Bangs(s[1..])
  }

  lemma {:induction false} BangsConcat(a: string, b: string)
    ensures Bangs(a + b) == Bangs(a) + Bangs(b)
  {
    if a == [] {
      assert a + b == b;
    } else {
      assert (a + b)[1..] == a[1..] + b && (a + b)[0] == a[0];
      BangsConcat(a[1..], b);
    }
  }

  lemma {:induction false} CollapseKeepsBangs(s: string)
    ensures Bangs(CollapseNewlines(s)) == Bangs(s)
  {
    if s != [] {
      CollapseKeepsBangs(s[1..]);
      assert ([s[0]] + CollapseNewlines(s[1..]))[1..] == CollapseNewlines(s[1..]);
    }
  }

  lemma {:induction false} TrimStartKeepsBangs(s: string)
    ensures Bangs(TrimStart(s)) == Bangs(s)
  {
    if s != [] && IsSpace(s[0]) {
      TrimStartKeepsBangs(s[1..]);
    }
  }

  lemma {:induction false} TrimEndKeepsBangs(s: string)
    ensures Bangs(TrimEnd(s)) == Bangs(s)
  {
    if s != [] && IsSpace(s[|s| - 1]) {
      var init, last := s[..|s| - 1], [s[|s| - 1]];
      TrimEndKeepsBangs(init);
      BangsConcat(init, last);
      assert s == init + last && last[1..] == [];
    }
  }

  lemma TidyKeepsBangs(s: string)
    ensures Bangs(Tidy(s)) == Bangs(s)
  {
    CollapseKeepsBangs(s);
    TrimStartKeepsBangs(CollapseNewlines(s));
    TrimEndKeepsBangs(TrimStart(CollapseNewlines(s)));
  }

  lemma {:induction false} SkipToChipBangs(ps: seq<Piece>)
    requires NextIsChip(ps)
    ensures Bangs(Seen(AfterChip(ps))) <= Bangs(Seen(ps))
  {
    if ps[0].Chip? {
      BangsConcat(LabelOf(ps[0].m), Seen(ps[1..]));
    } else {
      SkipToChipBangs(ps[1..]);
      BangsConcat(ps[0].s, Seen(ps[1..]));
    }
  }

  /** Images cost exclamation marks. */
  lemma {:induction false} ImagedHasFewerBangs(ps: seq<Piece>)
    ensures Bangs(Seen(Imaged(ps))) <= Bangs(Seen(ps))
    ensures if BangBeforeChip(ps) then Bangs(Seen(Imaged(ps))) < Bangs(Seen(ps)) else Imaged(ps) == ps
    decreases |ps|
  {
    if ps != [] {
      var rest := ps[1..];
      if ps[0].Text? && EndsWithBang(ps[0].s) && NextIsChip(rest) {
        var after := AfterChip(rest);
        ImagedHasFewerBangs(after);
        SkipToChipBangs(rest);
        ImagedSeen(ps[0].s[..|ps[0].s| - 1], Imaged(after));
        ImageCostsBang(ps[0].s, Seen(rest), Seen(Imaged(after)));
      } else {
        ImagedHasFewerBangs(rest);
        var own := if ps[0].Text? then ps[0].s else LabelOf(ps[0].m);
        assert ([ps[0]] + Imaged(rest))[1..] == Imaged(rest);
        BangsConcat(own, Seen(rest));
        BangsConcat(own, Seen(Imaged(rest)));
        assert ps == [ps[0]] + rest;
      }
    }
  }

  lemma ImageCostsBang(s: string, rest: string, shown: string)
    requires EndsWithBang(s) && Bangs(shown) <= Bangs(rest)
    ensures Bangs(s[..|s| - 1] + ([CAMERA] + shown)) < Bangs(s + rest)
  {
    var init := s[..|s| - 1];
    BangsConcat(init, [CAMERA] + shown);
    BangsConcat([CAMERA], shown);
    BangsConcat(init, "!");
    BangsConcat(s, rest);
    assert s == init + "!" && [CAMERA][1..] == [] && "!"[1..] == [] && Bangs("!") == 1;
  }

  lemma ImagedSeen(init: string, more: seq<Piece>)
    ensures Seen([Text(init), Text([CAMERA])] + more) == init + ([CAMERA] + Seen(more))
  {
    var ps := [Text(init), Text([CAMERA])] + more;
    var tail := [Text([CAMERA])] + more;
    assert ps[1..] == tail && tail[1..] == more && ps[0] == Text(init) && tail[0] == Text([CAMERA]);
  }

  /** Stripping serialized pieces gives what the user saw, tidied as every preview is, exactly when no text
      ends with `!` right before a chip. */
  lemma StripUndoesLinksIff(ps: seq<Piece>)
    requires PlainPieces(ps)
    ensures Strip(Linked(ps)) == Tidy(Seen(ps)) <==> !BangBeforeChip(ps)
  {
    StripShowsImaged(ps);
    ImagedHasFewerBangs(ps);
    TidyKeepsBangs(Seen(ps));
    TidyKeepsBangs(Seen(Imaged(ps)));
  }

  lemma StripUndoesSerializeIff(ps: seq<Piece>)
    requires ChipsDelimited(ps) && PlainPieces(ps)
    ensures Strip(Serialized(Shown(ps), MarkersOf(ps))) == Tidy(Seen(ps)) <==> !BangBeforeChip(ps)
  {
    SerializeLinksEveryChip(ps);
    StripUndoesLinksIff(ps);
  }

  /** Serializing and stripping gives back what was typed, without the marks and the `@` of issues and tidied as every
      preview is, exactly when no text ends with `!` right before a chip. */
  lemma StripShowsTypedIff(ps: seq<Piece>)
    requires ChipsDelimited(ps) && PlainPieces(ps) && Unmarked(ps)
    ensures Strip(Serialized(Shown(ps), MarkersOf(ps))) == Tidy(StripSentinels(Shown(IssuesAsText(ps))))
      <==> !BangBeforeChip(ps)
  {
    SeenIsTyped(ps);
    StripUndoesSerializeIff(ps);
  }

  /** A plain link shows its label, wherever it stands in plain text: link is one, of n characters, with text
      behind it. */
  lemma PlainLinkShowsLabel(a: string, link: string, title: string, n: nat)
    requires MatchLink("", link) == Some(Match(title, n)) && MatchLink("mention://", link) == None
    requires '[' !in a && !EndsWithBang(a) && '[' !in link[1..]
    ensures Strip(a + link) == Tidy(a + (title + link[n..]))
  {
    ImagesLeavePlainLink(a, link);
    MentionsLeavePlainLink(a, link);
    assert forall c :: c in link[n..] ==> c in link[1..];
    LinksAfterPlain("", a, link);
    LinksAfterPlain("", link[n..], []);
    assert link[n..] + [] == link[n..];
  }

  lemma ImagesLeavePlainLink(a: string, link: string)
    requires '[' !in a && !EndsWithBang(a) && link != [] && link[0] == '[' && '[' !in link[1..]
    ensures ReplaceImages(a + link) == a + link
  {
    NoBracketNoImage(a);
    NoBracketNoImage(link[1..]);
    NoImageConcat("[", link[1..]);
    assert "[" + link[1..] == link;
    NoImageConcat(a, link);
    ImagesAfterPlain(a + link, []);
    assert a + link + [] == a + link;
  }

  lemma MentionsLeavePlainLink(a: string, link: string)
    requires '[' !in a && link != [] && '[' !in link[1..] && MatchLink("mention://", link) == None
    ensures ReplaceLinks("mention://", a + link) == a + link
  {
    LinksAfterPlain("mention://", a, link);
    LinksAfterPlain("mention://", link[1..], []);
    assert link[1..] + [] == link[1..] && [link[0]] + link[1..] == link;
  }

  /** A collapsed text has no two line breaks in a row; doubled ones count as one, and single ones stay. */
  lemma {:induction false} CollapseMergesBreaks(a: string, b: string)
    ensures CollapseNewlines(a + "\n\n" + b) == CollapseNewlines(a + "\n" + b)
    ensures NoDoubleBreaks(CollapseNewlines(a))
    ensures NoDoubleBreaks(a) ==> CollapseNewlines(a) == a
    ensures a != [] ==> CollapseNewlines(a) != [] && CollapseNewlines(a)[0] == a[0]
  {
    if a == [] {
      assert a + "\n\n" + b == "\n" + ("\n" + b) && ("\n" + ("\n" + b))[1..] == "\n" + b && a + "\n" + b == "\n" + b;
    } else {
      var one, two := a + "\n" + b, a + "\n\n" + b;
      assert one[1..] == a[1..] + "\n" + b && two[1..] == a[1..] + "\n\n" + b;
      assert |a| > 1 ==> one[1] == a[1] && two[1] == a[1];
      CollapseMergesBreaks(a[1..], b);
      if NoDoubleBreaks(a) { TailHasNoDoubleBreaks(a); }
      BreaksOf(a);
    }
  }

  /** No two line breaks in a row. */
  predicate NoDoubleBreaks(s: string) {
    forall i :: 0 <= i < |s| ==> !DoubleBreakAt(s, i)
  }

  predicate DoubleBreakAt(s: string, i: nat) {
    i + 1 < |s| && s[i] == '\n' && s[i + 1] == '\n'
  }

  lemma TailHasNoDoubleBreaks(s: string)
    requires s != [] && NoDoubleBreaks(s)
    ensures NoDoubleBreaks(s[1..]) && !(|s| > 1 && s[0] == '\n' && s[1] == '\n')
  {
    assert !DoubleBreakAt(s, 0);
    forall i | 0 <= i < |s[1..]| ensures !DoubleBreakAt(s[1..], i) { assert !DoubleBreakAt(s, i + 1); }
  }

  lemma BreaksOf(a: string)
    requires a != [] && NoDoubleBreaks(CollapseNewlines(a[1..]))
    requires |a| > 1 ==> CollapseNewlines(a[1..]) != [] && CollapseNewlines(a[1..])[0] == a[1]
    ensures NoDoubleBreaks(CollapseNewlines(a))
  {
    var rest, all := CollapseNewlines(a[1..]), CollapseNewlines(a);
    forall i | 0 <= i < |all| ensures !DoubleBreakAt(all, i) {
      if all == [a[0]] + rest && i > 0 { assert !DoubleBreakAt(rest, i - 1); }
      if all == rest { assert !DoubleBreakAt(rest, i); }
    }
  }

  /** a and b are white space, and s neither starts nor ends with any. */
  predicate SpacesAround(a: string, s: string, b: string) {
    (forall c :: c in a + b ==> IsSpace(c)) && (s != [] ==> !IsSpace(s[0]) && !IsSpace(s[|s| - 1]))
  }

  /** Trimming takes off the white space around a text and leaves the text itself alone. */
  lemma TrimTakesOffSpaces(a: string, s: string, b: string)
    requires SpacesAround(a, s, b)
    ensures TrimEnd(TrimStart(a + s + b)) == s
  {
    if s == [] {
      TrimStartTakesOff(a + b, []);
      assert a + s + b == a + b + [];
    } else {
      TrimStartTakesOff(a, s + b);
      TrimEndTakesOff(s, b);
      assert a + s + b == a + (s + b);
      assert forall c :: c in b ==> c in a + b;
    }
  }

  /** What every preview does to white space: breaks in a row count as one, and the ends are trimmed. */
  lemma TidyMergesAndTrims(a: string, s: string, b: string)
    ensures Tidy(a + "\n\n" + b) == Tidy(a + "\n" + b)
    ensures NoDoubleBreaks(a + s + b) && SpacesAround(a, s, b) ==> Tidy(a + s + b) == s
  {
    CollapseMergesBreaks(a, b);
    CollapseMergesBreaks(a + s + b, []);
    if SpacesAround(a, s, b) { TrimTakesOffSpaces(a, s, b); }
  }

  lemma {:induction false} TrimStartTakesOff(a: string, s: string)
    requires (forall c :: c in a ==> IsSpace(c)) && (s != [] ==> !IsSpace(s[0]))
    ensures TrimStart(a + s) == s
  {
    if a == [] {
      assert a + s == s;
    } else {
      assert (a + s)[1..] == a[1..] + s;
      TrimStartTakesOff(a[1..], s);
    }
  }

  lemma {:induction false} TrimEndTakesOff(s: string, b: string)
    requires (forall c :: c in b ==> IsSpace(c)) && s != [] && !IsSpace(s[|s| - 1])
    ensures TrimEnd(s + b) == s
  {
    if b == [] {
      assert s + b == s;
    } else {
      assert (s + b)[..|s + b| - 1] == s + b[..|b| - 1];
      TrimEndTakesOff(s, b[..|b| - 1]);
    }
  }

  /** An exclamation mark right before a chip turns mark and mention into an image, wherever they stand. */
  lemma BangTurnsChipIntoImage(a: string, m: Marker, rest: seq<Piece>)
    requires PlainPieces([Text(a + "!"), Chip(m)] + rest)
    ensures Strip(Linked([Text(a + "!"), Chip(m)] + rest)) == Tidy(a + (['\U{1F4F7}'] + Seen(Imaged(rest))))
  {
    var ps := [Text(a + "!"), Chip(m)] + rest;
    assert ps[1..] == [Chip(m)] + rest && ps[1..][1..] == rest && ps[0] == Text(a + "!") && ps[1..][0] == Chip(m);
    assert (a + "!")[..|a|] == a && |a + "!"| == |a| + 1;
    StripShowsImaged(ps);
    ImagedSeen(a, Imaged(rest));
  }
}
