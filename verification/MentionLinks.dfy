// The server's reading of mention links, and whom it hears in a message that
// the composer serialized.

module MentionLinks {
  import opened Options
  import opened Seqs
  import opened Mentions
  import opened ChipText

  datatype Mention = Mention(kind: string, id: string)

  const KINDS := ["member", "agent", "squad", "issue", "all"]

  const OPENING := "](mention://"

  predicate IsIdChar(c: char) {
    '0' <= c <= '9' || 'a' <= c <= 'f' || 'A' <= c <= 'F' || c == '-'
  }

  lemma IdCharsAre(c: char)
    ensures IsIdChar(c) <==> c in "0123456789abcdefABCDEF-"
  {
    var all := "0123456789abcdefABCDEF-";
    if IsIdChar(c) {
      assert exists i :: 0 <= i < |all| && all[i] == c by {
        var i := if c == '-' then 22 else if c <= '9' then (c - '0') as int
                 else if c >= 'a' then 10 + (c - 'a') as int else 16 + (c - 'A') as int;
        assert 0 <= i < |all| && all[i] == c;
      }
    }
  }

  function IdLength(s: string): (n: nat)
    ensures n <= |s|
  {
    if s == [] || !IsIdChar(s[0]) then 0 else 1 + IdLength(s[1..])
  }

  /** The id in front of a closing parenthesis. */
  function MatchId(s: string): Option<string> {
    var n := IdLength(s);
    if 0 < n < |s| && s[n] == ')' then Some(s[..n])
    else if "all)" <= s then Some("all")
    else None
  }

  /** Kind and id, the first of the kinds that fits. */
  function MatchTarget(s: string, kinds: seq<string>): Option<Mention> {
    if kinds == [] then None
    else
      var start := kinds[0] + "/";
      var id := if start <= s then MatchId(s[|start|..]) else None;
      if id.Some? then Some(Mention(kinds[0], id.value)) else MatchTarget(s, kinds[1..])
  }

  datatype Found = Found(mention: Mention, length: nat)

  /** The target behind a label, with what opens and closes it. */
  function ReadTarget(s: string): (r: Option<Found>)
    ensures r.Some? ==> OPENING <= s
  {
    var m := if OPENING <= s then MatchTarget(s[|OPENING|..], KINDS) else None;
    if m.Some? then Some(Found(m.value, |OPENING| + |m.value.kind| + 1 + |m.value.id| + 1)) else None
  }

  /** How a target is read at the start of a text. */
  type Reader = string -> Option<Found>

  function Further(found: Option<Found>, n: nat): Option<Found> {
    if found.Some? then Some(Found(found.value.mention, found.value.length + n)) else None
  }

  /** The rest of a label, as short as possible, and the target behind it; a label stays on one line. */
  function MatchLabel(read: Reader, s: string, begun: bool): Option<Found> {
    if begun && read(s).Some? then read(s)
    else if s == [] || s[0] == '\n' then None
    else Further(MatchLabel(read, s[1..], true), 1)
  }

  /** A mention link at the start; an `@` that opens the label is no part of it if anything fits behind it. */
  function MatchMention(read: Reader, s: string): Option<Found> {
    if s == [] || s[0] != '[' then None
    else
      var named := if |s| > 1 && s[1] == '@' then MatchLabel(read, s[2..], false) else None;
      if named.Some? then Further(named, 2) else Further(MatchLabel(read, s[1..], false), 1)
  }

  /** All mention links, from left to right. */
  function FindAll(read: Reader, s: string): seq<Mention>
    decreases |s|
  {
    if s == [] then []
    else
      var m := MatchMention(read, s);
      if m.Some? && 0 < m.value.length <= |s| then [m.value.mention] + FindAll(read, s[m.value.length..])
      else FindAll(read, s[1..])
  }

  function FindMentions(s: string): seq<Mention> {
    FindAll(ReadTarget, s)
  }

  /** The key under which a mention counts as seen. */
  function SeenKey(m: Mention): string {
    m.kind + ":" + m.id
  }

  /** Every mention once, where it occurs first. */
  function Firsts(ms: seq<Mention>): (r: seq<Mention>)
    ensures NoDup(r) && forall m :: m in r <==> m in ms
  {
    if ms == [] then []
    else
      var n := |ms| - 1;
      assert ms == ms[..n] + [ms[n]];
      Firsts(ms[..n]) + if ms[n] in ms[..n] then [] else [ms[n]]
  }

  /** They are in the order of those first occurrences: more mentions only add to the end. */
  lemma {:induction false} FirstsGrow(ms: seq<Mention>, n: nat)
    requires n <= |ms|
    ensures Firsts(ms[..n]) <= Firsts(ms)
  {
    if n == |ms| {
      assert ms[..n] == ms;
    } else {
      assert ms[..|ms| - 1][..n] == ms[..n];
      FirstsGrow(ms[..|ms| - 1], n);
    }
  }

  ghost predicate OfAKind(found: Option<Found>) {
    found.Some? ==> found.value.mention.kind in KINDS
  }

  lemma {:induction false} FoundKinds(read: Reader, s: string)
    requires forall t :: OfAKind(read(t))
    ensures forall m :: m in FindAll(read, s) ==> m.kind in KINDS
    decreases |s|
  {
    if s != [] {
      var m := MatchMention(read, s);
      LabelKind(read, s[1..], false);
      if |s| > 1 { LabelKind(read, s[2..], false); }
      if m.Some? && 0 < m.value.length <= |s| {
        FoundKinds(read, s[m.value.length..]);
      } else {
        FoundKinds(read, s[1..]);
      }
    }
  }

  lemma {:induction false} LabelKind(read: Reader, s: string, begun: bool)
    requires forall t :: OfAKind(read(t))
    ensures OfAKind(MatchLabel(read, s, begun))
  {
    assert OfAKind(read(s));
    if s != [] { LabelKind(read, s[1..], true); }
  }

  lemma TargetsAreOfAKind()
    ensures forall t :: OfAKind(ReadTarget(t))
  {
    forall t ensures OfAKind(ReadTarget(t)) {
      if OPENING <= t { TargetKind(t[|OPENING|..], KINDS); }
    }
  }

  lemma {:induction false} TargetKind(s: string, kinds: seq<string>)
    ensures MatchTarget(s, kinds).Some? ==> MatchTarget(s, kinds).value.kind in kinds
  {
    if kinds != [] { TargetKind(s, kinds[1..]); }
  }

  /** Different mentions have different keys: no kind holds a colon. */
  lemma SeenKeysDiffer(a: Mention, b: Mention)
    requires a.kind in KINDS && b.kind in KINDS
    ensures SeenKey(a) == SeenKey(b) <==> a == b
  {
    assert ':' !in "member" && ':' !in "agent" && ':' !in "squad" && ':' !in "issue" && ':' !in "all";
    if SeenKey(a) == SeenKey(b) {
      var k := SeenKey(a);
      assert k[|a.kind|] == ':' && k[|b.kind|] == ':';
      assert forall i :: 0 <= i < |a.kind| ==> k[i] == a.kind[i] && a.kind[i] in a.kind;
      assert forall i :: 0 <= i < |b.kind| ==> k[i] == b.kind[i] && b.kind[i] in b.kind;
      assert |a.kind| == |b.kind|;
      assert k[..|a.kind|] == a.kind && k[..|a.kind|] == b.kind;
      assert k[|a.kind| + 1..] == a.id && k[|a.kind| + 1..] == b.id;
    }
  }

  lemma KeySeenIff(matches: seq<Mention>, i: nat)
    requires i < |matches| && forall m :: m in matches ==> m.kind in KINDS
    ensures SeenKey(matches[i]) in KeysOf(matches[..i]) <==> matches[i] in matches[..i]
    ensures KeysOf(matches[..i + 1]) == KeysOf(matches[..i]) + {SeenKey(matches[i])}
  {
    forall j | 0 <= j < i ensures SeenKey(matches[j]) == SeenKey(matches[i]) <==> matches[j] == matches[i] {
      assert matches[j] in matches && matches[i] in matches;
      SeenKeysDiffer(matches[j], matches[i]);
    }
    assert matches[..i + 1] == matches[..i] + [matches[i]];
    if m :| m in matches[..i] && SeenKey(m) == SeenKey(matches[i]) {
      var j :| 0 <= j < i && matches[j] == m;
    }
  }

  function KeysOf(ms: seq<Mention>): set<string> {
    set m | m in ms :: SeenKey(m)
  }

  method ParseMentions(content: string) returns (result: seq<Mention>)
    ensures result == Firsts(FindMentions(content))
  {
    var matches := FindMentions(content);
    var seen: set<string> := {};
    result := [];
    TargetsAreOfAKind();
    FoundKinds(ReadTarget, content);
    for i := 0 to |matches|
      invariant result == Firsts(matches[..i])
      invariant seen == KeysOf(matches[..i])
    {
      assert matches[..i + 1][..i] == matches[..i];
      KeySeenIff(matches, i);
      if SeenKey(matches[i]) in seen { continue; }
      seen := seen + {SeenKey(matches[i])};
      result := result + [matches[i]];
    }
    assert matches[..|matches|] == matches;
  }

  // ----- What is heard of a composed message -----

  /** Whom a chip addresses, in the words of the links. */
  function Addressed(m: Marker): Mention {
    match m.kind
    case Member => Mention("member", m.id)
    case Agent => Mention("agent", m.id)
    case Squad => Mention("squad", m.id)
    case All => Mention("all", m.id)
    case IssueRef => Mention("issue", m.id)
  }

  /** No `](` anywhere. */
  predicate NoOpening(s: string) {
    forall i :: 0 <= i < |s| ==> !OpensAt(s, i)
  }

  predicate OpensAt(s: string, i: nat) {
    i + 1 < |s| && s[i] == ']' && s[i + 1] == '('
  }

  predicate IsId(id: string) {
    id == "all" || (id != [] && forall i :: 0 <= i < |id| ==> IsIdChar(id[i]))
  }

  /** An id as issues and people have them, and a one-line name without `](`; an issue is not just called `@`. */
  predicate ReadableMarker(m: Marker) {
    IsId(m.id) && m.name != [] && NoOpening(m.name) && '\n' !in m.name && (m.kind.IssueRef? ==> m.name != "@")
  }

  /** Text without `](`, whatever follows it, and readable chips. */
  predicate ReadablePieces(ps: seq<Piece>) {
    ps != [] ==> (if ps[0].Text? then NoOpening(ps[0].s + "(") else ReadableMarker(ps[0].m)) && ReadablePieces(ps[1..])
  }

  lemma {:induction false} IdLengthIs(id: string, rest: string)
    requires (forall i :: 0 <= i < |id| ==> IsIdChar(id[i])) && rest != [] && !IsIdChar(rest[0])
    ensures IdLength(id + rest) == |id|
  {
    if id == [] {
      assert id + rest == rest;
    } else {
      assert (id + rest)[1..] == id[1..] + rest;
      IdLengthIs(id[1..], rest);
    }
  }

  lemma IdIsMatched(id: string, rest: string)
    requires IsId(id)
    ensures MatchId(id + (")" + rest)) == Some(id)
  {
    var s := id + (")" + rest);
    if id == "all" {
      assert s == "all)" + rest && "all)" <= s;
      IdLengthIs("a", "ll)" + rest);
      assert s == "a" + ("ll)" + rest) && IdLength(s) == 1;
    } else {
      IdLengthIs(id, ")" + rest);
      assert s[..|id|] == id;
    }
  }

  lemma {:induction false} TargetIsMatched(kinds: seq<string>, k: nat, id: string, rest: string)
    requires k < |kinds| && IsId(id)
    requires forall j :: 0 <= j < k ==> !(kinds[j] + "/" <= kinds[k] + "/" + (id + (")" + rest)))
    ensures MatchTarget(kinds[k] + "/" + (id + (")" + rest)), kinds) == Some(Mention(kinds[k], id))
  {
    var start, tail := kinds[k] + "/", id + (")" + rest);
    if k == 0 {
      assert start <= start + tail && (start + tail)[|start|..] == tail;
      IdIsMatched(id, rest);
    } else {
      assert forall j :: 0 <= j < k ==> kinds[1..][j] == kinds[j + 1];
      TargetIsMatched(kinds[1..], k - 1, id, rest);
    }
  }

  lemma HeadsDiffer(a: string, b: string)
    requires |a| >= 2 && |b| >= 2 && (a[0] != b[0] || a[1] != b[1])
    ensures !(a <= b)
  {
  }

  /** Where a link's target begins, whom it addresses is read. */
  lemma AddressIsMatched(m: Marker, rest: string)
    requires IsId(m.id)
    ensures MatchTarget(TypeName(m.kind) + "/" + (m.id + (")" + rest)), KINDS) == Some(Addressed(m))
  {
    var k := match m.kind case Member => 0 case Agent => 1 case Squad => 2 case IssueRef => 3 case All => 4;
    var s := KINDS[k] + "/" + (m.id + (")" + rest));
    assert s[0] == KINDS[k][0] && s[1] == KINDS[k][1];
    forall j | 0 <= j < k ensures !(KINDS[j] + "/" <= s) {
      HeadsDiffer(KINDS[j] + "/", s);
    }
    TargetIsMatched(KINDS, k, m.id, rest);
  }

  /** A link from the end of its label on, and what follows it. */
  function TargetOf(m: Marker, rest: string): string {
    OPENING + (TypeName(m.kind) + "/" + (m.id + (")" + rest)))
  }

  lemma TargetIsRead(m: Marker, rest: string) returns (n: nat)
    requires IsId(m.id)
    ensures ReadTarget(TargetOf(m, rest)) == Some(Found(Addressed(m), n))
    ensures 0 < n <= |TargetOf(m, rest)| && TargetOf(m, rest)[n..] == rest
  {
    n := |OPENING| + |TypeName(m.kind)| + 1 + |m.id| + 1;
    AddressIsMatched(m, rest);
    AddressedByName(m);
    TargetParts(OPENING, TypeName(m.kind), m.id, rest);
    ReadTargetIs(TargetOf(m, rest), TypeName(m.kind) + "/" + (m.id + (")" + rest)), Addressed(m));
  }

  lemma AddressedByName(m: Marker)
    ensures Addressed(m) == Mention(TypeName(m.kind), m.id)
  {
  }

  lemma ReadTargetIs(s: string, tail: string, m: Mention)
    requires OPENING <= s && s[|OPENING|..] == tail && MatchTarget(tail, KINDS) == Some(m)
    ensures ReadTarget(s) == Some(Found(m, |OPENING| + |m.kind| + 1 + |m.id| + 1))
  {
  }

  lemma TargetParts(opening: string, kind: string, id: string, rest: string)
    ensures var s := opening + (kind + "/" + (id + (")" + rest)));
      && opening <= s && s[|opening|..] == kind + "/" + (id + (")" + rest))
      && |s| == |opening| + |kind| + 1 + |id| + 1 + |rest| && s[|opening| + |kind| + 1 + |id| + 1..] == rest
  {
    assert opening + (kind + "/" + (id + (")" + rest))) == (opening + kind + "/" + id + ")") + rest;
  }

  /** No target starts inside t, whatever part of t is read on into what follows. */
  ghost predicate NoneInside(read: Reader, t: string, target: string) {
    forall k :: 0 <= k < |t| ==> read(t[k..] + target).None?
  }

  lemma NoneInsideBehind(read: Reader, t: string, target: string, n: nat)
    requires NoneInside(read, t, target) && n <= |t|
    ensures NoneInside(read, t[n..], target)
  {
    forall k | 0 <= k < |t[n..]| ensures read(t[n..][k..] + target).None? {
      assert t[n..][k..] == t[n + k..];
    }
  }

  lemma NoOpeningNoneInside(t: string, target: string)
    requires NoOpening(t) && (target == [] || target[0] == ']')
    ensures NoneInside(ReadTarget, t, target)
  {
    forall k | 0 <= k < |t| ensures ReadTarget(t[k..] + target).None? {
      var s := t[k..] + target;
      assert !OpensAt(t, k) && s[0] == t[k];
      if |s| > 1 {
        assert s[1] == if k + 1 < |t| then t[k + 1] else target[0];
        HeadsDiffer(OPENING, s);
      }
    }
  }

  // ----- Reading a label -----

  /** What is read of a label in front of what is found at the target, unless a line break ends it before. */
  function LabelRead(t: string, found: Option<Found>): Option<Found> {
    if '\n' in t then None else Further(found, |t|)
  }

  /** A label is read up to the first target behind it. */
  lemma {:induction false} LabelIsRead(read: Reader, t: string, target: string, begun: bool)
    requires NoneInside(read, t, target) && (begun || t != [])
    requires read(target).Some? || target == []
    ensures MatchLabel(read, t + target, begun) == LabelRead(t, read(target))
  {
    if t == [] {
      assert t + target == target;
    } else {
      var s := t + target;
      assert s[1..] == t[1..] + target && s[0] == t[0] && t == [t[0]] + t[1..];
      assert read(t[0..] + target).None? && t[0..] == t;
      NoneInsideBehind(read, t, target, 1);
      LabelIsRead(read, t[1..], target, true);
    }
  }

  // ----- Reading a mention -----

  lemma LabelBehind(read: Reader, t: string, k: nat, target: string)
    requires k < |t| && NoneInside(read, t, target) && (read(target).Some? || target == [])
    ensures MatchLabel(read, (t + target)[k..], false) == LabelRead(t[k..], read(target))
  {
    assert (t + target)[k..] == t[k..] + target;
    NoneInsideBehind(read, t, target, k);
    LabelIsRead(read, t[k..], target, false);
  }

  lemma BreaksBehind(t: string)
    requires |t| > 1 && t[0] == '['
    ensures '\n' in t[1..] <==> '\n' in t
    ensures t[1] == '@' ==> ('\n' in t[2..] <==> '\n' in t)
  {
    assert t == [t[0]] + t[1..] && t == [t[0], t[1]] + t[2..];
  }

  /** From a bracket on, the next target is read or nothing is. */
  lemma BracketReadsTarget(read: Reader, t: string, target: string)
    requires |t| > 1 && t[0] == '[' && t[1..] != "@" && NoneInside(read, t, target) && read(target).Some?
    ensures MatchMention(read, t + target) == LabelRead(t, read(target))
  {
    BreaksBehind(t);
    LabelBehind(read, t, 1, target);
    if t[1] == '@' { LabelBehind(read, t, 2, target); }
  }

  // ----- Finding the mentions -----

  /** What stands before a link's own label changes nothing: the link is the next mention either way. */
  lemma {:induction false} LinkIsHeard(read: Reader, before: string, own: string, target: string, m: Mention, n: nat)
    requires NoneInside(read, before + own, target) && read(target) == Some(Found(m, n)) && n <= |target|
    requires |own| > 1 && own[0] == '[' && own[1..] != "@" && '\n' !in own
    ensures FindAll(read, before + own + target) == [m] + FindAll(read, target[n..])
    decreases |before|
  {
    var t := before + own;
    LabelGoesOn(before, own);
    if t[0] == '[' { BracketReadsTarget(read, t, target); }
    if t[0] == '[' && '\n' !in t {
      assert (t + target)[|t| + n..] == target[n..];
    } else {
      NotHeardYet(read, t, target);
      NoneInsideBehind(read, t, target, 1);
      LinkIsHeard(read, before[1..], own, target, m, n);
    }
  }

  lemma NotHeardYet(read: Reader, t: string, target: string)
    requires t != [] && MatchMention(read, t + target).None?
    ensures FindAll(read, t + target) == FindAll(read, t[1..] + target)
  {
    assert (t + target)[1..] == t[1..] + target;
  }

  lemma LabelGoesOn(before: string, own: string)
    requires |own| > 1 && own[1..] != "@"
    ensures var t := before + own;
      && t[1..] != "@" && (if before == [] then t == own else t[1..] == before[1..] + own)
  {
    var t := before + own;
    if before == [] {
      assert t == own;
    } else {
      assert |t[1..]| >= 2;
    }
  }

  lemma {:induction false} NothingHeard(read: Reader, t: string)
    requires NoneInside(read, t, []) && read([]).None?
    ensures FindAll(read, t) == []
  {
    if t != [] {
      assert t + [] == t;
      NoneInsideBehind(read, t, [], 1);
      NothingHeard(read, t[1..]);
      if |t| > 1 { LabelBehind(read, t, 1, []); }
      if |t| > 2 { LabelBehind(read, t, 2, []); }
    }
  }

  lemma NoOpeningConcat(a: string, b: string)
    requires NoOpening(a + "(") && NoOpening(b)
    ensures NoOpening(a + b)
  {
    forall i | 0 <= i < |a + b| ensures !OpensAt(a + b, i) {
      if i < |a| { assert !OpensAt(a + "(", i); } else { assert !OpensAt(b, i - |a|); }
    }
  }

  lemma LabelIsReadable(m: Marker)
    requires ReadableMarker(m)
    ensures NoOpening("[" + LabelOf(m)) && LabelOf(m) != [] && LabelOf(m) != "@" && '\n' !in LabelOf(m)
  {
    var at := if m.kind.IssueRef? then "" else "@";
    assert LabelOf(m) == at + m.name && (m.kind.IssueRef? ==> LabelOf(m) == m.name);
    assert NoOpening(at + "(") && NoOpening("[" + "(");
    NoOpeningConcat(at, m.name);
    NoOpeningConcat("[", LabelOf(m));
  }

  lemma PlainIsNotHeard(t: string)
    requires NoOpening(t)
    ensures FindMentions(t) == []
  {
    NoOpeningNoneInside(t, []);
    NothingHeard(ReadTarget, t);
  }

  /** Text in front of pieces adds nothing to what is heard of them. */
  lemma {:induction false} PiecesAreHeard(before: string, ps: seq<Piece>)
    requires NoOpening(before + "(") && ReadablePieces(ps)
    ensures FindMentions(before + Linked(ps)) == Map(Addressed, MarkersOf(ps))
    decreases |ps|
  {
    if ps == [] {
      assert before + Linked(ps) == before;
      forall i | 0 <= i < |before| ensures !OpensAt(before, i) { assert !OpensAt(before + "(", i); }
      PlainIsNotHeard(before);
    } else if ps[0].Text? {
      PiecesAreHeard(before + ps[0].s, ps[1..]) by {
        NoOpeningConcat(before, ps[0].s + "(");
        ConcatAssociates(before, ps[0].s, "(");
      }
      ConcatAssociates(before, ps[0].s, Linked(ps[1..]));
      assert [] + MarkersOf(ps[1..]) == MarkersOf(ps[1..]);
    } else {
      PiecesAreHeard("", ps[1..]);
      assert "" + Linked(ps[1..]) == Linked(ps[1..]);
      ChipIsHeard(before, ps[0].m, Linked(ps[1..]));
      MapCons(Addressed, ps[0].m, MarkersOf(ps[1..]));
    }
  }

  lemma ChipIsHeard(before: string, m: Marker, rest: string)
    requires NoOpening(before + "(") && ReadableMarker(m)
    ensures FindMentions(before + (Link(m) + rest)) == [Addressed(m)] + FindMentions(rest)
  {
    var own, target := "[" + LabelOf(m), TargetOf(m, rest);
    LabelIsReadable(m);
    NoOpeningConcat(before, own);
    var n := TargetIsRead(m, rest);
    assert own[1..] == LabelOf(m) && target[0] == ']';
    NoOpeningNoneInside(before + own, target);
    LinkIsHeard(ReadTarget, before, own, target, Addressed(m), n);
    LinkThenTarget(m, rest);
    ConcatAssociates(before, own, target);
  }

  lemma LinkThenTarget(m: Marker, rest: string)
    ensures Link(m) + rest == ("[" + LabelOf(m)) + TargetOf(m, rest)
  {
  }

  /** A message whose marks and markers are out of step addresses nobody. */
  lemma OutOfStepIsNotHeard(text: string, markers: seq<Marker>)
    requires !Consistent(text, markers) && NoOpening(StripSentinels(text))
    ensures FindMentions(Serialized(text, markers)) == []
  {
    PlainIsNotHeard(StripSentinels(text));
  }

  /** The server hears exactly the chips of a message, in order: whom each addresses, by kind and id. */
  lemma ChipsAreHeard(ps: seq<Piece>)
    requires ChipsDelimited(ps) && ReadablePieces(ps)
    ensures FindMentions(Serialized(Shown(ps), MarkersOf(ps))) == Map(Addressed, MarkersOf(ps))
  {
    SerializeLinksEveryChip(ps);
    PiecesAreHeard("", ps);
    assert "" + Linked(ps) == Linked(ps);
  }
}
