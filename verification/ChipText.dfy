// Composer text as plain pieces and chips, what it serializes to, and what a
// reader sees of it once markdown is stripped again.

module ChipText {
  import opened Options
  import opened Seqs
  import opened Mentions

  datatype Piece = Text(s: string) | Chip(m: Marker)

  /** The text in the input field. */
  function Shown(ps: seq<Piece>): string {
    if ps == [] then []
    else (if ps[0].Text? then ps[0].s else [SENTINEL, '@'] + ps[0].m.name) + Shown(ps[1..])
  }

  /** The same pieces with every chip replaced by its link. */
  function Linked(ps: seq<Piece>): string {
    if ps == [] then []
    else (if ps[0].Text? then ps[0].s else Link(ps[0].m)) + Linked(ps[1..])
  }

  function MarkersOf(ps: seq<Piece>): seq<Marker> {
    if ps == [] then [] else (if ps[0].Text? then [] else [ps[0].m]) + MarkersOf(ps[1..])
  }

  /** Text without marks; chip names without white space; each chip ended by white space or the end. */
  predicate ChipsDelimited(ps: seq<Piece>) {
    ps != [] ==>
      && (if ps[0].Text? then SENTINEL !in ps[0].s
          else NoSpace(ps[0].m.name) && (Shown(ps[1..]) == [] || IsSpace(Shown(ps[1..])[0])))
      && ChipsDelimited(ps[1..])
  }

  lemma {:induction false} ChipsReadBack(ps: seq<Piece>)
    requires ChipsDelimited(ps)
    ensures Runs(Tokens(Shown(ps))) == Names(MarkersOf(ps))
    ensures Links(Tokens(Shown(ps)), MarkersOf(ps)) == Linked(ps)
  {
    if ps != [] {
      var rest := ps[1..];
      ChipsReadBack(rest);
      if ps[0].Text? {
        TokensAfterPlain(ps[0].s, Shown(rest), MarkersOf(rest));
        assert [] + MarkersOf(rest) == MarkersOf(rest);
      } else {
        ChipReadsBack(ps[0].m, Shown(rest), MarkersOf(rest));
        MapCons((m: Marker) => m.name, ps[0].m, MarkersOf(rest));
      }
    } else {
      assert Names([]) == [];
    }
  }

  lemma ChipReadsBack(m: Marker, rest: string, markers: seq<Marker>)
    requires NoSpace(m.name) && (rest == [] || IsSpace(rest[0]))
    ensures Runs(Tokens([SENTINEL, '@'] + m.name + rest)) == [m.name] + Runs(Tokens(rest))
    ensures Links(Tokens([SENTINEL, '@'] + m.name + rest), [m] + markers) == Link(m) + Links(Tokens(rest), markers)
  {
    var all, n := [SENTINEL, '@'] + m.name + rest, |m.name|;
    assert all[2..] == m.name + rest;
    assert (m.name + rest)[..n] == m.name && (m.name + rest)[n..] == rest;
    WordLengthIs(all[2..], n);
    TokensOfRun(all, n, [m] + markers);
    assert ([m] + markers)[1..] == markers;
  }

  /** Well delimited chips in marker order all become links, and nothing else changes. */
  lemma SerializeLinksEveryChip(ps: seq<Piece>)
    requires ChipsDelimited(ps)
    ensures Serialized(Shown(ps), MarkersOf(ps)) == Linked(ps)
  {
    ChipsReadBack(ps);
  }

  // ----- No mark survives -----

  predicate CleanMarkers(markers: seq<Marker>) {
    forall m :: m in markers ==> SENTINEL !in m.name && SENTINEL !in m.id
  }

  lemma LinkIsClean(m: Marker)
    requires SENTINEL !in m.name && SENTINEL !in m.id
    ensures SENTINEL !in Link(m)
  {
    assert SENTINEL !in "](mention://" && SENTINEL !in "[" && SENTINEL !in ")" && SENTINEL !in "/" && SENTINEL !in "@";
    assert SENTINEL !in "member" && SENTINEL !in "agent" && SENTINEL !in "squad" && SENTINEL !in "all"
      && SENTINEL !in "issue";
  }

  lemma {:induction false} LinksAreClean(text: string, markers: seq<Marker>)
    requires CleanMarkers(markers)
    ensures SENTINEL !in Links(Tokens(text), markers)
    decreases |text|
  {
    if text != [] {
      if text[0] != SENTINEL {
        LinksAreClean(text[1..], markers);
        assert Tokens(text)[1..] == Tokens(text[1..]);
      } else if |text| < 2 || text[1] != '@' {
        LinksAreClean(text[1..], markers);
        TokensOfStray(text, markers);
      } else {
        var n := WordLength(text[2..]);
        TokensOfRun(text, n, markers);
        if markers != [] {
          LinkIsClean(markers[0]);
          LinksAreClean(text[2..][n..], markers[1..]);
        }
      }
    }
  }

  /** Whatever the text, the serialized form holds no mark when the markers hold none. */
  lemma SerializedIsClean(text: string, markers: seq<Marker>)
    requires CleanMarkers(markers)
    ensures SENTINEL !in Serialized(text, markers)
  {
    LinksAreClean(text, markers);
  }
}
