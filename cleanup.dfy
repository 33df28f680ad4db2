/** The last step of `Gollum::Markup#render`: `data.gsub!(/<p><\/p>/) { '' }`,
    which deletes every empty paragraph, scanning left to right. */
module Cleanup {

  const EmptyParagraph: string := "<p></p>"

  predicate StartsWithEmptyParagraph(s: string)
  {
    |s| >= |EmptyParagraph| && s[..|EmptyParagraph|] == EmptyParagraph
  }

  /** One left-to-right pass that deletes each match and keeps every other character. */
  function StripEmptyParagraphs(s: string): (r: string)
    ensures |r| <= |s|
    decreases |s|
  {
    if |s| < |EmptyParagraph| then s
    else if StartsWithEmptyParagraph(s) then StripEmptyParagraphs(s[|EmptyParagraph|..])
    else [s[0]] + StripEmptyParagraphs(s[1..])
  }

  /** The number of positions of `s` at which "<p></p>" begins. */
  function Occurrences(s: string): nat
    decreases |s|
  {
    if |s| < |EmptyParagraph| then 0
    else (if StartsWithEmptyParagraph(s) then 1 else 0) + Occurrences(s[1..])
  }

  /** The pieces of `s` between the matches the pass deletes. */
  function Pieces(s: string): (ps: seq<string>)
    ensures |ps| >= 1
    decreases |s|
  {
    if |s| < |EmptyParagraph| then [s]
    else if StartsWithEmptyParagraph(s) then [""] + Pieces(s[|EmptyParagraph|..])
    else
      var rest := Pieces(s[1..]);
      [[s[0]] + rest[0]] + rest[1..]
  }

  function Concat(ps: seq<string>): string
  {
    if ps == [] then "" else ps[0] + Concat(ps[1..])
  }

  /** `ps` joined with `sep` between consecutive pieces. */
  function JoinWith(ps: seq<string>, sep: string): string
    requires |ps| >= 1
  {
    if |ps| == 1 then ps[0] else ps[0] + sep + JoinWith(ps[1..], sep)
  }

  /** A position where no match begins adds nothing to the count. */
  lemma NoMatchStep(u: string)
    requires |u| >= 1
    requires u[0] != '<' || (|u| >= 2 && u[1] != 'p')
    ensures Occurrences(u) == Occurrences(u[1..])
  {
    if |u| >= |EmptyParagraph| {
      assert u[..|EmptyParagraph|][0] == u[0] && u[..|EmptyParagraph|][1] == u[1];
    }
  }

  /** No match can start inside a match: "<p></p>" does not overlap itself. */
  lemma OccurrencesSkipMatch(s: string)
    requires StartsWithEmptyParagraph(s)
    ensures Occurrences(s[1..]) == Occurrences(s[|EmptyParagraph|..])
  {
    assert s[..7] == EmptyParagraph;
    assert s[1] == 'p' && s[2] == '>' && s[3] == '<' && s[4] == '/' && s[5] == 'p' && s[6] == '>' by {
      assert s[1] == s[..7][1] && s[2] == s[..7][2] && s[3] == s[..7][3];
      assert s[4] == s[..7][4] && s[5] == s[..7][5] && s[6] == s[..7][6];
    }
    NoMatchStep(s[1..]);
    assert s[1..][1..] == s[2..];
    NoMatchStep(s[2..]);
    assert s[2..][1..] == s[3..];
    NoMatchStep(s[3..]);
    assert s[3..][1..] == s[4..];
    NoMatchStep(s[4..]);
    assert s[4..][1..] == s[5..];
    NoMatchStep(s[5..]);
    assert s[5..][1..] == s[6..];
    NoMatchStep(s[6..]);
    assert s[6..][1..] == s[7..];
  }

  /** The pass shortens the text by seven characters per occurrence of "<p></p>". */
  lemma {:induction false} StripLength(s: string)
    ensures |StripEmptyParagraphs(s)| == |s| - |EmptyParagraph| * Occurrences(s)
    decreases |s|
  {
    if |s| >= |EmptyParagraph| {
      if StartsWithEmptyParagraph(s) {
        OccurrencesSkipMatch(s);
        StripLength(s[|EmptyParagraph|..]);
      } else {
        StripLength(s[1..]);
      }
    }
  }

  /** Text with no "<p></p>" in it comes out unchanged. */
  lemma {:induction false} StripWithoutMatch(s: string)
    requires Occurrences(s) == 0
    ensures StripEmptyParagraphs(s) == s
    decreases |s|
  {
    if |s| >= |EmptyParagraph| {
      StripWithoutMatch(s[1..]);
      assert [s[0]] + s[1..] == s;
    }
  }

  /** The pass changes the text exactly when "<p></p>" occurs in it. */
  lemma StripChangesIffMatch(s: string)
    ensures StripEmptyParagraphs(s) == s <==> Occurrences(s) == 0
  {
    StripLength(s);
    if Occurrences(s) == 0 {
      StripWithoutMatch(s);
    }
  }

  /** The first piece is a prefix of the text. */
  lemma {:induction false} FirstPieceIsPrefix(s: string)
    ensures |Pieces(s)[0]| <= |s| && Pieces(s)[0] == s[..|Pieces(s)[0]|]
    decreases |s|
  {
    if |s| >= |EmptyParagraph| && !StartsWithEmptyParagraph(s) {
      FirstPieceIsPrefix(s[1..]);
    }
  }

  /** The text is its pieces joined by "<p></p>". */
  lemma {:induction false} PiecesJoin(s: string)
    ensures JoinWith(Pieces(s), EmptyParagraph) == s
    decreases |s|
  {
    if |s| >= |EmptyParagraph| {
      if StartsWithEmptyParagraph(s) {
        PiecesJoin(s[|EmptyParagraph|..]);
        assert s == EmptyParagraph + s[|EmptyParagraph|..];
      } else {
        var rest := Pieces(s[1..]);
        PiecesJoin(s[1..]);
        assert [s[0]] + s[1..] == s;
        if |rest| > 1 {
          assert JoinWith(rest, EmptyParagraph) == rest[0] + EmptyParagraph + JoinWith(rest[1..], EmptyParagraph);
        }
      }
    }
  }

  /** The result of the pass is the pieces with nothing between them. */
  lemma {:induction false} PiecesConcat(s: string)
    ensures Concat(Pieces(s)) == StripEmptyParagraphs(s)
    decreases |s|
  {
    if |s| >= |EmptyParagraph| {
      if StartsWithEmptyParagraph(s) {
        PiecesConcat(s[|EmptyParagraph|..]);
      } else {
        var rest := Pieces(s[1..]);
        PiecesConcat(s[1..]);
        assert Concat(rest) == rest[0] + Concat(rest[1..]);
      }
    }
  }

  /** One deletion per occurrence of "<p></p>" in the input. */
  lemma {:induction false} PiecesCount(s: string)
    ensures |Pieces(s)| == Occurrences(s) + 1
    decreases |s|
  {
    if |s| >= |EmptyParagraph| {
      if StartsWithEmptyParagraph(s) {
        OccurrencesSkipMatch(s);
        PiecesCount(s[|EmptyParagraph|..]);
      } else {
        PiecesCount(s[1..]);
      }
    }
  }

  /** No piece left between deletions holds a match. */
  lemma {:induction false} PiecesHoldNoMatch(s: string)
    ensures forall i :: 0 <= i < |Pieces(s)| ==> Occurrences(Pieces(s)[i]) == 0
    decreases |s|
  {
    var ps := Pieces(s);
    if |s| < |EmptyParagraph| {
      assert ps == [s];
    } else if StartsWithEmptyParagraph(s) {
      var tail := s[|EmptyParagraph|..];
      PiecesHoldNoMatch(tail);
      assert ps == [""] + Pieces(tail);
    } else {
      var rest := Pieces(s[1..]);
      PiecesHoldNoMatch(s[1..]);
      FirstPieceIsPrefix(s[1..]);
      assert ps == [[s[0]] + rest[0]] + rest[1..];
      var p := ps[0];
      assert p[1..] == rest[0];
      assert Occurrences(p) == 0 by {
        if |p| >= |EmptyParagraph| {
          assert p[..|EmptyParagraph|] == s[..|EmptyParagraph|];
        }
      }
      forall i | 1 <= i < |ps|
        ensures Occurrences(ps[i]) == 0
      {
        assert ps[i] == rest[i];
      }
    }
  }

  /** The pass deletes whole matches and nothing else: the text is its pieces
      joined by "<p></p>", the result is the same pieces with nothing between
      them, no piece holds a match, and there is one deletion per occurrence. */
  lemma StripDeletesOnlyMatches(s: string)
    ensures JoinWith(Pieces(s), EmptyParagraph) == s
    ensures Concat(Pieces(s)) == StripEmptyParagraphs(s)
    ensures |Pieces(s)| == Occurrences(s) + 1
    ensures forall i :: 0 <= i < |Pieces(s)| ==> Occurrences(Pieces(s)[i]) == 0
  {
    PiecesJoin(s);
    PiecesConcat(s);
    PiecesCount(s);
    PiecesHoldNoMatch(s);
  }

  /** A single pass can leave an empty paragraph behind: deleting the inner one
      of "<p><p></p></p>" forms a new one. */
  lemma StripIsSinglePass()
    ensures StripEmptyParagraphs("<p><p></p></p>") == EmptyParagraph
  {
    var s := "<p><p></p></p>";
    assert s[..7][4] != EmptyParagraph[4];
    assert s[1..][..7][0] != EmptyParagraph[0];
    assert s[2..][..7][0] != EmptyParagraph[0];
    assert StartsWithEmptyParagraph(s[3..]);
    assert s[3..][|EmptyParagraph|..] == "</p>";
    assert s[1..][1..] == s[2..];
    assert s[2..][1..] == s[3..];
  }
}
