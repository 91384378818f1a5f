/**
 * String.split(regex) for the separators the modelled code uses.
 * Matches are found left to right, each search resuming after the
 * previous match; a match at index 0 yields a leading empty piece,
 * trailing empty pieces are removed, and an input without any match
 * splits into itself alone.
 */
module Split {
  import opened Strings

  datatype Separator =
    | Literal(text: string)     // a pattern without metacharacters: " / ", "~", ","
    | SpaceRun                  // \s+
    | LineBreak                 // \R
    | OneOf(chars: seq<char>)   // a character class such as [,"']
    | SentenceEnd               // [.!?]\s+
    | EducationBreak            // \n|\r\n|,|;

  /** Number of `\s` characters starting at index i. */
  function SpacesFrom(s: string, i: nat): (k: nat)
    requires i <= |s|
    ensures i + k <= |s|
    ensures forall j :: i <= j < i + k ==> IsRegexSpace(s[j])
    ensures i + k == |s| || !IsRegexSpace(s[i + k])
    decreases |s| - i
  {
    if i < |s| && IsRegexSpace(s[i]) then 1 + SpacesFrom(s, i + 1) else 0
  }

  /** Length of the separator match that starts at index i; 0 when there is none. */
  function MatchLength(sep: Separator, s: string, i: nat): (k: nat)
    requires i < |s|
    ensures i + k <= |s|
  {
    match sep
    case Literal(t) => if |t| > 0 && OccursAt(s, t, i) then |t| else 0
    case SpaceRun => SpacesFrom(s, i)
    case LineBreak =>
      if OccursAt(s, "\r\n", i) then 2
      else if s[i] in "\n\U{000B}\U{000C}\r\U{0085}\U{2028}\U{2029}" then 1
      else 0
    case OneOf(cs) => if s[i] in cs then 1 else 0
    case SentenceEnd =>
      if s[i] in ".!?" && i + 1 < |s| && IsRegexSpace(s[i + 1]) then 1 + SpacesFrom(s, i + 1) else 0
    case EducationBreak =>
      if s[i] == '\n' || s[i] == ',' || s[i] == ';' then 1
      else if OccursAt(s, "\r\n", i) then 2
      else 0
  }

  /** The pieces between matches, scanning from index i; the current piece began at `start`. */
  function Pieces(s: string, sep: Separator, start: nat, i: nat): (ps: seq<string>)
    requires start <= i <= |s|
    ensures |ps| >= 1
    decreases |s| - i
  {
    if i == |s| then [s[start..]]
    else
      var k := MatchLength(sep, s, i);
      if k > 0 then [s[start..i]] + Pieces(s, sep, i + k, i + k)
      else Pieces(s, sep, start, i + 1)
  }

  function DropTrailingEmpty(ps: seq<string>): (r: seq<string>)
    ensures |r| <= |ps| && r == ps[..|r|]
    ensures r == [] || r[|r| - 1] != []
    ensures forall j :: |r| <= j < |ps| ==> ps[j] == []
  {
    if ps != [] && ps[|ps| - 1] == [] then DropTrailingEmpty(ps[..|ps| - 1]) else ps
  }

  /**
   * String.split with limit 0: the pieces between matches with the trailing
   * empty ones dropped, unless there is only one piece; "" splits to [""].
   */
  function JavaSplit(s: string, sep: Separator): (r: seq<string>)
    ensures s == [] ==> r == [""]
    ensures var ps := Pieces(s, sep, 0, 0);
      |r| <= |ps| && r == ps[..|r|] && forall j :: |r| <= j < |ps| ==> ps[j] == []
    ensures |r| == 1 || r == [] || r[|r| - 1] != []
  {
    var ps := Pieces(s, sep, 0, 0);
    if |ps| == 1 then ps else DropTrailingEmpty(ps)
  }

  predicate AllEmpty(ps: seq<string>) {
    forall p :: p in ps ==> p == []
  }

  /** Scanning from i, every piece is empty exactly when nothing is pending and only separators remain. */
  lemma {:induction false} PiecesAllEmpty(s: string, c: char, start: nat, i: nat)
    requires start <= i <= |s|
    ensures AllEmpty(Pieces(s, Literal([c]), start, i))
        <==> (start == i && forall j :: i <= j < |s| ==> s[j] == c)
    decreases |s| - i
  {
    var sep := Literal([c]);
    var ps := Pieces(s, sep, start, i);
    if i < |s| {
      if s[i] == c {
        assert OccursAt(s, [c], i);
        var rest := Pieces(s, sep, i + 1, i + 1);
        PiecesAllEmpty(s, c, i + 1, i + 1);
        assert ps == [s[start..i]] + rest;
        if AllEmpty(ps) {
          assert s[start..i] in ps;
          assert forall p :: p in rest ==> p in ps;
        }
        if s[start..i] == [] && AllEmpty(rest) {
          assert forall p :: p in ps ==> p == s[start..i] || p in rest;
        }
      } else {
        assert MatchLength(sep, s, i) == 0;
        assert ps == Pieces(s, sep, start, i + 1);
        PiecesAllEmpty(s, c, start, i + 1);
      }
    } else {
      assert ps == [s[start..]];
      assert AllEmpty(ps) <==> s[start..] == [] by {
        assert s[start..] in ps;
      }
    }
  }

  /** A separator found at or after i gives at least two pieces. */
  lemma {:induction false} PiecesSplitOnMatch(s: string, c: char, start: nat, i: nat, j: nat)
    requires start <= i <= j < |s| && s[j] == c
    ensures |Pieces(s, Literal([c]), start, i)| >= 2
    decreases |s| - i
  {
    var sep := Literal([c]);
    if s[i] == c {
      assert OccursAt(s, [c], i);
      assert Pieces(s, sep, start, i) == [s[start..i]] + Pieces(s, sep, i + 1, i + 1);
    } else {
      assert MatchLength(sep, s, i) == 0;
      PiecesSplitOnMatch(s, c, start, i + 1, j);
    }
  }

  lemma {:induction false} DropTrailingEmptyAll(ps: seq<string>)
    ensures DropTrailingEmpty(ps) == [] <==> AllEmpty(ps)
  {
    if ps != [] && ps[|ps| - 1] == [] {
      var init := ps[..|ps| - 1];
      DropTrailingEmptyAll(init);
      assert DropTrailingEmpty(ps) == DropTrailingEmpty(init);
      assert ps == init + [ps[|ps| - 1]];
      assert forall p :: p in ps <==> p in init || p == ps[|ps| - 1];
    } else if ps != [] {
      assert ps[|ps| - 1] in ps;
    }
  }

  /** Splitting on one character gives no pieces exactly when the text is that character repeated. */
  lemma SplitOnCharEmpty(s: string, c: char)
    ensures JavaSplit(s, Literal([c])) == [] <==> (|s| > 0 && forall j :: 0 <= j < |s| ==> s[j] == c)
  {
    var ps := Pieces(s, Literal([c]), 0, 0);
    PiecesAllEmpty(s, c, 0, 0);
    DropTrailingEmptyAll(ps);
    if |s| > 0 && forall j :: 0 <= j < |s| ==> s[j] == c {
      PiecesSplitOnMatch(s, c, 0, 0, 0);
    }
    if |ps| == 1 && AllEmpty(ps) {
      assert ps == [s];
    }
  }

  /** With the separator character absent from the rest of the text, the pending piece runs to the end. */
  lemma {:induction false} PiecesWithoutMatch(s: string, c: char, start: nat, i: nat)
    requires start <= i <= |s| && forall j :: i <= j < |s| ==> s[j] != c
    ensures Pieces(s, Literal([c]), start, i) == [s[start..]]
    decreases |s| - i
  {
    if i < |s| {
      assert s[i..i + 1] == [s[i]];
      assert MatchLength(Literal([c]), s, i) == 0;
      PiecesWithoutMatch(s, c, start, i + 1);
    }
  }

  /** A text without the separator character splits into itself alone. */
  lemma SplitWithoutMatch(s: string, c: char)
    requires c !in s
    ensures JavaSplit(s, Literal([c])) == [s]
  {
    PiecesWithoutMatch(s, c, 0, 0);
    assert s[0..] == s;
  }

  /** No piece contains the separator character. */
  lemma {:induction false} PiecesAvoidSeparator(s: string, c: char, start: nat, i: nat)
    requires start <= i <= |s| && c !in s[start..i]
    ensures forall p :: p in Pieces(s, Literal([c]), start, i) ==> c !in p
    decreases |s| - i
  {
    var ps := Pieces(s, Literal([c]), start, i);
    if i == |s| {
      assert s[start..] == s[start..i];
      assert ps == [s[start..i]];
    } else if s[i] == c {
      assert s[i..i + 1] == [s[i]];
      assert OccursAt(s, [c], i);
      PiecesAvoidSeparator(s, c, i + 1, i + 1);
      assert ps == [s[start..i]] + Pieces(s, Literal([c]), i + 1, i + 1);
    } else {
      assert s[i..i + 1] == [s[i]];
      assert MatchLength(Literal([c]), s, i) == 0;
      assert s[start..i + 1] == s[start..i] + [s[i]];
      PiecesAvoidSeparator(s, c, start, i + 1);
    }
  }

  /** Splitting on one character leaves that character in no piece. */
  lemma SplitAvoidsSeparator(s: string, c: char)
    ensures forall p :: p in JavaSplit(s, Literal([c])) ==> c !in p
  {
    var ps := Pieces(s, Literal([c]), 0, 0);
    PiecesAvoidSeparator(s, c, 0, 0);
    var r := DropTrailingEmpty(ps);
    assert forall p :: p in r ==> p in ps;
  }

  /** Positions without the separator character do not end the pending piece. */
  lemma {:induction false} PiecesSkip(s: string, c: char, start: nat, i: nat, j: nat)
    requires start <= i <= j <= |s| && forall m :: i <= m < j ==> s[m] != c
    ensures Pieces(s, Literal([c]), start, i) == Pieces(s, Literal([c]), start, j)
    decreases j - i
  {
    if i < j {
      assert s[i..i + 1] == [s[i]];
      assert MatchLength(Literal([c]), s, i) == 0;
      PiecesSkip(s, c, start, i + 1, j);
    }
  }
}
