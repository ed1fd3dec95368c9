/** Topic patterns: dot-separated segments, `*` for exactly one and `#` for any number. */
module Topic {

  const MULTI := "#"
  const SINGLE := "*"

  // ----- What a match is -----

  /** One pattern segment against the piece of the key it is given. */
  predicate Fits(segment: string, piece: seq<string>) {
    if segment == MULTI then true
    else if segment == SINGLE then |piece| == 1
    else piece == [segment]
  }

  function Concat(pieces: seq<seq<string>>): seq<string> {
    if pieces == [] then [] else pieces[0] + Concat(pieces[1..])
  }

  ghost predicate PiecesFit(pattern: seq<string>, pieces: seq<seq<string>>) {
    |pieces| == |pattern| && forall i :: 0 <= i < |pattern| ==> Fits(pattern[i], pieces[i])
  }

  /** The key can be cut into consecutive pieces, one per pattern segment, that fit. */
  ghost predicate Matches(pattern: seq<string>, key: seq<string>) {
    exists pieces :: PiecesFit(pattern, pieces) && Concat(pieces) == key
  }

  // ----- The recurrence behind the table -----

  predicate Accepts(pattern: seq<string>, key: seq<string>)
    decreases |pattern| + |key|
  {
    if pattern == [] then key == []
    else if pattern[0] == MULTI then Accepts(pattern[1..], key) || (key != [] && Accepts(pattern, key[1..]))
    else key != [] && (pattern[0] == SINGLE || pattern[0] == key[0]) && Accepts(pattern[1..], key[1..])
  }

  lemma {:induction false} AcceptsAfterPiece(pattern: seq<string>, piece: seq<string>, rest: seq<string>)
    requires pattern != [] && Fits(pattern[0], piece) && Accepts(pattern[1..], rest)
    ensures Accepts(pattern, piece + rest)
    decreases |piece|
  {
    if pattern[0] == MULTI {
      if piece == [] {
        assert piece + rest == rest;
      } else {
        AcceptsAfterPiece(pattern, piece[1..], rest);
        assert (piece + rest)[1..] == piece[1..] + rest;
      }
    } else {
      assert (piece + rest)[1..] == rest;
    }
  }

  lemma {:induction false} PiecesAreAccepted(pattern: seq<string>, pieces: seq<seq<string>>)
    requires PiecesFit(pattern, pieces)
    ensures Accepts(pattern, Concat(pieces))
    decreases |pattern|
  {
    if pattern != [] {
      PiecesAreAccepted(pattern[1..], pieces[1..]);
      AcceptsAfterPiece(pattern, pieces[0], Concat(pieces[1..]));
    }
  }

  lemma {:induction false} AcceptedHasPieces(pattern: seq<string>, key: seq<string>) returns (pieces: seq<seq<string>>)
    requires Accepts(pattern, key)
    ensures PiecesFit(pattern, pieces) && Concat(pieces) == key
    decreases |pattern| + |key|
  {
    if pattern == [] {
      pieces := [];
    } else if pattern[0] == MULTI && Accepts(pattern[1..], key) {
      var rest := AcceptedHasPieces(pattern[1..], key);
      pieces := [[]] + rest;
      assert [] + Concat(rest) == key;
    } else if pattern[0] == MULTI {
      var more := AcceptedHasPieces(pattern, key[1..]);
      pieces := [[key[0]] + more[0]] + more[1..];
      assert key == [key[0]] + (more[0] + Concat(more[1..]));
    } else {
      var rest := AcceptedHasPieces(pattern[1..], key[1..]);
      pieces := [[key[0]]] + rest;
      assert key == [key[0]] + Concat(rest);
    }
  }

  /** The recurrence decides the existence of a fitting cut, both ways. */
  lemma AcceptsIffMatches(pattern: seq<string>, key: seq<string>)
    ensures Accepts(pattern, key) <==> Matches(pattern, key)
  {
    if Accepts(pattern, key) {
      var pieces := AcceptedHasPieces(pattern, key);
    }
    if Matches(pattern, key) {
      var pieces :| PiecesFit(pattern, pieces) && Concat(pieces) == key;
      PiecesAreAccepted(pattern, pieces);
    }
  }

  // ----- The table -----

  lemma LastRow(pattern: seq<string>, key: seq<string>)
    ensures forall j :: 0 <= j <= |key| ==> Accepts(pattern[|pattern|..], key[j..]) == (j == |key|)
  {}

  /** What a cell of the table is, in terms of the cells below and to the right. */
  lemma Cell(pattern: seq<string>, key: seq<string>, i: nat, j: nat)
    requires i < |pattern| && j <= |key|
    ensures Accepts(pattern[i..], key[j..]) ==
            if pattern[i] == MULTI then Accepts(pattern[i + 1..], key[j..])
               || (j < |key| && Accepts(pattern[i..], key[j + 1..]))
            else j < |key| && (pattern[i] == SINGLE || pattern[i] == key[j]) && Accepts(pattern[i + 1..], key[j + 1..])
  {
    assert pattern[i..][1..] == pattern[i + 1..];
    assert j < |key| ==> key[j..][1..] == key[j + 1..];
  }

  /** Fill the table from the last pattern segment and the end of the key backwards. */
  method MatchSegments(pattern: seq<string>, key: seq<string>) returns (r: bool)
    ensures r <==> Matches(pattern, key)
  {
    hide Accepts, Matches;
    LastRow(pattern, key);
    var matches := new bool[|pattern| + 1, |key| + 1]((_, _) => false);
    matches[|pattern|, |key|] := true;
    for i := |pattern| downto 0
      invariant forall j :: 0 <= j <= |key| ==> matches[i, j] == Accepts(pattern[i..], key[j..])
    {
      for j := |key| + 1 downto 0
        invariant forall k :: 0 <= k <= |key| ==> matches[i + 1, k] == Accepts(pattern[i + 1..], key[k..])
        invariant forall k :: j <= k <= |key| ==> matches[i, k] == Accepts(pattern[i..], key[k..])
      {
        Cell(pattern, key, i, j);
        if pattern[i] == MULTI {
          matches[i, j] := matches[i + 1, j] || (j < |key| && matches[i, j + 1]);
        } else if j == |key| {
          matches[i, j] := false;
        } else if pattern[i] == SINGLE || pattern[i] == key[j] {
          matches[i, j] := matches[i + 1, j + 1];
        } else {
          matches[i, j] := false;
        }
      }
    }
    assert pattern[0..] == pattern && key[0..] == key;
    AcceptsIffMatches(pattern, key);
    r := matches[0, 0];
  }

  // ----- Splitting on dots -----

  function Split(s: string): (r: seq<string>)
    ensures |r| >= 1
  {
    if s == "" then [""]
    else
      var rest := Split(s[1..]);
      if s[0] == '.' then [""] + rest else [[s[0]] + rest[0]] + rest[1..]
  }

  function Join(segments: seq<string>): string {
    if segments == [] then ""
    else if |segments| == 1 then segments[0]
    else segments[0] + "." + Join(segments[1..])
  }

  lemma {:induction false} JoinSplit(s: string)
    ensures Join(Split(s)) == s
  {
    if s != "" {
      var rest := Split(s[1..]);
      JoinSplit(s[1..]);
      if s[0] == '.' {
        assert ([""] + rest)[1..] == rest;
        assert s == "." + s[1..];
      } else {
        var r := [[s[0]] + rest[0]] + rest[1..];
        assert r[1..] == rest[1..];
        assert s == [s[0]] + s[1..];
      }
    }
  }

  /** Splitting on dots loses nothing. */
  lemma SplitInjective(a: string, b: string)
    requires Split(a) == Split(b)
    ensures a == b
  {
    JoinSplit(a);
    JoinSplit(b);
  }

  predicate HasWildcard(s: string) {
    exists i :: 0 <= i < |s| && (s[i] == '*' || s[i] == '#')
  }

  lemma {:induction false} SegmentsWithoutWildcards(s: string)
    requires !HasWildcard(s)
    ensures forall i :: 0 <= i < |Split(s)| ==> !HasWildcard(Split(s)[i])
  {
    if s != "" {
      SegmentsWithoutWildcards(s[1..]);
    }
  }

  lemma {:induction false} LiteralPattern(pattern: seq<string>, key: seq<string>)
    requires forall i :: 0 <= i < |pattern| ==> pattern[i] != MULTI && pattern[i] != SINGLE
    ensures Accepts(pattern, key) <==> pattern == key
    decreases |pattern|
  {
    if pattern != [] && key != [] {
      LiteralPattern(pattern[1..], key[1..]);
      assert pattern == [pattern[0]] + pattern[1..] && key == [key[0]] + key[1..];
    }
  }

  /** What `matchTopic` answers. */
  predicate TopicMatches(pattern: string, key: string) {
    Accepts(Split(pattern), Split(key))
  }

  method MatchTopic(pattern: string, key: string) returns (r: bool)
    ensures r <==> Matches(Split(pattern), Split(key))
    ensures r <==> TopicMatches(pattern, key)
  {
    AcceptsIffMatches(Split(pattern), Split(key));
    if pattern == MULTI {
      MultiMatchesAll(key);
      return true;
    }
    r := MatchSegments(Split(pattern), Split(key));
  }

  /** The shortcut for a lone `#` agrees with the table. */
  lemma MultiMatchesAll(key: string)
    ensures TopicMatches(MULTI, key)
  {
    assert MULTI[1..] == "" && Split("") == [""] && [MULTI[0]] + "" == MULTI;
    assert Split(MULTI) == [MULTI];
    PiecesAreAccepted([MULTI], [Split(key)]);
    assert Concat([Split(key)]) == Split(key) + Concat([]) == Split(key);
  }

  /** A pattern without wildcards matches exactly itself: topic routing degenerates to direct routing. */
  lemma WithoutWildcardsTopicIsDirect(pattern: string, key: string)
    requires !HasWildcard(pattern)
    ensures TopicMatches(pattern, key) <==> pattern == key
  {
    SegmentsWithoutWildcards(pattern);
    forall i | 0 <= i < |Split(pattern)|
      ensures Split(pattern)[i] != MULTI && Split(pattern)[i] != SINGLE
    {
      assert !HasWildcard(Split(pattern)[i]);
      assert HasWildcard(MULTI) by { assert MULTI[0] == '#'; }
      assert HasWildcard(SINGLE) by { assert SINGLE[0] == '*'; }
    }
    LiteralPattern(Split(pattern), Split(key));
    if Split(pattern) == Split(key) { SplitInjective(pattern, key); }
  }

  /** `b` asks no more of a key than `a`: a literal may become `*`, anything may become `#`. */
  predicate Widens(a: string, b: string) {
    a == b || b == MULTI || (b == SINGLE && a != MULTI)
  }

  /** Widening segments only enlarges the set of matched keys. */
  lemma WideningEnlarges(narrow: seq<string>, wide: seq<string>, key: seq<string>)
    requires |narrow| == |wide| && forall i :: 0 <= i < |narrow| ==> Widens(narrow[i], wide[i])
    requires Matches(narrow, key)
    ensures Matches(wide, key)
  {
    var pieces :| PiecesFit(narrow, pieces) && Concat(pieces) == key;
    assert PiecesFit(wide, pieces);
  }
}
