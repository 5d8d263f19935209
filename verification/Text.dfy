/** Substring search and splitting, as the string utilities do them. */
module Text {
  import opened Common

  predicate At(s: string, d: string, i: nat)
  {
    i + |d| <= |s| && forall k :: 0 <= k < |d| ==> s[i + k] == d[k]
  }

  predicate Contains(s: string, d: string)
  {
    Find(s, d, 0).Some?
  }

  /** First occurrence at or after a position. */
  function Find(s: string, d: string, from: nat): (r: Option<nat>)
    ensures r.Some? ==> from <= r.value && At(s, d, r.value)
    decreases |s| - from
  {
    if from + |d| > |s| then None
    else if At(s, d, from) then Some(from)
    else Find(s, d, from + 1)
  }

  lemma {:induction false} FindIsFirst(s: string, d: string, from: nat)
    ensures var r := Find(s, d, from);
      forall j: nat :: from <= j && At(s, d, j) ==> r.Some? && r.value <= j
    decreases |s| - from
  {
    if from + |d| <= |s| && !At(s, d, from) {
      FindIsFirst(s, d, from + 1);
    }
  }

  /** The pieces of the text from a position on, between occurrences of a delimiter. */
  function SplitFrom(s: string, d: string, from: nat): seq<string>
    requires d != "" && from <= |s|
    decreases |s| - from
  {
    match Find(s, d, from)
    case None => [s[from..]]
    case Some(i) => [s[from..i]] + SplitFrom(s, d, i + |d|)
  }

  function Split(s: string, d: string): seq<string>
    requires d != ""
  {
    SplitFrom(s, d, 0)
  }

  predicate AnyContains(tokens: seq<string>, needle: string)
  {
    tokens != [] && (Contains(tokens[0], needle) || AnyContains(tokens[1..], needle))
  }

  function Join(tokens: seq<string>, d: string): string
  {
    if tokens == [] then ""
    else if |tokens| == 1 then tokens[0]
    else tokens[0] + d + Join(tokens[1..], d)
  }

  /** An occurrence inside a slice is an occurrence that ends before the slice does. */
  lemma AtInSlice(s: string, d: string, from: nat, to: nat, j: nat)
    requires from <= to <= |s|
    ensures At(s[from..to], d, j) <==> At(s, d, from + j) && from + j + |d| <= to
  {
  }

  lemma ContainsInSlice(s: string, d: string, from: nat, to: nat)
    requires from <= to <= |s|
    ensures Contains(s[from..to], d) <==> exists j: nat :: from <= j && At(s, d, j) && j + |d| <= to
  {
    var r := Find(s[from..to], d, 0);
    FindIsFirst(s[from..to], d, 0);
    if r.Some? {
      AtInSlice(s, d, from, to, r.value);
      assert At(s, d, from + r.value);
    }
    if j: nat :| from <= j && At(s, d, j) && j + |d| <= to {
      AtInSlice(s, d, from, to, j - from);
    }
  }

  /** No piece holds a delimiter. */
  lemma {:induction false} PiecesHoldNoDelimiter(s: string, d: string, from: nat, t: string)
    requires d != "" && from <= |s| && t in SplitFrom(s, d, from)
    ensures !Contains(t, d)
    decreases |s| - from
  {
    var r := Find(s, d, from);
    var to := if r.Some? then r.value else |s|;
    FindIsFirst(s, d, from);
    ContainsInSlice(s, d, from, to);
    assert s[from..] == s[from..|s|];
    if r.Some? && t != s[from..to] {
      PiecesHoldNoDelimiter(s, d, r.value + |d|, t);
    }
  }

  /**
   * A needle that shares no character with the delimiter is in some piece
   * exactly when it is in the text: splitting cannot cut it.
   */
  lemma {:induction false} NeedleSurvivesSplit(s: string, d: string, needle: string, from: nat)
    requires d != "" && needle != "" && from <= |s|
    requires forall c :: c in needle ==> c !in d
    ensures AnyContains(SplitFrom(s, d, from), needle) <==> Find(s, needle, from).Some?
    decreases |s| - from
  {
    var r := Find(s, d, from);
    if r.Some? {
      var i := r.value;
      NeedleSurvivesSplit(s, d, needle, i + |d|);
      NeedleInParts(s, d, needle, from, i);
      assert ([s[from..i]] + SplitFrom(s, d, i + |d|))[1..] == SplitFrom(s, d, i + |d|);
    } else {
      assert s[from..] == s[from..|s|];
      FindIsFirst(s, needle, from);
      ContainsInSlice(s, needle, from, |s|);
    }
  }

  lemma NeedleInParts(s: string, d: string, needle: string, from: nat, i: nat)
    requires d != "" && needle != "" && At(s, d, i) && from <= i
    requires forall c :: c in needle ==> c !in d
    ensures Find(s, needle, from).Some? <==>
      Contains(s[from..i], needle) || Find(s, needle, i + |d|).Some?
  {
    ContainsInSlice(s, needle, from, i);
    FindIsFirst(s, needle, from);
    FindIsFirst(s, needle, i + |d|);
    var r := Find(s, needle, from);
    if r.Some? && i < r.value + |needle| && r.value < i + |d| {
      Overlap(s, d, needle, i, r.value);
    }
    var q := Find(s, needle, i + |d|);
    if q.Some? { assert At(s, needle, q.value); }
  }

  lemma Overlap(s: string, d: string, needle: string, i: nat, j: nat)
    requires needle != "" && d != ""
    requires At(s, d, i) && At(s, needle, j) && i < j + |needle| && j < i + |d|
    ensures exists c :: c in needle && c in d
  {
    var m := if j < i then i else j;
    assert s[i + (m - i)] == s[j + (m - j)];
    assert needle[m - j] == d[m - i];
    assert needle[m - j] in needle && needle[m - j] in d;
  }

  /** From a position on, the text is the tokens with delimiters between them. */
  predicate Spells(s: string, from: nat, tokens: seq<string>, d: string)
    requires tokens != []
    decreases |tokens|
  {
    var n := from + |tokens[0]|;
    && At(s, tokens[0], from)
    && if |tokens| == 1 then n == |s| else At(s, d, n) && Spells(s, n + |d|, tokens[1..], d)
  }

  lemma {:induction false} JoinSpells(s: string, from: nat, tokens: seq<string>, d: string)
    requires tokens != [] && from <= |s| && s[from..] == Join(tokens, d)
    ensures Spells(s, from, tokens, d)
    decreases |tokens|
  {
    if |tokens| == 1 {
      LastTokenAt(s, from, tokens[0]);
    } else {
      FirstOfJoin(s, from, tokens, d);
      JoinSpells(s, from + |tokens[0]| + |d|, tokens[1..], d);
    }
  }

  lemma FirstOfJoin(s: string, from: nat, tokens: seq<string>, d: string)
    requires |tokens| > 1 && from <= |s| && s[from..] == Join(tokens, d)
    ensures var n := from + |tokens[0]|;
      At(s, tokens[0], from) && At(s, d, n) && s[n + |d|..] == Join(tokens[1..], d)
  {
    TokenAt(s, from, tokens[0], d, Join(tokens[1..], d));
  }

  lemma LastTokenAt(s: string, from: nat, t: string)
    requires from <= |s| && s[from..] == t
    ensures At(s, t, from) && from + |t| == |s|
  {
  }

  lemma TokenAt(s: string, from: nat, head: string, d: string, rest: string)
    requires from <= |s| && s[from..] == head + d + rest
    ensures At(s, head, from) && At(s, d, from + |head|) && s[from + |head| + |d|..] == rest
  {
    var t := head + d;
    assert s[from..][|t|..] == rest;
    assert forall k :: 0 <= k < |t| ==> s[from + k] == s[from..][k] == t[k];
    assert forall k :: 0 <= k < |d| ==> d[k] == t[|head| + k];
  }

  /** Splitting undoes joining when no piece holds the delimiter's first character. */
  lemma {:induction false} SplitOfJoin(s: string, from: nat, tokens: seq<string>, d: string)
    requires d != "" && tokens != [] && from <= |s| && Spells(s, from, tokens, d)
    requires forall i :: 0 <= i < |tokens| ==> d[0] !in tokens[i]
    ensures SplitFrom(s, d, from) == tokens
    decreases |tokens|
  {
    var n := from + |tokens[0]|;
    TokenEnds(s, from, tokens[0], d);
    if |tokens| == 1 {
      OneToken(s, from, tokens, d);
    } else {
      SplitOfJoin(s, n + |d|, tokens[1..], d);
      NextPiece(s, d, from, n);
      HeadAndTail(SplitFrom(s, d, from), SplitFrom(s, d, n + |d|), tokens);
    }
  }

  lemma OneToken(s: string, from: nat, tokens: seq<string>, d: string)
    requires d != "" && |tokens| == 1 && from <= |s| && Find(s, d, from) == None && s[from..] == tokens[0]
    ensures SplitFrom(s, d, from) == tokens
  {
  }

  lemma NextPiece(s: string, d: string, from: nat, i: nat)
    requires d != "" && from <= |s| && Find(s, d, from) == Some(i)
    ensures SplitFrom(s, d, from) == [s[from..i]] + SplitFrom(s, d, i + |d|)
  {
  }

  /** A token without the delimiter is the first piece. */
  lemma TokenEnds(s: string, from: nat, t: string, d: string)
    requires d != "" && At(s, t, from) && d[0] !in t
    requires from + |t| == |s| || At(s, d, from + |t|)
    ensures Find(s, d, from) == (if from + |t| < |s| then Some(from + |t|) else None)
    ensures s[from..from + |t|] == t
    ensures from + |t| == |s| ==> s[from..] == t
  {
    forall j: nat | from <= j < from + |t| ensures !At(s, d, j) {
      assert s[from + (j - from)] == t[j - from];
    }
    FirstAt(s, d, from, from + |t|);
  }

  lemma FirstAt(s: string, d: string, from: nat, end: nat)
    requires d != "" && from <= end <= |s|
    requires forall j: nat :: from <= j < end ==> !At(s, d, j)
    requires end == |s| || At(s, d, end)
    ensures Find(s, d, from) == (if end < |s| then Some(end) else None)
  {
    FindIsFirst(s, d, from);
  }

  // ------------------------------------------------------- splitting by getline

  /** The pieces std::getline leaves: at the end of the text there is none, not an empty one. */
  function GetlineRest(done: seq<string>, s: string, d: char, from: nat): seq<string>
    requires from <= |s|
    decreases |s| - from
  {
    if from == |s| then done
    else
      match Find(s, [d], from)
      case None => done + [s[from..]]
      case Some(i) => GetlineRest(done + [s[from..i]], s, d, i + 1)
  }

  function Getline(s: string, d: char): seq<string>
  {
    GetlineRest([], s, d, 0)
  }

  method SplitToVecBySingleChar(str: string, delimiter: char) returns (tokens: seq<string>)
    ensures tokens == Getline(str, delimiter)
  {
    tokens := [];
    var pos: nat := 0;
    while pos < |str|
      invariant pos <= |str|
      invariant GetlineRest(tokens, str, delimiter, pos) == Getline(str, delimiter)
    {
      var end := Find(str, [delimiter], pos);
      if end.None? {
        return tokens + [str[pos..]];
      }
      tokens := tokens + [str[pos..end.value]];
      pos := end.value + 1;
    }
  }

  function WithoutEmptyEnd(pieces: seq<string>): seq<string>
  {
    if pieces != [] && pieces[|pieces| - 1] == "" then pieces[..|pieces| - 1] else pieces
  }

  lemma LastDropped(done: seq<string>, x: string)
    ensures WithoutEmptyEnd(done + [x]) == if x == "" then done else done + [x]
  {
  }

  lemma {:induction false} GetlineRestDrops(done: seq<string>, s: string, d: char, from: nat)
    requires from <= |s|
    ensures GetlineRest(done, s, d, from) == WithoutEmptyEnd(SplitRest(done, s, [d], from))
    decreases |s| - from
  {
    var r := Find(s, [d], from);
    if r.Some? {
      GetlineRestDrops(done + [s[from..r.value]], s, d, r.value + 1);
    } else {
      LastDropped(done, s[from..]);
    }
  }

  /** The two ways of splitting differ in an empty last piece alone. */
  lemma GetlineDropsEmptyEnd(s: string, d: char)
    ensures Getline(s, d) == WithoutEmptyEnd(Split(s, [d]))
  {
    GetlineRestDrops([], s, d, 0);
    SplitIsRest(s, [d]);
  }

  /** Getline undoes joining exactly when the last piece is not empty. */
  lemma GetlineOfJoinIff(tokens: seq<string>, d: char)
    requires tokens != [] && forall i :: 0 <= i < |tokens| ==> d !in tokens[i]
    ensures Getline(Join(tokens, [d]), d) == tokens <==> tokens[|tokens| - 1] != ""
  {
    var s := Join(tokens, [d]);
    assert s[0..] == s;
    JoinSpells(s, 0, tokens, [d]);
    SplitOfJoin(s, 0, tokens, [d]);
    GetlineDropsEmptyEnd(s, d);
  }

  /** The splitting loop as a tail call: what is done, and where the rest starts. */
  function SplitRest(done: seq<string>, s: string, d: string, from: nat): seq<string>
    requires d != "" && from <= |s|
    decreases |s| - from
  {
    match Find(s, d, from)
    case None => done + [s[from..]]
    case Some(i) => SplitRest(done + [s[from..i]], s, d, i + |d|)
  }

  lemma {:induction false} SplitRestAppends(done: seq<string>, s: string, d: string, from: nat)
    requires d != "" && from <= |s|
    ensures SplitRest(done, s, d, from) == done + SplitFrom(s, d, from)
    decreases |s| - from
  {
    var r := Find(s, d, from);
    if r.Some? {
      var x, rest := s[from..r.value], SplitFrom(s, d, r.value + |d|);
      SplitRestAppends(done + [x], s, d, r.value + |d|);
      NextPiece(s, d, from, r.value);
      MoveOne(done, x, SplitFrom(s, d, from), rest);
    }
  }

  /** Search, keep the text before the hit, move past it. */
  method SplitToVecByString(str: string, delimiter: string) returns (tokens: seq<string>)
    requires delimiter != ""
    ensures tokens == Split(str, delimiter)
  {
    tokens := [];
    var start: nat := 0;
    var end := Find(str, delimiter, 0);
    while end.Some?
      invariant start <= |str| && end == Find(str, delimiter, start)
      invariant SplitRest(tokens, str, delimiter, start) == SplitRest([], str, delimiter, 0)
      decreases |str| - start
    {
      tokens := tokens + [str[start..end.value]];
      start := end.value + |delimiter|;
      end := Find(str, delimiter, start);
    }
    tokens := tokens + [str[start..]];
    SplitIsRest(str, delimiter);
  }

  lemma SplitIsRest(s: string, d: string)
    requires d != ""
    ensures SplitRest([], s, d, 0) == Split(s, d)
  {
    SplitRestAppends([], s, d, 0);
    NothingBefore(Split(s, d));
  }

  // ----------------------------------------------------- splitting loses nothing

  /** Pieces that are each followed by a delimiter. */
  function Ended(tokens: seq<string>, d: string): string
  {
    if tokens == [] then ""
    else Ended(tokens[..|tokens| - 1], d) + (tokens[|tokens| - 1] + d)
  }

  lemma EndedSnoc(tokens: seq<string>, x: string, d: string)
    ensures Ended(tokens + [x], d) == Ended(tokens, d) + (x + d)
  {
    assert (tokens + [x])[..|tokens|] == tokens;
  }

  lemma JoinOfCons(x: string, rest: seq<string>, d: string)
    requires rest != []
    ensures Join([x] + rest, d) == (x + d) + Join(rest, d)
  {
    assert ([x] + rest)[1..] == rest;
  }

  lemma {:induction false} JoinAfterEnded(done: seq<string>, tokens: seq<string>, d: string)
    requires tokens != []
    ensures Join(done + tokens, d) == Ended(done, d) + Join(tokens, d)
    decreases |done|
  {
    if done == [] {
      NothingBefore(tokens);
      NothingBefore(Join(tokens, d));
    } else {
      var n := |done| - 1;
      JoinAfterEnded(done[..n], [done[n]] + tokens, d);
      JoinOfCons(done[n], tokens, d);
      LastMoves(done, tokens);
      Associative(Ended(done[..n], d), done[n] + d, Join(tokens, d));
    }
  }

  lemma NextPrefix(s: string, d: string, from: nat, i: nat)
    requires from <= i && At(s, d, i)
    ensures s[..from] + (s[from..i] + d) == s[..i + |d|]
  {
    assert s[i..i + |d|] == d;
  }

  lemma {:induction false} RestJoins(done: seq<string>, s: string, d: string, from: nat)
    requires d != "" && from <= |s| && Ended(done, d) == s[..from]
    ensures Join(SplitRest(done, s, d, from), d) == s
    decreases |s| - from
  {
    var r := Find(s, d, from);
    if r.Some? {
      NextIsEnded(done, s, d, from, r.value);
      RestJoins(done + [s[from..r.value]], s, d, r.value + |d|);
    } else {
      LastIsJoined(done, s, d, from);
    }
  }

  lemma NextIsEnded(done: seq<string>, s: string, d: string, from: nat, hit: nat)
    requires d != "" && from <= hit && At(s, d, hit) && Ended(done, d) == s[..from]
    ensures Ended(done + [s[from..hit]], d) == s[..hit + |d|]
  {
    EndedSnoc(done, s[from..hit], d);
    NextPrefix(s, d, from, hit);
  }

  lemma LastIsJoined(done: seq<string>, s: string, d: string, from: nat)
    requires d != "" && from <= |s| && Ended(done, d) == s[..from]
    ensures Join(done + [s[from..]], d) == s
  {
    JoinAfterEnded(done, [s[from..]], d);
    PrefixAndRest(s, from);
  }

  lemma PrefixAndRest(s: string, from: nat)
    requires from <= |s|
    ensures s[..from] + s[from..] == s
  {
  }

  /** Joining the pieces gives the text. */
  lemma JoinOfSplit(s: string, d: string)
    requires d != ""
    ensures Join(Split(s, d), d) == s
  {
    RestJoins([], s, d, 0);
    SplitIsRest(s, d);
  }

  // ----------------------------------------------------------------- trimming

  predicate IsBlank(c: char)
  {
    c == ' ' || c == '\t' || c == '\r' || c == '\n'
  }

  /** Without the blanks at both ends. */
  function Trim(s: string): string
    decreases |s|
  {
    if s != "" && IsBlank(s[0]) then Trim(s[1..])
    else if s != "" && IsBlank(s[|s| - 1]) then Trim(s[..|s| - 1])
    else s
  }

  lemma TrimFirst(c: char, t: string)
    requires IsBlank(c)
    ensures Trim([c] + t) == Trim(t)
  {
    assert ([c] + t)[1..] == t;
  }

  lemma TrimLast(t: string, c: char)
    requires t != "" && !IsBlank(t[0]) && IsBlank(c)
    ensures Trim(t + [c]) == Trim(t)
  {
    assert (t + [c])[..|t|] == t;
  }

  lemma {:induction false} TrimBefore(a: string, t: string)
    requires forall i :: 0 <= i < |a| ==> IsBlank(a[i])
    ensures Trim(a + t) == Trim(t)
    decreases |a|
  {
    if a == "" {
      NothingBefore(t);
    } else {
      var n := |a| - 1;
      TrimFirst(a[n], t);
      TrimBefore(a[..n], [a[n]] + t);
      LastMoves(a, t);
    }
  }

  lemma {:induction false} TrimAfter(t: string, b: string)
    requires t != "" && !IsBlank(t[0]) && forall i :: 0 <= i < |b| ==> IsBlank(b[i])
    ensures Trim(t + b) == Trim(t)
    decreases |b|
  {
    if b == "" {
      assert t + b == t;
    } else {
      var n := |b| - 1;
      TrimAfter(t, b[..n]);
      TrimLast(t + b[..n], b[n]);
      assert t + b == (t + b[..n]) + [b[n]];
    }
  }

  /** Blanks on either side are all that goes. */
  lemma TrimmedBetweenBlanks(a: string, s: string, b: string)
    requires (forall i :: 0 <= i < |a| ==> IsBlank(a[i])) && (forall i :: 0 <= i < |b| ==> IsBlank(b[i]))
    requires s != "" && !IsBlank(s[0]) && !IsBlank(s[|s| - 1])
    ensures Trim(a + (s + b)) == s
  {
    TrimBefore(a, s + b);
    TrimAfter(s, b);
  }
}
