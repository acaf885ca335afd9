/** The outline marker `^(\s)*(\*)+(\s)*` written out by hand: which lines
    carry it, how long it is, what is left once it is removed (the payload)
    and how many asterisks a line holds (its level). */
module AsteriskRegex {

  /** Python's `\s` on `str` patterns: exactly the characters for which
      `str.isspace()` holds. */
  predicate IsSpace(c: char)
  {
    c == ' ' || ('\t' <= c <= '\r') || ('\U{1C}' <= c <= '\U{1F}') || c == '\U{85}'
    || c == '\U{A0}' || c == '\U{1680}' || ('\U{2000}' <= c <= '\U{200A}')
    || ('\U{2028}' <= c <= '\U{2029}') || c == '\U{202F}' || c == '\U{205F}' || c == '\U{3000}'
  }

  /** Length of the maximal run of whitespace in `s` starting at `from`. */
  function SpaceRun(s: string, from: nat): (n: nat)
    requires from <= |s|
    ensures from + n <= |s|
    ensures forall k {:trigger IsSpace(s[k])} :: from <= k < from + n ==> IsSpace(s[k])
    ensures from + n == |s| || !IsSpace(s[from + n])
    decreases |s| - from
  {
    if from < |s| && IsSpace(s[from]) then 1 + SpaceRun(s, from + 1) else 0
  }

  /** Length of the maximal run of `*` in `s` starting at `from`. */
  function StarRun(s: string, from: nat): (n: nat)
    requires from <= |s|
    ensures from + n <= |s|
    ensures forall k :: from <= k < from + n ==> s[k] == '*'
    ensures from + n == |s| || s[from + n] != '*'
    decreases |s| - from
  {
    if from < |s| && s[from] == '*' then 1 + StarRun(s, from + 1) else 0
  }

  /** `start_with_asterisk`: after the leading whitespace comes a `*`. */
  predicate StartsWithAsterisk(s: string)
  {
    var w := SpaceRun(s, 0);
    w < |s| && s[w] == '*'
  }

  ghost predicate AllSpaces(t: string)
  {
    forall k :: 0 <= k < |t| ==> IsSpace(t[k])
  }

  ghost predicate AllStars(t: string)
  {
    forall k :: 0 <= k < |t| ==> t[k] == '*'
  }

  /** `p` is, as a whole, a word of the language `(\s)*(\*)+(\s)*`. */
  ghost predicate IsMarker(p: string)
  {
    exists i, j :: 0 <= i < j <= |p| && AllSpaces(p[..i]) && AllStars(p[i..j]) && AllSpaces(p[j..])
  }

  /** `re.match(_ASTRISK_REGEX, s) is not None`: some prefix of `s` is a marker. */
  ghost predicate RegexMatches(s: string)
  {
    exists m :: 0 <= m <= |s| && IsMarker(s[..m])
  }

  /** Length of the marker the regex matches at the start of `s`; 0 if none. */
  function MarkerLength(s: string): (m: nat)
    ensures m <= |s|
    ensures m > 0 <==> StartsWithAsterisk(s)
  {
    if StartsWithAsterisk(s) then
      var w := SpaceRun(s, 0);
      var st := StarRun(s, w);
      w + st + SpaceRun(s, w + st)
    else 0
  }

  /** Any marker prefix starts with exactly the leading whitespace of `s`
      followed by a non-empty part of its star run, and is no longer than
      `MarkerLength(s)`. */
  lemma MarkerPrefixShape(s: string, m: nat, i: int, j: int)
    requires m <= |s|
    requires 0 <= i < j <= m
    requires AllSpaces(s[..m][..i]) && AllStars(s[..m][i..j]) && AllSpaces(s[..m][j..])
    ensures i == SpaceRun(s, 0) && j <= i + StarRun(s, i)
    ensures StartsWithAsterisk(s) && m <= MarkerLength(s)
  {
    var w := SpaceRun(s, 0);
    assert forall k :: 0 <= k < i ==> IsSpace(s[k]) by {
      forall k | 0 <= k < i ensures IsSpace(s[k]) { assert s[k] == s[..m][..i][k]; }
    }
    assert forall k :: i <= k < j ==> s[k] == '*' by {
      forall k | i <= k < j ensures s[k] == '*' { assert s[k] == s[..m][i..j][k - i]; }
    }
    assert forall k :: j <= k < m ==> IsSpace(s[k]) by {
      forall k | j <= k < m ensures IsSpace(s[k]) { assert s[k] == s[..m][j..][k - j]; }
    }
    assert !IsSpace(s[i]);
  }

  /** The hand-written predicate agrees with the regex in both directions. */
  lemma StartsWithAsteriskIffRegexMatches(s: string)
    ensures StartsWithAsterisk(s) <==> RegexMatches(s)
  {
    if StartsWithAsterisk(s) {
      LongestMarker(s);
    }
    if RegexMatches(s) {
      var m :| 0 <= m <= |s| && IsMarker(s[..m]);
      var i, j :| 0 <= i < j <= |s[..m]| && AllSpaces(s[..m][..i]) && AllStars(s[..m][i..j]) && AllSpaces(s[..m][j..]);
      MarkerPrefixShape(s, m, i, j);
    }
  }

  /** `MarkerLength` is the longest marker prefix: the one the greedy regex
      removes. */
  lemma LongestMarker(s: string)
    requires StartsWithAsterisk(s)
    ensures IsMarker(s[..MarkerLength(s)])
    ensures forall m :: MarkerLength(s) < m <= |s| ==> !IsMarker(s[..m])
  {
    var w := SpaceRun(s, 0);
    var st := StarRun(s, w);
    var m := MarkerLength(s);
    var p := s[..m];
    assert AllSpaces(p[..w]) by {
      forall k | 0 <= k < w ensures IsSpace(p[..w][k]) { assert p[..w][k] == s[k]; }
    }
    var stars, rest := p[w..w + st], p[w + st..];
    assert AllStars(stars) by {
      forall k | 0 <= k < |stars| ensures stars[k] == '*' { assert stars[k] == s[w + k]; }
    }
    assert AllSpaces(rest) by {
      forall k | 0 <= k < |rest| ensures IsSpace(rest[k]) { assert rest[k] == s[w + st + k]; }
    }
    assert IsMarker(p);
    forall m' | m < m' <= |s|
      ensures !IsMarker(s[..m'])
    {
      if IsMarker(s[..m']) {
        var i, j :| 0 <= i < j <= |s[..m']| && AllSpaces(s[..m'][..i]) && AllStars(s[..m'][i..j]) && AllSpaces(s[..m'][j..]);
        MarkerPrefixShape(s, m', i, j);
      }
    }
  }

  /** `re.sub(_ASTRISK_REGEX, "", s)`: the pattern is anchored with `^`, so at
      most one marker is removed, the one at the start. */
  function Payload(s: string): (r: string)
    ensures |r| <= |s| && r == s[|s| - |r|..]
    ensures !StartsWithAsterisk(s) ==> r == s
  {
    s[MarkerLength(s)..]
  }

  /** The payload is what follows the longest marker prefix, unchanged. */
  lemma PayloadStripsLongestMarker(s: string)
    requires StartsWithAsterisk(s)
    ensures var m := |s| - |Payload(s)|;
      IsMarker(s[..m]) && s[m..] == Payload(s)
      && forall m' :: m < m' <= |s| ==> !IsMarker(s[..m'])
  {
    LongestMarker(s);
  }

  /** A line read as whitespace, a run of asterisks, whitespace and the rest
      (the rest starting with neither whitespace nor, right after the stars,
      another asterisk) has that rest as its payload, whatever whitespace or
      asterisks it holds further on, and its level counts the run plus the
      rest's asterisks. */
  lemma DecomposedLine(ws: string, stars: string, gap: string, rest: string)
    requires forall k :: 0 <= k < |ws| ==> IsSpace(ws[k])
    requires |stars| > 0 && forall k :: 0 <= k < |stars| ==> stars[k] == '*'
    requires forall k :: 0 <= k < |gap| ==> IsSpace(gap[k])
    requires |rest| > 0 ==> !IsSpace(rest[0]) && (|gap| == 0 ==> rest[0] != '*')
    ensures var s := ws + stars + gap + rest;
      StartsWithAsterisk(s) && Payload(s) == rest && Level(s) == |stars| + Level(rest)
  {
    var s := ws + stars + gap + rest;
    DecomposedMarker(ws, stars, gap, rest);
    assert s[MarkerLength(s)..] == rest;
    LevelSplit(ws + stars + gap, rest);
    LevelSplit(ws + stars, gap);
    LevelSplit(ws, stars);
    NoStars(ws);
    NoStars(gap);
    StarsCount(stars);
  }

  /** Whitespace `ws` followed by a non-space: the leading run is `ws`. */
  lemma LeadingRun(ws: string, t: string)
    requires forall k :: 0 <= k < |ws| ==> IsSpace(ws[k])
    requires |t| > 0 && !IsSpace(t[0])
    ensures SpaceRun(ws + t, 0) == |ws|
  {
    var s := ws + t;
    assert forall k :: 0 <= k < |ws| ==> s[k] == ws[k];
    assert s[|ws|] == t[0];
    SpaceRunIs(s, 0, |ws|);
  }

  /** Stars after a prefix `p`, followed by something that is not a star:
      the star run is exactly those stars. */
  lemma MiddleStarRun(p: string, stars: string, t: string)
    requires forall k :: 0 <= k < |stars| ==> stars[k] == '*'
    requires |t| == 0 || t[0] != '*'
    ensures StarRun(p + stars + t, |p|) == |stars|
  {
    var s := p + stars + t;
    assert forall k :: |p| <= k < |p| + |stars| ==> s[k] == stars[k - |p|];
    assert |p| + |stars| < |s| ==> s[|p| + |stars|] == t[0];
    StarRunIs(s, |p|, |stars|);
  }

  /** Whitespace after a prefix `p`, followed by a non-space or the end: the
      space run from there is exactly that whitespace. */
  lemma TrailingRun(p: string, gap: string, t: string)
    requires forall k :: 0 <= k < |gap| ==> IsSpace(gap[k])
    requires |t| == 0 || !IsSpace(t[0])
    ensures SpaceRun(p + gap + t, |p|) == |gap|
  {
    var s := p + gap + t;
    assert forall k :: |p| <= k < |p| + |gap| ==> s[k] == gap[k - |p|];
    assert |p| + |gap| < |s| ==> s[|p| + |gap|] == t[0];
    SpaceRunIs(s, |p|, |gap|);
  }

  /** A line built as whitespace, stars, whitespace and a rest that starts
      with neither: its marker is exactly the first three parts. */
  lemma DecomposedMarker(ws: string, stars: string, gap: string, rest: string)
    requires forall k :: 0 <= k < |ws| ==> IsSpace(ws[k])
    requires |stars| > 0 && forall k :: 0 <= k < |stars| ==> stars[k] == '*'
    requires forall k :: 0 <= k < |gap| ==> IsSpace(gap[k])
    requires |rest| > 0 ==> !IsSpace(rest[0]) && (|gap| == 0 ==> rest[0] != '*')
    ensures var s := ws + stars + gap + rest;
      StartsWithAsterisk(s) && MarkerLength(s) == |ws| + |stars| + |gap|
  {
    var s := ws + stars + gap + rest;
    var tail := stars + gap + rest;
    assert s == ws + tail;
    assert tail[0] == stars[0];
    LeadingRun(ws, tail);
    assert s[|ws|] == '*';
    assert s == ws + stars + (gap + rest);
    assert |gap + rest| == 0 || (gap + rest)[0] != '*';
    MiddleStarRun(ws, stars, gap + rest);
    TrailingRun(ws + stars, gap, rest);
  }

  /** `SpaceRun` is the unique maximal run. */
  lemma SpaceRunIs(s: string, from: nat, n: nat)
    requires from + n <= |s|
    requires forall k :: from <= k < from + n ==> IsSpace(s[k])
    requires from + n == |s| || !IsSpace(s[from + n])
    ensures SpaceRun(s, from) == n
  {
  }

  /** `StarRun` is the unique maximal run. */
  lemma StarRunIs(s: string, from: nat, n: nat)
    requires from + n <= |s|
    requires forall k :: from <= k < from + n ==> s[k] == '*'
    requires from + n == |s| || s[from + n] != '*'
    ensures StarRun(s, from) == n
  {
  }

  /** `len(re.findall(r"\*", s))`: the number of asterisks anywhere in `s`. */
  function Level(s: string): nat
  {
    multiset(s)['*']
  }

  /** What `re.findall` does for a one-character pattern: scan left to right
      and collect one match per occurrence. */
  function StarCount(s: string): nat
  {
    if |s| == 0 then 0 else (if s[0] == '*' then 1 else 0) + StarCount(s[1..])
  }

  /** The level agrees with the left-to-right scan. */
  lemma {:induction false} LevelIsStarCount(s: string)
    ensures Level(s) == StarCount(s)
  {
    if |s| > 0 {
      assert s == [s[0]] + s[1..];
      LevelIsStarCount(s[1..]);
    }
  }

  /** The level of a concatenation is the sum of the levels. */
  lemma LevelSplit(a: string, b: string)
    ensures Level(a + b) == Level(a) + Level(b)
  {
    assert multiset(a + b) == multiset(a) + multiset(b);
  }

  /** Whitespace holds no asterisk. */
  lemma NoStars(t: string)
    requires forall k :: 0 <= k < |t| ==> IsSpace(t[k])
    ensures Level(t) == 0
  {
    assert forall k :: 0 <= k < |t| ==> t[k] != '*';
    assert '*' !in t;
  }

  /** Every line the filter keeps has level at least one. */
  lemma LevelPositive(s: string)
    requires StartsWithAsterisk(s)
    ensures Level(s) >= 1
  {
    assert s[SpaceRun(s, 0)] in multiset(s);
  }

  /** A slice holding only whitespace carries no level. */
  lemma SpaceSliceLevel(s: string, i: nat, n: nat)
    requires i + n <= |s|
    requires forall k {:trigger IsSpace(s[k])} :: i <= k < i + n ==> IsSpace(s[k])
    ensures Level(s[i..i + n]) == 0
  {
    var t := s[i..i + n];
    forall k | 0 <= k < |t| ensures IsSpace(t[k]) { assert t[k] == s[i + k]; }
    NoStars(t);
  }

  /** A slice holding only asterisks has one level per character. */
  lemma StarSliceLevel(s: string, i: nat, n: nat)
    requires i + n <= |s|
    requires forall k :: i <= k < i + n ==> s[k] == '*'
    ensures Level(s[i..i + n]) == n
  {
    var t := s[i..i + n];
    forall k | 0 <= k < |t| ensures t[k] == '*' { assert t[k] == s[i + k]; }
    StarsCount(t);
  }

  /** Cutting `s` into `w` characters without an asterisk, `st` asterisks,
      `g` characters without an asterisk and the rest. */
  lemma LevelOfParts(s: string, w: nat, st: nat, g: nat)
    requires w + st + g <= |s|
    requires Level(s[0..w]) == 0 && Level(s[w..w + st]) == st && Level(s[w + st..w + st + g]) == 0
    ensures Level(s) == st + Level(s[w + st + g..])
  {
    var e, m := w + st, w + st + g;
    LevelCut(s, m);
    LevelCut(s[..m], e);
    assert s[..m][..e] == s[..e] && s[..m][e..] == s[e..m];
    LevelCut(s[..e], w);
    assert s[..e][..w] == s[0..w] && s[..e][w..] == s[w..e];
  }

  /** Cutting a line in two splits its level between the halves. */
  lemma LevelCut(s: string, k: nat)
    requires k <= |s|
    ensures Level(s) == Level(s[..k]) + Level(s[k..])
  {
    assert s == s[..k] + s[k..];
    LevelSplit(s[..k], s[k..]);
  }

  /** The level counts the marker's asterisks and also every asterisk left
      in the payload. */
  lemma LevelIsMarkerStarsPlusPayloadStars(s: string)
    requires StartsWithAsterisk(s)
    ensures Level(s) == StarRun(s, SpaceRun(s, 0)) + Level(Payload(s))
  {
    var w := SpaceRun(s, 0);
    var st := StarRun(s, w);
    var g := SpaceRun(s, w + st);
    LevelAfterMarker(s, w, st, g);
    assert MarkerLength(s) == w + st + g;
    assert Payload(s) == s[w + st + g..];
  }

  /** Whitespace, a run of `st` stars and whitespace, in that order, leave
      the level of the rest of the line `st` short of the whole. */
  lemma LevelAfterMarker(s: string, w: nat, st: nat, g: nat)
    requires w <= |s| && w == SpaceRun(s, 0)
    requires w + st <= |s| && st == StarRun(s, w)
    requires g == SpaceRun(s, w + st)
    ensures Level(s) == st + Level(s[w + st + g..])
  {
    SpaceSliceLevel(s, 0, w);
    StarSliceLevel(s, w, st);
    SpaceSliceLevel(s, w + st, g);
    LevelOfParts(s, w, st, g);
  }

  /** A run of asterisks of length n holds n asterisks. */
  lemma {:induction false} StarsCount(t: string)
    requires forall k :: 0 <= k < |t| ==> t[k] == '*'
    ensures Level(t) == |t|
  {
    if |t| > 0 {
      assert t == [t[0]] + t[1..];
      StarsCount(t[1..]);
    }
  }
}
