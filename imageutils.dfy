// Image URL helpers (src/utils/imageUtils.js): toHero rewrites a
// thumbnail URL into its hero-sized variant, generatePlaceholder builds a
// placeholder-service URL.
//
// The two regular expressions of toHero are written as explicit matchers:
// `/\/\d+\/\d+/` (a picsum size pair) and `/w=\d+/i` (a width parameter).
// A replace with a non-global regex rewrites the leftmost match only.

module ImageUtils {
  import opened Wrappers
  import opened Strings

  /** The length of the run of digits in s from index i. */
  function DigitRun(s: string, i: nat): (n: nat)
    requires i <= |s|
    ensures i + n <= |s|
    ensures forall k :: i <= k < i + n ==> IsDigit(s[k])
    ensures i + n == |s| || !IsDigit(s[i + n])
    decreases |s| - i
  {
    if i < |s| && IsDigit(s[i]) then 1 + DigitRun(s, i + 1) else 0
  }

  datatype Pattern = SizePair | WidthParam

  /** The end of the match of the pattern that starts at index i, if any.
      Greedy digit runs: a size pair is '/', the whole digit run, '/', the
      whole next digit run (a shorter first run would be followed by a
      digit, not by '/'). */
  function MatchAt(p: Pattern, s: string, i: nat): (e: Option<nat>)
    requires i <= |s|
    ensures e.Some? ==> i < e.value <= |s|
    ensures e.Some? ==> e.value == |s| || !IsDigit(s[e.value])
  {
    if i == |s| then None
    else match p
      case SizePair =>
        if s[i] != '/' then None
        else
          var a := DigitRun(s, i + 1);
          if a == 0 || i + 1 + a == |s| || s[i + 1 + a] != '/' then None
          else
            var b := DigitRun(s, i + 2 + a);
            if b == 0 then None else Some(i + 2 + a + b)
      case WidthParam =>
        if (s[i] != 'w' && s[i] != 'W') || i + 1 == |s| || s[i + 1] != '=' then None
        else
          var a := DigitRun(s, i + 2);
          if a == 0 then None else Some(i + 2 + a)
  }

  /** The leftmost match at or after index i, as (start, end). */
  function FirstMatch(p: Pattern, s: string, i: nat): (m: Option<(nat, nat)>)
    requires i <= |s|
    ensures m.Some? ==> i <= m.value.0 < m.value.1 <= |s| && MatchAt(p, s, m.value.0) == Some(m.value.1)
    ensures m.Some? ==> forall j :: i <= j < m.value.0 ==> MatchAt(p, s, j).None?
    ensures m.None? ==> forall j :: i <= j <= |s| ==> MatchAt(p, s, j).None?
    decreases |s| - i
  {
    if MatchAt(p, s, i).Some? then Some((i, MatchAt(p, s, i).value))
    else if i == |s| then None
    else FirstMatch(p, s, i + 1)
  }

  /** String.prototype.replace with a non-global regex. */
  function ReplaceFirst(p: Pattern, s: string, replacement: string): (r: string)
    ensures FirstMatch(p, s, 0).None? ==> r == s
    ensures FirstMatch(p, s, 0).Some? ==>
      var (i, e) := FirstMatch(p, s, 0).value;
      r == s[..i] + replacement + s[e..]
  {
    match FirstMatch(p, s, 0)
    case None => s
    case Some((i, e)) => s[..i] + replacement + s[e..]
  }

  function Replacement(p: Pattern): string
  {
    match p
    case SizePair => "/1920/1080"
    case WidthParam => "w=1920"
  }

  const Picsum := "picsum.photos"

  /** toHero: "" for an empty URL, a picsum URL gets its first size pair
      replaced by 1920x1080, any other URL its first width parameter by
      w=1920. */
  function ToHero(url: string): string
  {
    if url == "" then ""
    else if Contains(url, Picsum) then ReplaceFirst(SizePair, url, Replacement(SizePair))
    else ReplaceFirst(WidthParam, url, Replacement(WidthParam))
  }

  /** The replacement text is itself a match of its pattern. */
  lemma ReplacementMatches(p: Pattern, r: string, i: nat)
    requires i + |Replacement(p)| <= |r| && r[i..i + |Replacement(p)|] == Replacement(p)
    requires i + |Replacement(p)| == |r| || !IsDigit(r[i + |Replacement(p)|])
    ensures MatchAt(p, r, i) == Some(i + |Replacement(p)|)
  {
    SliceChars(r, i, Replacement(p));
    match p
    case SizePair =>
      assert r[i] == '/' && r[i + 1] == '1' && r[i + 2] == '9' && r[i + 3] == '2' && r[i + 4] == '0';
      assert r[i + 5] == '/' && r[i + 6] == '1' && r[i + 7] == '0' && r[i + 8] == '8' && r[i + 9] == '0';
      DigitRunOfDigits(r, i + 1, 4);
      DigitRunOfDigits(r, i + 6, 4);
    case WidthParam =>
      assert r[i] == 'w' && r[i + 1] == '=' && r[i + 2] == '1' && r[i + 3] == '9' && r[i + 4] == '2' && r[i + 5] == '0';
      DigitRunOfDigits(r, i + 2, 4);
  }

  /** The characters of a slice, position by position. */
  lemma SliceChars(r: string, i: nat, w: string)
    requires i + |w| <= |r| && r[i..i + |w|] == w
    ensures forall k :: i <= k < i + |w| ==> r[k] == w[k - i]
  {
    forall k | i <= k < i + |w|
      ensures r[k] == w[k - i]
    {
      assert r[i..i + |w|][k - i] == r[k];
    }
  }

  lemma {:induction false} DigitRunOfDigits(s: string, i: nat, n: nat)
    requires i + n <= |s| && forall k :: i <= k < i + n ==> IsDigit(s[k])
    requires i + n == |s| || !IsDigit(s[i + n])
    ensures DigitRun(s, i) == n
    decreases n
  {
    if n > 0 {
      DigitRunOfDigits(s, i + 1, n - 1);
    }
  }

  /** A digit run that stops before the point where two strings part
      reads the same in both. */
  lemma DigitRunPrefix(s: string, t: string, i: nat, j: nat)
    requires i <= j < |s| && j < |t| && forall k :: 0 <= k < j ==> s[k] == t[k]
    requires !IsDigit(s[j]) && !IsDigit(t[j])
    ensures DigitRun(s, i) == DigitRun(t, i)
    decreases j - i
  {
    if i < j {
      DigitRunPrefix(s, t, i + 1, j);
    }
  }

  /** Before the rewritten match nothing new matches: a match starting
      earlier reads at most up to the first character of the replaced span,
      which is the same kind of character before and after, so it would
      have matched before. */
  lemma SizePairNoEarlier(s: string, r: string, i: nat, j: nat)
    requires j < i < |s| && i < |r| && forall k :: 0 <= k < i ==> r[k] == s[k]
    requires s[i] == '/' && r[i] == '/' && DigitRun(s, i + 1) > 0 && DigitRun(r, i + 1) > 0
    requires MatchAt(SizePair, s, j).None?
    ensures MatchAt(SizePair, r, j).None?
  {
    if s[j] == '/' {
      DigitRunPrefix(s, r, j + 1, i);
      var a := DigitRun(s, j + 1);
      if a > 0 && j + 1 + a < i && s[j + 1 + a] == '/' {
        DigitRunPrefix(s, r, j + 2 + a, i);
      }
    }
  }

  lemma WidthParamNoEarlier(s: string, r: string, i: nat, j: nat)
    requires j < i < |s| && i < |r| && forall k :: 0 <= k < i ==> r[k] == s[k]
    requires !IsDigit(s[i]) && !IsDigit(r[i]) && s[i] != '=' && r[i] != '='
    requires MatchAt(WidthParam, s, j).None?
    ensures MatchAt(WidthParam, r, j).None?
  {
    if j + 1 < i {
      DigitRunPrefix(s, r, j + 2, i);
    }
  }

  lemma NoEarlierMatch(p: Pattern, s: string, i: nat, e: nat, j: nat)
    requires FirstMatch(p, s, 0) == Some((i, e)) && j < i
    ensures MatchAt(p, s[..i] + Replacement(p) + s[e..], j).None?
  {
    var r := s[..i] + Replacement(p) + s[e..];
    assert forall k :: 0 <= k < i ==> r[k] == s[k] by {
      forall k | 0 <= k < i
        ensures r[k] == s[k]
      {
        assert r[k] == s[..i][k];
      }
    }
    assert r[i] == Replacement(p)[0];
    match p
    case SizePair =>
      assert r[i + 1] == '1';
      SizePairNoEarlier(s, r, i, j);
    case WidthParam =>
      WidthParamNoEarlier(s, r, i, j);
  }

  /** After the rewrite, the leftmost match is the replacement itself, at
      the same place. */
  lemma ReplacedIsFirstMatch(p: Pattern, s: string)
    requires FirstMatch(p, s, 0).Some?
    ensures var (i, e) := FirstMatch(p, s, 0).value;
            FirstMatch(p, ReplaceFirst(p, s, Replacement(p)), 0) == Some((i, i + |Replacement(p)|))
  {
    var i := FirstMatch(p, s, 0).value.0;
    var e := FirstMatch(p, s, 0).value.1;
    var r := s[..i] + Replacement(p) + s[e..];
    assert r == ReplaceFirst(p, s, Replacement(p));
    ReplacedMatchesAt(p, s, i, e);
    forall j | 0 <= j < i
      ensures MatchAt(p, r, j).None?
    {
      NoEarlierMatch(p, s, i, e, j);
    }
    FirstMatchFrom(p, r, 0, i);
  }

  lemma ReplacedMatchesAt(p: Pattern, s: string, i: nat, e: nat)
    requires i <= e <= |s| && (e == |s| || !IsDigit(s[e]))
    ensures MatchAt(p, s[..i] + Replacement(p) + s[e..], i) == Some(i + |Replacement(p)|)
  {
    var r := s[..i] + Replacement(p) + s[e..];
    var n := |Replacement(p)|;
    assert r[i..i + n] == Replacement(p);
    if i + n < |r| {
      assert r[i + n] == s[e];
    }
    ReplacementMatches(p, r, i);
  }

  /** A match at i with none between j and i is the leftmost from j. */
  lemma FirstMatchFrom(p: Pattern, s: string, j: nat, i: nat)
    requires j <= i <= |s| && MatchAt(p, s, i).Some?
    requires forall k :: j <= k < i ==> MatchAt(p, s, k).None?
    ensures FirstMatch(p, s, j) == Some((i, MatchAt(p, s, i).value))
  {
  }


  /** Rewriting is idempotent for each pattern: a rewritten URL is
      rewritten to itself. */
  lemma ReplaceFirstIdempotent(p: Pattern, s: string)
    ensures ReplaceFirst(p, ReplaceFirst(p, s, Replacement(p)), Replacement(p))
            == ReplaceFirst(p, s, Replacement(p))
  {
    if FirstMatch(p, s, 0).Some? {
      ReplacedIsFirstMatch(p, s);
      var (i, e) := FirstMatch(p, s, 0).value;
      var r := ReplaceFirst(p, s, Replacement(p));
      var n := |Replacement(p)|;
      assert r[..i] == s[..i];
      assert r[i + n..] == s[e..];
    }
  }

  /** The characters a match of the pattern is made of. */
  predicate MatchChar(p: Pattern, c: char)
  {
    match p
    case SizePair => c == '/' || IsDigit(c)
    case WidthParam => c == 'w' || c == 'W' || c == '=' || IsDigit(c)
  }

  lemma MatchChars(p: Pattern, s: string, i: nat, k: int)
    requires i <= |s| && MatchAt(p, s, i).Some? && i <= k < MatchAt(p, s, i).value
    ensures MatchChar(p, s[k])
  {
  }

  lemma ReplacementChars(p: Pattern, k: int)
    requires 0 <= k < |Replacement(p)|
    ensures MatchChar(p, Replacement(p)[k])
  {
  }

  /** No character of "picsum.photos" can be part of a match. */
  lemma PicsumApart(p: Pattern, c: char)
    requires MatchChar(p, c)
    ensures c !in Picsum
  {
  }

  /** An occurrence of sub cannot reach into a stretch of r that holds
      none of its characters. */
  lemma Apart(r: string, sub: string, j: int, a: int, b: int)
    requires OccursAt(r, sub, j) && sub != [] && 0 <= a < b <= |r|
    requires forall k :: a <= k < b ==> r[k] !in sub
    ensures j + |sub| <= a || b <= j
  {
    var k := if j < a then a else j;
    if k < j + |sub| && k < b {
      OccursChar(r, sub, j, k);
    }
  }

  /** A character of an occurrence of sub is a character of sub. */
  lemma OccursChar(r: string, sub: string, j: int, k: int)
    requires OccursAt(r, sub, j) && j <= k < j + |sub|
    ensures r[k] in sub
  {
    assert r[k] == r[j..j + |sub|][k - j];
  }

  /** An occurrence read at an offset in a string that agrees there. */
  lemma OccursShifted(r: string, s: string, sub: string, j: int, d: int)
    requires OccursAt(r, sub, j) && 0 <= j - d && j - d + |sub| <= |s|
    requires forall x :: j <= x < j + |sub| ==> s[x - d] == r[x]
    ensures OccursAt(s, sub, j - d)
  {
    assert s[j - d..j - d + |sub|] == r[j..j + |sub|];
  }

  /** The splice of t into s in place of s[i..e]. */
  function Splice(s: string, i: int, e: int, t: string): (r: string)
    requires 0 <= i <= e <= |s|
    ensures |r| == |s| - (e - i) + |t|
    ensures forall x :: 0 <= x < i ==> r[x] == s[x]
    ensures forall x :: 0 <= x < |t| ==> r[i + x] == t[x]
    ensures forall x :: e <= x < |s| ==> r[x + |t| - (e - i)] == s[x]
  {
    s[..i] + t + s[e..]
  }

  lemma SpliceOccursBack(s: string, i: int, e: int, t: string, sub: string, j: int)
    requires 0 <= i < e <= |s| && t != [] && sub != []
    requires forall k :: 0 <= k < |t| ==> t[k] !in sub
    requires OccursAt(Splice(s, i, e, t), sub, j)
    ensures Contains(s, sub)
  {
    var r := Splice(s, i, e, t);
    var d := |t| - (e - i);
    Apart(r, sub, j, i, i + |t|);
    if j + |sub| <= i {
      OccursShifted(r, s, sub, j, 0);
    } else {
      OccursShifted(r, s, sub, j, d);
    }
  }

  lemma SpliceOccursForth(s: string, i: int, e: int, t: string, sub: string, j: int)
    requires 0 <= i < e <= |s| && sub != []
    requires forall k :: i <= k < e ==> s[k] !in sub
    requires OccursAt(s, sub, j)
    ensures Contains(Splice(s, i, e, t), sub)
  {
    var r := Splice(s, i, e, t);
    var d := |t| - (e - i);
    Apart(s, sub, j, i, e);
    if j + |sub| <= i {
      OccursShifted(s, r, sub, j, 0);
    } else {
      OccursShifted(s, r, sub, j, -d);
    }
  }

  /** Replacing a non-empty stretch of s by a non-empty t, where neither
      holds a character of sub, neither creates nor removes an occurrence
      of sub. */
  lemma SpliceKeepsContains(s: string, i: int, e: int, t: string, sub: string)
    requires 0 <= i < e <= |s| && t != [] && sub != []
    requires forall k :: i <= k < e ==> s[k] !in sub
    requires forall k :: 0 <= k < |t| ==> t[k] !in sub
    ensures Contains(Splice(s, i, e, t), sub) <==> Contains(s, sub)
  {
    if Contains(Splice(s, i, e, t), sub) {
      var j :| 0 <= j <= |Splice(s, i, e, t)| - |sub| && OccursAt(Splice(s, i, e, t), sub, j);
      SpliceOccursBack(s, i, e, t, sub, j);
    }
    if Contains(s, sub) {
      var j :| 0 <= j <= |s| - |sub| && OccursAt(s, sub, j);
      SpliceOccursForth(s, i, e, t, sub, j);
    }
  }

  /** Rewriting never adds or removes "picsum.photos", so it never moves a
      URL from one branch of toHero to the other. */
  lemma RewriteKeepsPicsum(p: Pattern, s: string)
    ensures Contains(ReplaceFirst(p, s, Replacement(p)), Picsum) <==> Contains(s, Picsum)
    ensures s != [] ==> ReplaceFirst(p, s, Replacement(p)) != []
  {
    if FirstMatch(p, s, 0).Some? {
      var (i, e) := FirstMatch(p, s, 0).value;
      forall k | i <= k < e ensures s[k] !in Picsum {
        MatchChars(p, s, i, k);
        PicsumApart(p, s[k]);
      }
      forall k | 0 <= k < |Replacement(p)| ensures Replacement(p)[k] !in Picsum {
        ReplacementChars(p, k);
        PicsumApart(p, Replacement(p)[k]);
      }
      SpliceKeepsContains(s, i, e, Replacement(p), Picsum);
      assert Splice(s, i, e, Replacement(p)) == ReplaceFirst(p, s, Replacement(p));
    }
  }

  /** toHero is idempotent: a hero URL is its own hero URL. */
  lemma ToHeroIdempotent(url: string)
    ensures ToHero(ToHero(url)) == ToHero(url)
  {
    if url != "" {
      var p := if Contains(url, Picsum) then SizePair else WidthParam;
      RewriteKeepsPicsum(p, url);
      ReplaceFirstIdempotent(p, url);
    }
  }

  // ---------------------------------------------------------------------
  // generatePlaceholder
  // ---------------------------------------------------------------------

  const PlaceholderBase := "https://via.placeholder.com/"

  /** The placeholder URL for a size and an optional caption ("No Image"
      when the argument is left out); the caption is percent-encoded by
      `encode`, which stands for encodeURIComponent. */
  function Placeholder(width: nat, height: nat, text: Option<string>, encode: string -> string): (url: string)
    ensures StartsWith(url, PlaceholderBase)
  {
    PlaceholderBase + SizePath(width, height, "333/fff?text=" + encode(text.GetOr("No Image")))
  }

  /** "<width>x<height>/<rest>" */
  function SizePath(width: nat, height: nat, rest: string): string
  {
    NatToString(width) + "x" + NatToString(height) + "/" + rest
  }

  /** The size can be read back from the URL: different sizes give
      different placeholders. */
  lemma PlaceholderSizeInjective(w1: nat, h1: nat, w2: nat, h2: nat, t1: Option<string>, t2: Option<string>,
                                 encode: string -> string)
    requires Placeholder(w1, h1, t1, encode) == Placeholder(w2, h2, t2, encode)
    ensures w1 == w2 && h1 == h2
  {
    var m1 := SizePath(w1, h1, "333/fff?text=" + encode(t1.GetOr("No Image")));
    var m2 := SizePath(w2, h2, "333/fff?text=" + encode(t2.GetOr("No Image")));
    assert m1 == (PlaceholderBase + m1)[|PlaceholderBase|..];
    assert m2 == (PlaceholderBase + m2)[|PlaceholderBase|..];
    SizeReadBack(w1, h1, "333/fff?text=" + encode(t1.GetOr("No Image")),
                 w2, h2, "333/fff?text=" + encode(t2.GetOr("No Image")));
  }

  lemma SizeReadBack(w1: nat, h1: nat, c1: string, w2: nat, h2: nat, c2: string)
    requires SizePath(w1, h1, c1) == SizePath(w2, h2, c2)
    ensures w1 == w2 && h1 == h2
  {
    var tail1 := NatToString(h1) + "/" + c1;
    var tail2 := NatToString(h2) + "/" + c2;
    assert SizePath(w1, h1, c1) == NatToString(w1) + "x" + tail1;
    assert SizePath(w2, h2, c2) == NatToString(w2) + "x" + tail2;
    DigitsThenMark(SizePath(w1, h1, c1), NatToString(w1), NatToString(w2), 'x', tail1, tail2);
    NatToStringInjective(w1, w2);
    DigitsThenMark(tail1, NatToString(h1), NatToString(h2), '/', c1, c2);
    NatToStringInjective(h1, h2);
  }

  /** Two digit strings followed by the same non-digit mark split a string
      at the same place. */
  lemma DigitsThenMark(s: string, a: string, b: string, mark: char, x: string, y: string)
    requires AllDigits(a) && AllDigits(b) && !IsDigit(mark)
    requires s == a + [mark] + x && s == b + [mark] + y
    ensures a == b && x == y
  {
    DigitRunOfDigits(s, 0, |a|);
    DigitRunOfDigits(s, 0, |b|);
    assert a == s[..|a|] && b == s[..|b|];
    assert x == s[|a| + 1..] && y == s[|b| + 1..];
  }
}
