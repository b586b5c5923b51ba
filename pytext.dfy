/** The Python string operations the recognition service relies on:
    str.isspace, str.strip, str.split() with no argument, str.replace of one
    character, str.lower and str.title, on ASCII letters. */
module PyText {
  import opened Strings

  /** Characters for which Python's str.isspace() is true. */
  predicate IsSpace(c: char)
  {
    var n := c as int;
    (9 <= n <= 13) || (28 <= n <= 32) || n == 0x85 || n == 0xA0 || n == 0x1680
    || (0x2000 <= n <= 0x200A) || n == 0x2028 || n == 0x2029 || n == 0x202F
    || n == 0x205F || n == 0x3000
  }

  predicate NoSpace(s: string) { forall i :: 0 <= i < |s| ==> !IsSpace(s[i]) }

  /** str.lstrip() */
  function LStrip(s: string): (r: string)
    ensures |r| <= |s| && r == s[|s| - |r|..]
    ensures r == [] || !IsSpace(r[0])
    ensures forall i :: 0 <= i < |s| - |r| ==> IsSpace(s[i])
  {
    if s != [] && IsSpace(s[0]) then LStrip(s[1..]) else s
  }

  /** str.rstrip() */
  function RStrip(s: string): (r: string)
    ensures |r| <= |s| && r == s[..|r|]
    ensures r == [] || !IsSpace(r[|r| - 1])
    ensures forall i :: |r| <= i < |s| ==> IsSpace(s[i])
  {
    if s != [] && IsSpace(s[|s| - 1]) then RStrip(s[..|s| - 1]) else s
  }

  /** str.strip() */
  function Strip(s: string): string
  {
    RStrip(LStrip(s))
  }

  /** A string with no whitespace at either end is its own strip. */
  lemma StripUnpadded(s: string)
    requires s != [] && !IsSpace(s[0]) && !IsSpace(s[|s| - 1])
    ensures Strip(s) == s
  {
  }

  /** True for a string that str.strip() reduces to "" (Python's `not s.strip()`). */
  predicate IsBlank(s: string)
  {
    forall i :: 0 <= i < |s| ==> IsSpace(s[i])
  }

  lemma StripEmptyIffBlank(s: string)
    ensures Strip(s) == "" <==> IsBlank(s)
  {
    var t := LStrip(s);
    if t != "" {
      assert !IsSpace(s[|s| - |t|]);
    }
  }

  /** str.replace(old, new) for one-character old and new. */
  function ReplaceChar(s: string, from: char, to: char): (r: string)
    ensures |r| == |s|
    ensures forall i :: 0 <= i < |s| ==> r[i] == (if s[i] == from then to else s[i])
  {
    seq(|s|, i requires 0 <= i < |s| => if s[i] == from then to else s[i])
  }

  // ---------------------------------------------------------------------
  // str.split() with no separator: maximal runs of non-whitespace
  // ---------------------------------------------------------------------

  /** The longest prefix of s holding no whitespace. */
  function TakeWord(s: string): (w: string)
    ensures |w| <= |s| && w == s[..|w|] && NoSpace(w)
    ensures |w| == |s| || IsSpace(s[|w|])
  {
    if s == [] || IsSpace(s[0]) then [] else [s[0]] + TakeWord(s[1..])
  }

  /** Every element is a non-empty run of non-whitespace characters. */
  predicate ProperWords(ws: seq<string>)
  {
    ws == [] || (ws[0] != [] && NoSpace(ws[0]) && ProperWords(ws[1..]))
  }

  function Words(s: string): (r: seq<string>)
    ensures ProperWords(r)
    decreases |s|
  {
    var t := LStrip(s);
    if t == [] then []
    else
      var w := TakeWord(t);
      var rest := Words(t[|w|..]);
      assert ([w] + rest)[1..] == rest;
      [w] + rest
  }

  lemma TakeWordOfJoined(w: string, rest: string)
    requires w != [] && NoSpace(w)
    requires rest == [] || IsSpace(rest[0])
    ensures TakeWord(w + rest) == w
  {
    assert (w + rest)[..|w|] == w;
  }

  /** A word followed by whitespace or nothing is the first word. */
  lemma WordsCons(w: string, rest: string)
    requires w != [] && NoSpace(w)
    requires rest == [] || IsSpace(rest[0])
    ensures Words(w + rest) == [w] + Words(rest)
  {
    var s := w + rest;
    assert s[0] == w[0];
    assert LStrip(s) == s;
    TakeWordOfJoined(w, rest);
    assert s[|w|..] == rest;
  }

  lemma {:induction false} LStripBlankPrefix(gap: string, tail: string)
    requires IsBlank(gap)
    ensures LStrip(gap + tail) == LStrip(tail)
  {
    if gap != [] {
      assert (gap + tail)[1..] == gap[1..] + tail;
      LStripBlankPrefix(gap[1..], tail);
    } else {
      assert gap + tail == tail;
    }
  }

  /** Leading whitespace does not change the words. */
  lemma WordsBlankPrefix(gap: string, tail: string)
    requires IsBlank(gap)
    ensures Words(gap + tail) == Words(tail)
  {
    LStripBlankPrefix(gap, tail);
  }

  /** A word followed by whitespace and more text. */
  lemma WordsWordThenGap(s: string, a: string, gap: string, b: string)
    requires a != [] && NoSpace(a) && gap != [] && IsBlank(gap) && s == a + gap + b
    ensures Words(s) == [a] + Words(gap + b)
  {
    assert s == a + (gap + b);
    WordsCons(a, gap + b);
  }

  /** Whitespace followed by one word. */
  lemma WordsGapThenWord(gap: string, b: string)
    requires b != [] && NoSpace(b) && IsBlank(gap)
    ensures Words(gap + b) == [b]
  {
    WordsBlankPrefix(gap, b);
    WordsCons(b, "");
    assert b + "" == b;
  }

  lemma WordsLeadingSpace(tail: string)
    ensures Words(" " + tail) == Words(tail)
  {
    assert (" " + tail)[1..] == tail;
    assert LStrip(" " + tail) == LStrip(tail);
  }

  /** Splitting a space-joined list of words gives the words back. */
  lemma {:induction false} WordsOfJoin(ws: seq<string>)
    requires ProperWords(ws)
    ensures Words(Join(ws, " ")) == ws
  {
    if |ws| == 1 {
      WordsCons(ws[0], "");
      assert ws[0] + "" == ws[0];
    } else if |ws| > 1 {
      var tail := Join(ws[1..], " ");
      assert Join(ws, " ") == ws[0] + (" " + tail);
      WordsCons(ws[0], " " + tail);
      WordsLeadingSpace(tail);
      WordsOfJoin(ws[1..]);
      HeadTail(ws);
    }
  }

  // ---------------------------------------------------------------------
  // str.title() on ASCII: a letter after a letter is lower-cased, any other
  // letter is upper-cased; other characters are unchanged
  // ---------------------------------------------------------------------

  function TitleFrom(w: string, afterLetter: bool): (r: string)
    ensures |r| == |w|
    ensures forall i :: 0 <= i < |w| ==> IsLetter(r[i]) == IsLetter(w[i])
    ensures forall i :: 0 <= i < |w| && !IsLetter(w[i]) ==> r[i] == w[i]
    ensures forall i :: 0 <= i < |w| ==> LowerChar(r[i]) == LowerChar(w[i])
  {
    if w == [] then []
    else
      [if afterLetter then LowerChar(w[0]) else UpperChar(w[0])] + TitleFrom(w[1..], IsLetter(w[0]))
  }

  function Title(w: string): string
  {
    TitleFrom(w, false)
  }

  /** Title-casing a word makes every letter the right case for its position:
      upper after a non-letter, lower after a letter. */
  lemma {:induction false} TitleFromCases(w: string, afterLetter: bool, i: nat)
    requires i < |w| && IsLetter(w[i])
    ensures var after := if i == 0 then afterLetter else IsLetter(w[i - 1]);
      TitleFrom(w, afterLetter)[i] == if after then LowerChar(w[i]) else UpperChar(w[i])
  {
    if i > 0 {
      TitleFromCases(w[1..], IsLetter(w[0]), i - 1);
    }
  }

  lemma {:induction false} TitleFromIdempotent(w: string, afterLetter: bool)
    ensures TitleFrom(TitleFrom(w, afterLetter), afterLetter) == TitleFrom(w, afterLetter)
  {
    if w != [] {
      var t := TitleFrom(w, afterLetter);
      assert t[1..] == TitleFrom(w[1..], IsLetter(w[0]));
      assert IsLetter(t[0]) == IsLetter(w[0]);
      TitleFromIdempotent(w[1..], IsLetter(w[0]));
    }
  }

  /** A capitalised word of letters is its own title case. */
  lemma TitleOfCapitalised(w: string)
    requires w != [] && IsUpper(w[0])
    requires forall i :: 1 <= i < |w| ==> IsLower(w[i])
    ensures Title(w) == w
  {
    forall i | 0 <= i < |w| ensures Title(w)[i] == w[i] {
      TitleFromCases(w, false, i);
    }
  }

  lemma TitleLower(w: string, afterLetter: bool)
    ensures Lower(TitleFrom(w, afterLetter)) == Lower(w)
  {
  }
}
