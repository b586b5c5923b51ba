// convertSrtToVtt of the player page (src/pages/Stream.jsx): SubRip text
// turned into WebVTT. The cue regular expression
//   (?:\d+)?\s*\n\s*(T)\s*-->\s*(T)\s*\n([\s\S]*?)(?=\n{2,}|$)
// with T = \d{2}:\d{2}:\d{2}[,.]\d{3}, run with the g flag, is written
// out below as the scan it performs; times are whole milliseconds.

module SrtToVtt {
  import opened Wrappers
  import opened Strings
  import opened Js

  // ---------------------------------------------------------------------
  // Line endings
  // ---------------------------------------------------------------------

  /** `.replace(/\r\n/g, "\n")` */
  function CrlfToLf(s: string): (r: string)
    ensures |r| <= |s|
    decreases |s|
  {
    if s == [] then []
    else if |s| >= 2 && s[0] == '\r' && s[1] == '\n' then "\n" + CrlfToLf(s[2..])
    else [s[0]] + CrlfToLf(s[1..])
  }

  /** `.replace(/\r/g, "\n")` */
  function CrToLf(s: string): (r: string)
    ensures |r| == |s| && '\r' !in r
    ensures forall i :: 0 <= i < |s| ==> r[i] == if s[i] == '\r' then '\n' else s[i]
  {
    seq(|s|, i requires 0 <= i < |s| => if s[i] == '\r' then '\n' else s[i])
  }

  lemma TrimChars(s: string)
    ensures forall c :: c in Trim(s) ==> c in s
  {
    var u := TrimStart(s);
    assert u == s[|s| - |u|..];
    assert Trim(s) == u[..|Trim(s)|];
    forall c | c in Trim(s)
      ensures c in s
    {
      var i :| 0 <= i < |Trim(s)| && Trim(s)[i] == c;
      assert u[i] == c;
      assert s[|s| - |u| + i] == c;
    }
  }

  /** The text the cue scan reads: line endings unified, then trimmed. */
  function Normalize(srt: string): (r: string)
    ensures '\r' !in r
  {
    var t := CrToLf(CrlfToLf(srt));
    TrimChars(t);
    Trim(t)
  }

  // ---------------------------------------------------------------------
  // Timestamps
  // ---------------------------------------------------------------------

  /** `\d{2}:\d{2}:\d{2}[,.]\d{3}` at q. */
  predicate IsTimeAt(s: string, q: nat)
  {
    q + 12 <= |s|
    && IsDigit(s[q]) && IsDigit(s[q + 1]) && s[q + 2] == ':'
    && IsDigit(s[q + 3]) && IsDigit(s[q + 4]) && s[q + 5] == ':'
    && IsDigit(s[q + 6]) && IsDigit(s[q + 7]) && (s[q + 8] == ',' || s[q + 8] == '.')
    && IsDigit(s[q + 9]) && IsDigit(s[q + 10]) && IsDigit(s[q + 11])
  }

  /** parseTime, in milliseconds: hh·3600 + mm·60 + ss seconds plus the
      milliseconds. */
  function TimeAt(s: string, q: nat): nat
    requires IsTimeAt(s, q)
  {
    (DigitValue(s[q]) * 10 + DigitValue(s[q + 1])) * 3600000
    + (DigitValue(s[q + 3]) * 10 + DigitValue(s[q + 4])) * 60000
    + (DigitValue(s[q + 6]) * 10 + DigitValue(s[q + 7])) * 1000
    + DigitValue(s[q + 9]) * 100 + DigitValue(s[q + 10]) * 10 + DigitValue(s[q + 11])
  }

  /** A comma and a dot before the milliseconds read the same. */
  lemma SeparatorIgnored(s: string, q: nat)
    requires IsTimeAt(s, q)
    ensures IsTimeAt(s[q + 8 := ','], q) && IsTimeAt(s[q + 8 := '.'], q)
    ensures TimeAt(s[q + 8 := ','], q) == TimeAt(s, q) == TimeAt(s[q + 8 := '.'], q)
  {
  }

  // ---------------------------------------------------------------------
  // The scan of the cue expression
  // ---------------------------------------------------------------------

  /** End of the run of whitespace (`\s*`, greedy) starting at k. */
  function WsEnd(s: string, k: nat): (r: nat)
    requires k <= |s|
    ensures k <= r <= |s| && (r == |s| || !IsJsSpace(s[r]))
    ensures forall i :: k <= i < r ==> IsJsSpace(s[i])
    decreases |s| - k
  {
    if k < |s| && IsJsSpace(s[k]) then WsEnd(s, k + 1) else k
  }

  /** Start of the run of whitespace ending at q, not reaching before p. */
  function WsStart(s: string, p: nat, q: nat): (w: nat)
    requires p <= q <= |s|
    ensures p <= w <= q && (w == p || !IsJsSpace(s[w - 1]))
    ensures forall i :: w <= i < q ==> IsJsSpace(s[i])
    decreases q - p
  {
    if p < q && IsJsSpace(s[q - 1]) then WsStart(s, p, q - 1) else q
  }

  /** The last '\n' in s[a..b), if any. */
  function LastNewline(s: string, a: nat, b: nat): (r: Option<nat>)
    requires a <= b <= |s|
    ensures r.Some? ==> a <= r.value < b && s[r.value] == '\n' && forall i :: r.value < i < b ==> s[i] != '\n'
    ensures r.None? ==> forall i :: a <= i < b ==> s[i] != '\n'
    decreases b - a
  {
    if a == b then None
    else if s[b - 1] == '\n' then Some(b - 1)
    else LastNewline(s, a, b - 1)
  }

  /** The two times of a cue line and where its text begins. */
  datatype Header = Header(start: nat, end: nat, body: nat)

  /** `(T)\s*-->\s*(T)\s*\n` at q. The greedy `\s*` before the final `\n`
      gives back characters until a newline follows, so the text begins
      after the last newline of the whitespace that ends the line. */
  function HeaderAt(s: string, q: nat): (h: Option<Header>)
    requires q <= |s|
    ensures h.Some? ==> q < h.value.body <= |s| && s[h.value.body - 1] == '\n'
  {
    if !IsTimeAt(s, q) then None
    else
      var a := WsEnd(s, q + 12);
      if !(a + 3 <= |s| && s[a] == '-' && s[a + 1] == '-' && s[a + 2] == '>') then None
      else
        var c := WsEnd(s, a + 3);
        if !IsTimeAt(s, c) then None
        else
          match LastNewline(s, c + 12, WsEnd(s, c + 12))
          case None => None
          case Some(j) => Some(Header(TimeAt(s, q), TimeAt(s, c), j + 1))
  }

  /** A match of the whole expression, searching from p, has its first
      time at q: `(?:\d+)?\s*\n\s*` needs a newline in the whitespace just
      before q (digits, if any, sit before that whitespace). */
  predicate CueAt(s: string, p: nat, q: nat)
    requires p <= q <= |s|
  {
    LastNewline(s, WsStart(s, p, q), q).Some? && HeaderAt(s, q).Some?
  }

  /** The first index k from q to n with f(k), if any. */
  function FirstIndex(f: nat -> bool, q: nat, n: nat): (r: Option<nat>)
    requires q <= n
    ensures r.Some? ==> q <= r.value <= n && f(r.value) && forall k :: q <= k < r.value ==> !f(k)
    ensures r.None? ==> forall k :: q <= k <= n ==> !f(k)
    decreases n - q
  {
    if f(q) then Some(q)
    else if q == n then None
    else FirstIndex(f, q + 1, n)
  }

  /** Whether a match searched from p has its first time at k. */
  function CueTest(s: string, p: nat): nat -> bool
  {
    k => p <= k <= |s| && CueAt(s, p, k)
  }

  /** `re.exec` from lastIndex p: the leftmost match, which is the one
      whose first time comes first. */
  function Find(s: string, p: nat, q: nat): (r: Option<nat>)
    requires p <= q <= |s|
    ensures r.Some? ==> q <= r.value <= |s| && p < r.value && CueAt(s, p, r.value)
                        && forall k :: q <= k < r.value ==> !CueAt(s, p, k)
    ensures r.None? ==> forall k :: q <= k <= |s| ==> !CueAt(s, p, k)
  {
    FindSpec(s, p, q);
    FirstIndex(CueTest(s, p), q, |s|)
  }

  lemma FindSpec(s: string, p: nat, q: nat)
    requires p <= q <= |s|
    ensures var r := FirstIndex(CueTest(s, p), q, |s|);
            (r.Some? ==> q <= r.value <= |s| && p < r.value && CueAt(s, p, r.value)
                         && forall k :: q <= k < r.value ==> !CueAt(s, p, k))
            && (r.None? ==> forall k :: q <= k <= |s| ==> !CueAt(s, p, k))
  {
    var f := CueTest(s, p);
    var r := FirstIndex(f, q, |s|);
    NoCueAtStart(s, p);
    if r.Some? {
      assert f(r.value);
      forall k | q <= k < r.value
        ensures !CueAt(s, p, k)
      {
        assert !f(k);
      }
    } else {
      forall k | q <= k <= |s|
        ensures !CueAt(s, p, k)
      {
        assert !f(k);
      }
    }
  }

  /** A match needs a newline before its first time, so none starts where
      the search does. */
  lemma NoCueAtStart(s: string, p: nat)
    requires p <= |s|
    ensures !CueAt(s, p, p)
  {
  }

  /** The lazy `[\s\S]*?` up to `(?=\n{2,}|$)`: the first blank line at or
      after b, or the end. */
  function BodyEnd(s: string, b: nat): (e: nat)
    requires b <= |s|
    ensures b <= e <= |s|
    ensures e < |s| ==> e + 1 < |s| && s[e] == '\n' && s[e + 1] == '\n'
    ensures forall k :: b <= k < e ==> !(k + 1 < |s| && s[k] == '\n' && s[k + 1] == '\n')
    decreases |s| - b
  {
    if b == |s| || (b + 1 < |s| && s[b] == '\n' && s[b + 1] == '\n') then b
    else BodyEnd(s, b + 1)
  }

  // ---------------------------------------------------------------------
  // Cue text
  // ---------------------------------------------------------------------

  /** `.split("\n").map(l => l.trim()).filter(l => l.length)` */
  function TextLines(lines: seq<string>): (r: seq<string>)
    requires forall i :: 0 <= i < |lines| ==> '\n' !in lines[i]
    ensures forall i :: 0 <= i < |r| ==> r[i] != "" && '\n' !in r[i] && Trim(r[i]) == r[i]
    ensures |r| <= |lines|
  {
    if lines == [] then []
    else
      var t := Trim(lines[0]);
      TrimChars(lines[0]);
      TrimIdempotent(lines[0]);
      (if t != "" then [t] else []) + TextLines(lines[1..])
  }

  /** The cue text: its lines trimmed, blank ones dropped, joined with
      newlines. */
  function CueText(body: string): string
  {
    Join(TextLines(Split(body, '\n')), "\n")
  }

  // ---------------------------------------------------------------------
  // Cues
  // ---------------------------------------------------------------------

  /** A cue as matched: its times and its text. */
  datatype Cue = Cue(start: nat, end: nat, text: string)

  /** The cues the scan finds from p on, those with empty text skipped. */
  function Raws(s: string, p: nat): seq<Cue>
    requires p <= |s|
    decreases |s| - p
  {
    match Find(s, p, p)
    case None => []
    case Some(q) =>
      var h := HeaderAt(s, q).value;
      var e := BodyEnd(s, h.body);
      var text := CueText(s[h.body..e]);
      if text == "" then Raws(s, e) else [Cue(h.start, h.end, text)] + Raws(s, e)
  }

  /** No cue found has empty text. */
  lemma {:induction false} RawsHaveText(s: string, p: nat)
    requires p <= |s|
    ensures forall i :: 0 <= i < |Raws(s, p)| ==> Raws(s, p)[i].text != ""
    decreases |s| - p
  {
    match Find(s, p, p)
    case None =>
    case Some(q) =>
      var h := HeaderAt(s, q).value;
      var e := BodyEnd(s, h.body);
      var text := CueText(s[h.body..e]);
      RawsHaveText(s, e);
      if text != "" {
        assert Raws(s, p) == [Cue(h.start, h.end, text)] + Raws(s, e);
        ConsHasText(Cue(h.start, h.end, text), Raws(s, e));
      }
  }

  lemma ConsHasText(c: Cue, rest: seq<Cue>)
    requires c.text != "" && forall i :: 0 <= i < |rest| ==> rest[i].text != ""
    ensures forall i :: 0 <= i < |[c] + rest| ==> ([c] + rest)[i].text != ""
  {
  }

  /** A body whose first line holds a non-space character has a
      non-empty cue text. */
  lemma CueTextOfFirstLine(body: string, k: nat)
    requires k < IndexOfChar(body, '\n') && !IsJsSpace(body[k])
    ensures CueText(body) != ""
  {
    var lines := Split(body, '\n');
    var first := body[..IndexOfChar(body, '\n')];
    assert lines[0] == first;
    assert first[k] == body[k];
    TrimEmptyIffBlank(first);
    assert TextLines(lines)[0] == Trim(first);
  }

  /** The text the loop reads after the cue line matched at q is not
      empty. */
  predicate TextFollows(s: string, q: nat)
    requires q <= |s| && HeaderAt(s, q).Some?
  {
    var b := HeaderAt(s, q).value.body;
    CueText(s[b..BodyEnd(s, b)]) != ""
  }

  /** Between the start of the text and the first non-space character
      after the cue line there is no newline. */
  lemma HeaderGap(s: string, q: nat) returns (b: nat, w: nat)
    requires q <= |s| && HeaderAt(s, q).Some?
    requires s == [] || !IsJsSpace(s[|s| - 1])
    ensures b == HeaderAt(s, q).value.body
    ensures b <= w < |s| && !IsJsSpace(s[w])
    ensures forall i :: b <= i < w ==> s[i] != '\n'
  {
    var a := WsEnd(s, q + 12);
    var c := WsEnd(s, a + 3);
    w := WsEnd(s, c + 12);
    var j := LastNewline(s, c + 12, w).value;
    b := j + 1;
    assert HeaderAt(s, q).value.body == b;
    assert c + 12 <= j < w && IsJsSpace(s[w - 1]);
  }

  /** The lazy text reaches past a non-space character that no newline
      separates from its start. */
  lemma BodyPastGap(s: string, b: nat, w: nat)
    requires b <= w < |s| && !IsJsSpace(s[w])
    requires forall i :: b <= i < w ==> s[i] != '\n'
    ensures BodyEnd(s, b) > w
  {
    assert IsJsSpace('\n');
    assert forall i :: b <= i <= w ==> s[i] != '\n';
  }

  /** The first line of s[b..e] reaches past position w. */
  lemma FirstLinePastGap(s: string, b: nat, w: nat, e: nat)
    requires b <= w < e <= |s| && !IsJsSpace(s[w])
    requires forall i :: b <= i < w ==> s[i] != '\n'
    ensures w - b < IndexOfChar(s[b..e], '\n') && !IsJsSpace(s[b..e][w - b])
  {
    var body := s[b..e];
    assert IsJsSpace('\n');
    assert body[w - b] == s[w];
    assert forall i :: 0 <= i <= w - b ==> body[i] == s[b + i] && body[i] != '\n';
  }

  /** The text after a cue line is never empty when the scanned text does
      not end in whitespace: the greedy `\s*` before the line's `\n` gives
      back only the last newline of the whitespace that follows the second
      time, so the text begins at the next non-space character, which lies
      before any blank line. */
  lemma HeaderTextNotEmpty(s: string, q: nat)
    requires q <= |s| && HeaderAt(s, q).Some?
    requires s == [] || !IsJsSpace(s[|s| - 1])
    ensures TextFollows(s, q)
  {
    var b, w := HeaderGap(s, q);
    BodyPastGap(s, b, w);
    GapLineText(s, b, w, BodyEnd(s, b));
  }

  /** A non-space character with no newline before it in s[b..e] gives
      that slice a non-empty cue text. */
  lemma GapLineText(s: string, b: nat, w: nat, e: nat)
    requires b <= w < e <= |s| && !IsJsSpace(s[w])
    requires forall i :: b <= i < w ==> s[i] != '\n'
    ensures CueText(s[b..e]) != ""
  {
    FirstLinePastGap(s, b, w, e);
    CueTextOfFirstLine(s[b..e], w - b);
  }


  function Max(a: int, b: int): int
  {
    if a >= b then a else b
  }

  const Gap := 10
  const MinLength := 300

  /** The overlap fix of the match loop, lastEnd being the end of the cue
      before. */
  function Timed(raws: seq<Cue>, lastEnd: nat): (r: seq<Cue>)
    ensures |r| == |raws|
  {
    if raws == [] then []
    else
      var start := Max(raws[0].start, lastEnd + Gap);
      var end := Max(raws[0].end, start + MinLength);
      var rest := Timed(raws[1..], end);
      [Cue(start, end, raws[0].text)] + rest
  }

  /** Each cue keeps its text, starts at its own start or 10 ms after the
      end of the cue before, whichever is later, and ends at its own end or
      300 ms after its new start, whichever is later. */
  lemma {:induction false} TimedSpec(raws: seq<Cue>, lastEnd: nat)
    ensures var r := Timed(raws, lastEnd);
            (forall i :: 0 <= i < |r| ==>
               r[i].text == raws[i].text && r[i].start >= raws[i].start && r[i].end >= raws[i].end
               && r[i].end >= r[i].start + MinLength
               && r[i].end == Max(raws[i].end, r[i].start + MinLength))
            && (|r| > 0 ==> r[0].start == Max(raws[0].start, lastEnd + Gap))
            && (forall i :: 0 < i < |r| ==> r[i].start == Max(raws[i].start, r[i - 1].end + Gap))
  {
    var r := Timed(raws, lastEnd);
    forall i | 0 <= i < |r|
      ensures r[i].text == raws[i].text && r[i].start >= raws[i].start && r[i].end >= raws[i].end
      ensures r[i].end >= r[i].start + MinLength && r[i].end == Max(raws[i].end, r[i].start + MinLength)
      ensures i == 0 ==> r[i].start == Max(raws[i].start, lastEnd + Gap)
      ensures i > 0 ==> r[i].start == Max(raws[i].start, r[i - 1].end + Gap)
    {
      TimedAt(raws, lastEnd, i);
    }
  }

  /** The cue at index i of the fix, from the one before it. */
  lemma {:induction false} TimedAt(raws: seq<Cue>, lastEnd: nat, i: nat)
    requires i < |raws|
    ensures var r := Timed(raws, lastEnd);
            r[i].text == raws[i].text
            && r[i].start == Max(raws[i].start, (if i == 0 then lastEnd else r[i - 1].end) + Gap)
            && r[i].end == Max(raws[i].end, r[i].start + MinLength)
    decreases i
  {
    var start := Max(raws[0].start, lastEnd + Gap);
    var end := Max(raws[0].end, start + MinLength);
    var rest := Timed(raws[1..], end);
    var r := Timed(raws, lastEnd);
    assert r == [Cue(start, end, raws[0].text)] + rest;
    if i > 0 {
      TimedAt(raws[1..], end, i - 1);
      assert r[i] == rest[i - 1] && raws[i] == raws[1..][i - 1];
      if i > 1 {
        assert r[i - 1] == rest[i - 2];
      }
    }
  }

  /** The cues written out. */
  function Cues(srt: string): seq<Cue>
  {
    Timed(Raws(Normalize(srt), 0), 0)
  }

  /** Cues never overlap: a cue starts at least 10 ms after the end of
      every cue before it. */
  lemma {:induction false} TimedSpaced(raws: seq<Cue>, lastEnd: nat, i: int, j: int)
    requires 0 <= i < j < |raws|
    ensures Timed(raws, lastEnd)[j].start >= Timed(raws, lastEnd)[i].end + Gap
    decreases j - i
  {
    var c := Timed(raws, lastEnd);
    TimedSpec(raws, lastEnd);
    if j > i + 1 {
      TimedSpaced(raws, lastEnd, i, j - 1);
      assert c[j - 1].end >= c[j - 1].start + MinLength;
    }
  }

  /** The first cue starts at least 10 ms in. */
  lemma FirstCueAfterZero(srt: string)
    requires |Cues(srt)| > 0
    ensures Cues(srt)[0].start >= Gap
  {
    TimedSpec(Raws(Normalize(srt), 0), 0);
  }

  // ---------------------------------------------------------------------
  // Writing WebVTT
  // ---------------------------------------------------------------------

  /** `s.padStart(width, "0")` */
  function ZeroPad(s: string, width: nat): (r: string)
    decreases width - |s|
  {
    if |s| >= width then s else ZeroPad("0" + s, width)
  }

  /** `String(x).padStart(width, "0")` */
  function Pad(x: nat, width: nat): string
  {
    ZeroPad(NatToString(x), width)
  }

  /** fmt of the converter: hh:mm:ss.mmm, hours padded to two digits. */
  function Stamp(t: nat): string
  {
    Pad(t / 3600000, 2) + ":" + Pad(t % 3600000 / 60000, 2) + ":" + Pad(t % 60000 / 1000, 2) + "." + Pad(t % 1000, 3)
  }

  lemma Pad2(n: nat)
    requires n < 100
    ensures Pad(n, 2) == [DigitChar(n / 10), DigitChar(n % 10)]
  {
    if n >= 10 {
      assert NatToString(n) == NatToString(n / 10) + [DigitChar(n % 10)];
    } else {
      assert ZeroPad([DigitChar(n)], 2) == ZeroPad("0" + [DigitChar(n)], 2);
    }
  }

  lemma Pad3(n: nat)
    requires n < 1000
    ensures Pad(n, 3) == [DigitChar(n / 100), DigitChar(n / 10 % 10), DigitChar(n % 10)]
  {
    if n >= 100 {
      assert NatToString(n) == NatToString(n / 10) + [DigitChar(n % 10)];
      assert NatToString(n / 10) == NatToString(n / 100) + [DigitChar(n / 10 % 10)];
    } else if n >= 10 {
      var s := NatToString(n);
      assert s == NatToString(n / 10) + [DigitChar(n % 10)];
      assert ZeroPad(s, 3) == ZeroPad("0" + s, 3);
    } else {
      var s := [DigitChar(n)];
      assert ZeroPad(s, 3) == ZeroPad("0" + s, 3) == ZeroPad("00" + s, 3);
    }
  }

  lemma DigitRoundTrip(d: nat)
    requires d < 10
    ensures DigitValue(DigitChar(d)) == d
  {
  }

  /** The characters of a timestamp laid out from its four fields. */
  lemma StampLayout(s: string, a: string, b: string, c: string, d: string)
    requires |a| == 2 && |b| == 2 && |c| == 2 && |d| == 3
    requires s == a + ":" + b + ":" + c + "." + d
    ensures |s| == 12
    ensures s[0] == a[0] && s[1] == a[1] && s[2] == ':' && s[3] == b[0] && s[4] == b[1] && s[5] == ':'
    ensures s[6] == c[0] && s[7] == c[1] && s[8] == '.' && s[9] == d[0] && s[10] == d[1] && s[11] == d[2]
  {
  }

  /** Two digits read back as the number they were written from. */
  lemma TwoDigitsValue(n: nat)
    requires n < 100
    ensures DigitValue(DigitChar(n / 10)) * 10 + DigitValue(DigitChar(n % 10)) == n
  {
    DigitRoundTrip(n / 10);
    DigitRoundTrip(n % 10);
  }

  lemma ThreeDigitsValue(n: nat)
    requires n < 1000
    ensures DigitValue(DigitChar(n / 100)) * 100 + DigitValue(DigitChar(n / 10 % 10)) * 10
            + DigitValue(DigitChar(n % 10)) == n
  {
    DigitRoundTrip(n / 100);
    DigitRoundTrip(n / 10 % 10);
    DigitRoundTrip(n % 10);
  }

  /** The four fields of a time, read back from their digits. */
  lemma StampFields(h: nat, m: nat, sec: nat, ms: nat, s: string)
    requires h < 100 && m < 100 && sec < 100 && ms < 1000
    requires s == Pad(h, 2) + ":" + Pad(m, 2) + ":" + Pad(sec, 2) + "." + Pad(ms, 3)
    ensures |s| == 12 && IsTimeAt(s, 0) && s[8] == '.'
    ensures TimeAt(s, 0) == h * 3600000 + m * 60000 + sec * 1000 + ms
  {
    Pad2(h);
    Pad2(m);
    Pad2(sec);
    Pad3(ms);
    StampLayout(s, Pad(h, 2), Pad(m, 2), Pad(sec, 2), Pad(ms, 3));
    TwoDigitsValue(h);
    TwoDigitsValue(m);
    TwoDigitsValue(sec);
    ThreeDigitsValue(ms);
  }

  /** A time under 100 hours is written as a timestamp the converter reads
      back as the same time, with a dot before the milliseconds. */
  lemma StampRoundTrip(t: nat)
    requires t < 360000000
    ensures |Stamp(t)| == 12 && IsTimeAt(Stamp(t), 0) && Stamp(t)[8] == '.'
    ensures TimeAt(Stamp(t), 0) == t
  {
    var h, r := t / 3600000, t % 3600000;
    var m, r2 := r / 60000, r % 60000;
    var sec, ms := r2 / 1000, r2 % 1000;
    assert t == h * 3600000 + r && r == m * 60000 + r2 && r2 == sec * 1000 + ms;
    assert t % 60000 == r2 && t % 1000 == ms;
    StampFields(h, m, sec, ms, Stamp(t));
  }

  /** The four lines of the cue numbered n, times written by `stamp`. */
  function Block(c: Cue, n: nat, stamp: nat -> string): seq<string>
  {
    [NatToString(n), stamp(c.start) + " --> " + stamp(c.end), c.text, ""]
  }

  /** The blocks of the cues, numbered from 1. */
  function Blocks(cues: seq<Cue>, stamp: nat -> string): (r: seq<string>)
    ensures |r| == 4 * |cues|
  {
    if cues == [] then [] else Blocks(cues[..|cues| - 1], stamp) + Block(cues[|cues| - 1], |cues|, stamp)
  }

  /** The lines of the document. */
  function VttLines(cues: seq<Cue>): seq<string>
  {
    ["WEBVTT", ""] + Blocks(cues, Stamp)
  }

  /** The document: "WEBVTT\n\n" alone without cues, else the lines joined
      with newlines. */
  function VttOf(cues: seq<Cue>): string
  {
    if cues == [] then "WEBVTT\n\n" else Join(VttLines(cues), "\n")
  }

  // ---------------------------------------------------------------------
  // Properties
  // ---------------------------------------------------------------------

  /** Without a cue the result is exactly the header and a blank line. */
  lemma NoCueHeaderOnly(srt: string)
    requires Raws(Normalize(srt), 0) == []
    ensures VttOf(Cues(srt)) == "WEBVTT\n\n"
  {
  }

  /** Empty input, or input of only blank lines, has no cue. */
  lemma BlankInputHasNoCue(srt: string)
    requires Normalize(srt) == ""
    ensures VttOf(Cues(srt)) == "WEBVTT\n\n"
  {
    assert !CueAt("", 0, 0);
  }

  /** The cue numbered i + 1 occupies lines 4i .. 4i + 3 of the blocks:
      its number, its two timestamps, its text and a blank line. */
  lemma {:induction false} BlocksAt(cues: seq<Cue>, i: int, stamp: nat -> string)
    requires 0 <= i < |cues|
    ensures Blocks(cues, stamp)[4 * i..4 * i + 4] == Block(cues[i], i + 1, stamp)
  {
    var n := |cues| - 1;
    var init := cues[..n];
    assert Blocks(cues, stamp) == Blocks(init, stamp) + Block(cues[n], n + 1, stamp);
    if i < n {
      BlocksAt(init, i, stamp);
      assert Blocks(cues, stamp)[4 * i..4 * i + 4] == Blocks(init, stamp)[4 * i..4 * i + 4];
    }
  }

  /** With cues, the document is "WEBVTT", a blank line, then for the
      cue numbered n (from 1): n, its two timestamps, its text and a blank
      line. */
  lemma VttLayout(cues: seq<Cue>, i: int)
    requires 0 <= i < |cues|
    ensures VttLines(cues)[..2] == ["WEBVTT", ""]
    ensures VttLines(cues)[2 + 4 * i] == NatToString(i + 1)
    ensures VttLines(cues)[3 + 4 * i] == Stamp(cues[i].start) + " --> " + Stamp(cues[i].end)
    ensures VttLines(cues)[4 + 4 * i] == cues[i].text && VttLines(cues)[5 + 4 * i] == ""
  {
    LinesLayout(cues, i, Stamp);
  }

  /** The same for any way of writing the times. */
  lemma LinesLayout(cues: seq<Cue>, i: int, stamp: nat -> string)
    requires 0 <= i < |cues|
    ensures var lines := ["WEBVTT", ""] + Blocks(cues, stamp);
            lines[..2] == ["WEBVTT", ""]
            && lines[2 + 4 * i] == NatToString(i + 1)
            && lines[3 + 4 * i] == stamp(cues[i].start) + " --> " + stamp(cues[i].end)
            && lines[4 + 4 * i] == cues[i].text && lines[5 + 4 * i] == ""
  {
    BlocksAt(cues, i, stamp);
    var b := Blocks(cues, stamp);
    assert b[4 * i] == b[4 * i..4 * i + 4][0];
    assert b[4 * i + 1] == b[4 * i..4 * i + 4][1];
    assert b[4 * i + 2] == b[4 * i..4 * i + 4][2];
    assert b[4 * i + 3] == b[4 * i..4 * i + 4][3];
  }
}
