// The loops of convertSrtToVtt (src/pages/Stream.jsx): the match loop
// that collects and moves apart the cues, and the writing of the lines,
// proved against the functions of SrtToVtt.

module SrtConvert {
  import opened Wrappers
  import opened Strings
  import opened SrtToVtt
  import opened Js

  /** `re.exec` from lastIndex p: whether a match is found and, when it
      is, its header, where its text ends and the text. The cues from p are
      this one (when its text is not empty) and those from the end of its
      text; without a match there are none. */
  method Exec(s: string, p: nat) returns (found: bool, h: Header, e: nat, text: string)
    requires p <= |s|
    ensures !found ==> Raws(s, p) == []
    ensures found ==> p < e <= |s|
    ensures found ==> Raws(s, p) == if text == "" then Raws(s, e) else [Cue(h.start, h.end, text)] + Raws(s, e)
  {
    var m := Find(s, p, p);
    if m.None? {
      return false, Header(0, 0, 0), p, "";
    }
    h := HeaderAt(s, m.value).value;
    e := BodyEnd(s, h.body);
    text := CueText(s[h.body..e]);
    found := true;
  }

  lemma TimedCons(c: Cue, rest: seq<Cue>, lastEnd: nat)
    ensures var start := Max(c.start, lastEnd + Gap);
            var end := Max(c.end, start + MinLength);
            Timed([c] + rest, lastEnd) == [Cue(start, end, c.text)] + Timed(rest, end)
  {
    assert ([c] + rest)[1..] == rest;
  }

  lemma Associative(a: seq<Cue>, b: seq<Cue>, c: seq<Cue>)
    ensures a + (b + c) == (a + b) + c
  {
  }

  /** `cues.push` of a cue moved apart from the one before it: the cues so
      far and the fix of the rest, from the new last end, are those so far
      and the fix of this cue and the rest. */
  method PushCue(cues: seq<Cue>, lastEnd: nat, c: Cue, ghost rest: seq<Cue>) returns (cues': seq<Cue>, lastEnd': nat)
    ensures cues' + Timed(rest, lastEnd') == cues + Timed([c] + rest, lastEnd)
    ensures cues' == cues + [Timed([c], lastEnd)[0]]
  {
    var safeStart := Max(c.start, lastEnd + Gap);
    var safeEnd := Max(c.end, safeStart + MinLength);
    var cue := Cue(safeStart, safeEnd, c.text);
    TimedCons(c, rest, lastEnd);
    TimedCons(c, [], lastEnd);
    Associative(cues, [cue], Timed(rest, safeEnd));
    cues' := cues + [cue];
    lastEnd' := safeEnd;
  }

  /** The match loop: the cues of s in order, moved apart as they are
      found. */
  method ScanCues(s: string) returns (cues: seq<Cue>)
    ensures cues == Timed(Raws(s, 0), 0)
  {
    ghost var all := Timed(Raws(s, 0), 0);
    cues := [];
    var lastEnd: nat := 0;
    var p: nat := 0;
    while true
      invariant p <= |s|
      invariant cues + Timed(Raws(s, p), lastEnd) == all
      decreases |s| - p
    {
      var found, h, e, text := Exec(s, p);
      if !found {
        break;
      }
      if text != "" {
        cues, lastEnd := PushCue(cues, lastEnd, Cue(h.start, h.end, text), Raws(s, e));
      }
      p := e;
    }
  }

  /** Writing one more cue appends its block. */
  lemma LinesSnoc(cues: seq<Cue>, idx: nat, stamp: nat -> string)
    requires idx < |cues|
    ensures ["WEBVTT", ""] + Blocks(cues[..idx + 1], stamp)
            == (["WEBVTT", ""] + Blocks(cues[..idx], stamp)) + Block(cues[idx], idx + 1, stamp)
  {
    assert cues[..idx + 1][..idx] == cues[..idx];
  }

  /** The document built line by line. */
  method WriteVtt(cues: seq<Cue>) returns (vtt: string)
    ensures vtt == VttOf(cues)
  {
    if |cues| == 0 {
      return "WEBVTT\n\n";
    }
    var lines := ["WEBVTT", ""];
    var idx := 0;
    while idx < |cues|
      invariant 0 <= idx <= |cues|
      invariant lines == VttLines(cues[..idx])
    {
      LinesSnoc(cues, idx, Stamp);
      lines := lines + Block(cues[idx], idx + 1, Stamp);
      idx := idx + 1;
    }
    assert cues[..idx] == cues;
    vtt := Join(lines, "\n");
  }

  /** The converter. */
  method ConvertSrtToVtt(srt: string) returns (vtt: string)
    ensures vtt == VttOf(Cues(srt))
  {
    var cues := ScanCues(Normalize(srt));
    vtt := WriteVtt(cues);
  }

  /** On the text the converter scans, every matched cue line is followed
      by text, so the empty-text skip of the loop never fires. */
  lemma NormalizedTextNotEmpty(srt: string, q: nat)
    requires q <= |Normalize(srt)| && HeaderAt(Normalize(srt), q).Some?
    ensures TextFollows(Normalize(srt), q)
  {
    NormalizeIsTrim(srt);
    TrimmedTextNotEmpty(CrToLf(CrlfToLf(srt)), q);
  }

  /** The scanned text is the unified text, trimmed. */
  lemma NormalizeIsTrim(srt: string)
    ensures Normalize(srt) == Trim(CrToLf(CrlfToLf(srt)))
  {
  }

  /** Any trimmed text has text after each of its cue lines. */
  lemma TrimmedTextNotEmpty(t: string, q: nat)
    requires q <= |Trim(t)| && HeaderAt(Trim(t), q).Some?
    ensures TextFollows(Trim(t), q)
  {
    TrimmedEnd(t);
    HeaderTextNotEmpty(Trim(t), q);
  }

  /** A trimmed text does not end in whitespace. */
  lemma TrimmedEnd(t: string)
    ensures Trim(t) == [] || !IsJsSpace(Trim(t)[|Trim(t)| - 1])
  {
    TrimmedEnds(t);
  }
}
