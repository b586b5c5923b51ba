// The player page (src/pages/Stream.jsx) apart from the subtitle
// conversion: the clock under the progress bar, the choice of the subtitle
// track, seeking by a few seconds and the periodic save of the playback
// position. Times are whole seconds.

module Stream {
  import opened Wrappers
  import opened Strings
  import opened Js
  import SrtToVtt

  // ---------------------------------------------------------------------
  // Clock
  // ---------------------------------------------------------------------

  /** The fields of fmt(s) for t = floor(s): minutes and two-digit seconds,
      or hours, two-digit minutes and two-digit seconds from one hour on. */
  function ClockFields(t: nat): seq<string>
  {
    var h, m, sec := t / 3600, t % 3600 / 60, t % 60;
    if h > 0 then [NatToString(h), SrtToVtt.Pad(m, 2), SrtToVtt.Pad(sec, 2)]
    else [NatToString(m), SrtToVtt.Pad(sec, 2)]
  }

  /** fmt(s): "m:ss" under an hour, "h:mm:ss" from one hour on. */
  function Clock(t: nat): string
  {
    Join(ClockFields(t), ":")
  }

  lemma PadValue(n: nat)
    requires n < 100
    ensures AllDigits(SrtToVtt.Pad(n, 2)) && |SrtToVtt.Pad(n, 2)| == 2
    ensures DigitsValue(SrtToVtt.Pad(n, 2)) == n
  {
    SrtToVtt.Pad2(n);
    var s := SrtToVtt.Pad(n, 2);
    SrtToVtt.DigitRoundTrip(n / 10);
    SrtToVtt.DigitRoundTrip(n % 10);
    assert s[..1] == [DigitChar(n / 10)] && s[..1][..0] == [];
    assert DigitsValue(s[..1]) == n / 10;
  }

  /** The clock shows hours only from one hour on, every field but the
      first with two digits, and reads back as the time it shows. */
  lemma ClockRoundTrip(t: nat)
    ensures var f := ClockFields(t);
            (forall i :: 0 <= i < |f| ==> AllDigits(f[i]))
            && (forall i :: 1 <= i < |f| ==> |f[i]| == 2)
            && (t >= 3600 ==> |f| == 3 && DigitsValue(f[0]) * 3600 + DigitsValue(f[1]) * 60 + DigitsValue(f[2]) == t)
            && (t < 3600 ==> |f| == 2 && DigitsValue(f[0]) * 60 + DigitsValue(f[1]) == t)
  {
    var h, m, sec := t / 3600, t % 3600 / 60, t % 60;
    ClockParts(t);
    PadValue(sec);
    PadValue(m);
    var f := ClockFields(t);
    if h > 0 {
      DigitsValueOfNatToString(h);
      assert f == [NatToString(h), SrtToVtt.Pad(m, 2), SrtToVtt.Pad(sec, 2)];
    } else {
      DigitsValueOfNatToString(m);
      assert f == [NatToString(m), SrtToVtt.Pad(sec, 2)];
    }
  }

  /** The three fields of a time in seconds recombine into it. */
  lemma ClockParts(t: nat)
    ensures t % 3600 / 60 < 60 && t % 60 < 60
    ensures t == t / 3600 * 3600 + t % 3600 / 60 * 60 + t % 60
    ensures t / 3600 > 0 <==> t >= 3600
  {
    var r := t % 3600;
    assert t == t / 3600 * 3600 + r;
    assert r == r / 60 * 60 + r % 60;
    assert r % 60 == t % 60 by {
      assert t == (t / 3600 * 60 + r / 60) * 60 + r % 60;
    }
  }

  // ---------------------------------------------------------------------
  // Subtitle track
  // ---------------------------------------------------------------------

  /** `v?.toLowerCase?.() || ""`: the lower-cased text of a string, "" for
      anything else. */
  function LowerText(v: Js): (r: string)
    ensures v.Str? ==> r == Lower(v.s)
    ensures !v.Str? ==> r == ""
  {
    if v.Str? then Lower(v.s) else ""
  }

  /** The first predicate of the choice: the language or its code equals
      the selected language, ignoring case; an empty selection matches
      nothing. */
  predicate Wanted(s: Js, target: string)
  {
    target != ""
    && (LowerText(OptField(s, "language")) == target || LowerText(OptField(s, "languageCode")) == target)
  }

  predicate IsDefault(s: Js)
  {
    Truthy(OptField(s, "isDefault"))
  }

  /** Index of the first element satisfying p. */
  function FirstWhere(list: seq<Js>, p: Js -> bool): (r: Option<nat>)
    ensures r.Some? ==> r.value < |list| && p(list[r.value]) && forall j :: 0 <= j < r.value ==> !p(list[j])
    ensures r.None? ==> forall j :: 0 <= j < |list| ==> !p(list[j])
  {
    if list == [] then None
    else if p(list[0]) then Some(0)
    else match FirstWhere(list[1..], p)
      case None => None
      case Some(k) => Some(k + 1)
  }

  /** `list.find(p)` */
  function Find(list: seq<Js>, p: Js -> bool): Js
  {
    match FirstWhere(list, p)
    case None => Undefined
    case Some(i) => list[i]
  }

  /** The subtitle chosen: the first in the selected language, else the
      first marked default, else the first. */
  function Chosen(list: seq<Js>, selectedLanguage: string): (r: Js)
    requires list != []
    ensures var target := Lower(selectedLanguage);
            match FirstWhere(list, s => Wanted(s, target))
            case Some(i) => r == list[i]
            case None =>
              match FirstWhere(list, IsDefault)
              case Some(i) => r == list[i]
              case None => r == list[0]
  {
    var target := Lower(selectedLanguage);
    Or(Find(list, s => Wanted(s, target)), Or(Find(list, IsDefault), list[0]))
  }

  /** resolveSubtitleUrl: "" for no URL, a URL beginning with "/" as it is,
      anything else through URL resolution (`absolute`, which also covers the
      rewrite of subtitle CDN addresses in development and the fallback to
      the URL itself when it does not parse). */
  function ResolveSubtitleUrl(url: Js, absolute: string -> string): (r: string)
    ensures !Truthy(url) ==> r == ""
    ensures Truthy(url) && StartsWith(ToStr(url), "/") ==> r == ToStr(url)
  {
    if !Truthy(url) then ""
    else if StartsWith(ToStr(url), "/") then ToStr(url)
    else absolute(ToStr(url))
  }

  /** The <track> element's attributes. */
  datatype Track = Track(url: string, caption: Js, lang: Js)

  /** `language.slice(0, 2).toLowerCase()` */
  function LangPrefix(language: Js): string
  {
    var s := ToStr(language);
    Lower(if |s| <= 2 then s else s[..2])
  }

  /** The current subtitle track, or none. */
  function SubtitleTrack(enabled: bool, list: seq<Js>, selectedLanguage: string,
                         absolute: string -> string): (r: Option<Track>)
    ensures !enabled || list == [] ==> r.None?
    ensures enabled && list != [] ==>
              var sel := Chosen(list, selectedLanguage);
              var url := ResolveSubtitleUrl(Or(Field(sel, "subtitleUrl"), Field(sel, "url")), absolute);
              (r.Some? <==> Truthy(sel) && Truthy(Or(Field(sel, "url"), Field(sel, "subtitleUrl"))) && url != "")
              && (r.Some? ==> r.value.url == url
                              && r.value.caption == Or(Or(Field(sel, "language"), Field(sel, "languageCode")), Str("Subtitle")))
    ensures r.Some? ==> r.value.url != "" && Truthy(r.value.caption)
  {
    if !enabled || list == [] then None
    else
      var sel := Chosen(list, selectedLanguage);
      if !(Truthy(sel) && Truthy(Or(Field(sel, "url"), Field(sel, "subtitleUrl")))) then None
      else
        var url := ResolveSubtitleUrl(Or(Field(sel, "subtitleUrl"), Field(sel, "url")), absolute);
        if url == "" then None
        else
          var language, code := Field(sel, "language"), Field(sel, "languageCode");
          Some(Track(url, Or(Or(language, code), Str("Subtitle")),
                     Or(code, if Truthy(language) then Str(LangPrefix(language)) else Str("en"))))
  }

  /** A subtitle in the selected language wins over the default one. */
  lemma SelectedLanguageWins(list: seq<Js>, selectedLanguage: string, i: nat)
    requires i < |list| && Wanted(list[i], Lower(selectedLanguage))
    requires forall j :: 0 <= j < i ==> !Wanted(list[j], Lower(selectedLanguage))
    ensures Chosen(list, selectedLanguage) == list[i]
  {
    var target := Lower(selectedLanguage);
    var w := FirstWhere(list, s => Wanted(s, target));
    assert w.Some? && w.value == i by {
      assert (s => Wanted(s, target))(list[i]);
    }
  }

  /** The language code names the track's language when there is one;
      otherwise the first two letters of the language, lower-cased; else
      "en". */
  lemma TrackLanguage(enabled: bool, list: seq<Js>, selectedLanguage: string, absolute: string -> string)
    requires SubtitleTrack(enabled, list, selectedLanguage, absolute).Some?
    ensures var sel := Chosen(list, selectedLanguage);
            var t := SubtitleTrack(enabled, list, selectedLanguage, absolute).value;
            (Truthy(Field(sel, "languageCode")) ==> t.lang == Field(sel, "languageCode"))
            && (!Truthy(Field(sel, "languageCode")) && Truthy(Field(sel, "language"))
                ==> t.lang == Str(LangPrefix(Field(sel, "language"))))
            && (!Truthy(Field(sel, "languageCode")) && !Truthy(Field(sel, "language")) ==> t.lang == Str("en"))
            && (!Truthy(Field(sel, "languageCode")) && !Truthy(Field(sel, "language")) ==> t.caption == Str("Subtitle"))
  {
  }

  /** A chosen subtitle without a URL, or whose URL resolves to nothing,
      gives no track. */
  lemma NoUrlNoTrack(enabled: bool, list: seq<Js>, selectedLanguage: string, absolute: string -> string)
    requires list != []
    requires var sel := Chosen(list, selectedLanguage);
             !Truthy(Field(sel, "url")) && !Truthy(Field(sel, "subtitleUrl"))
    ensures SubtitleTrack(enabled, list, selectedLanguage, absolute).None?
  {
  }

  // ---------------------------------------------------------------------
  // Seeking
  // ---------------------------------------------------------------------

  /** `Math.max(0, Math.min(current + sec, duration))` */
  function SeekTarget(current: int, sec: int, duration: int): (r: int)
    ensures r >= 0
    ensures duration >= 0 ==> r <= duration
    ensures 0 <= current + sec <= duration ==> r == current + sec
    ensures current + sec < 0 ==> r == 0
    ensures 0 <= duration < current + sec ==> r == duration
  {
    if current + sec <= duration then (if current + sec >= 0 then current + sec else 0)
    else (if duration >= 0 then duration else 0)
  }

  /** Seeking forward and back by the same amount returns to the start
      when neither step is clamped. */
  lemma SeekBackReturns(current: int, sec: int, duration: int)
    requires 0 <= current <= duration && 0 <= current + sec <= duration
    ensures SeekTarget(SeekTarget(current, sec, duration), -sec, duration) == current
  {
  }

  /** The video element, as far as seeking uses it. */
  class Video {
    var currentTime: int

    constructor (t: int)
      ensures currentTime == t
    {
      currentTime := t;
    }
  }

  /** seekBy(sec): nothing without a video element. */
  method SeekBy(v: Video?, sec: int, duration: int)
    modifies v
    ensures v != null ==> v.currentTime == SeekTarget(old(v.currentTime), sec, duration)
  {
    if v == null {
      return;
    }
    v.currentTime := SeekTarget(v.currentTime, sec, duration);
  }

  // ---------------------------------------------------------------------
  // Saving the playback position
  // ---------------------------------------------------------------------

  const SaveEvery := 30
  const MinMove := 5
  const MaxFailures := 3
  const ResetAfter := 120

  /** Whether a tick sends the position: it moved at least 5 seconds from
      the last saved one and the duration is known. */
  predicate ShouldSave(position: int, duration: int, lastSaved: int)
  {
    (if position >= lastSaved then position - lastSaved else lastSaved - position) >= MinMove && duration > 0
  }

  /** The periodic save: the interval and the two counters the page keeps
      in refs. */
  class ProgressSaver {
    var failures: nat
    var lastSaved: int
    /** The 30-second interval is set. */
    var saving: bool
    /** The two-minute timeout that clears the failures is set. */
    var resetPending: bool

    constructor ()
      ensures failures == 0 && lastSaved == 0 && !saving && !resetPending
    {
      failures := 0;
      lastSaved := 0;
      saving := false;
      resetPending := false;
    }

    /** The effect, run when the movie or the playing state changes: the
        previous interval or timeout is cleared; nothing is set without a
        movie or while paused; after more than three failures in a row only
        the reset timeout is set. */
    method Start(movieId: Js, isPlaying: bool)
      modifies this
      ensures saving <==> Truthy(movieId) && isPlaying && failures <= MaxFailures
      ensures resetPending <==> Truthy(movieId) && isPlaying && failures > MaxFailures
      ensures failures == old(failures) && lastSaved == old(lastSaved)
    {
      saving := false;
      resetPending := false;
      if !Truthy(movieId) || !isPlaying {
        return;
      }
      if failures > MaxFailures {
        resetPending := true;
        return;
      }
      saving := true;
    }

    /** The reset timeout fires. Saving does not resume until the effect
        runs again. */
    method ResetFailures()
      requires resetPending
      modifies this
      ensures failures == 0 && !resetPending
      ensures saving == old(saving) && lastSaved == old(lastSaved)
    {
      failures := 0;
      resetPending := false;
    }

    /** One tick of the interval: whether the position is sent. */
    method Tick(position: int, duration: int) returns (send: bool)
      requires saving
      ensures send <==> ShouldSave(position, duration, lastSaved)
    {
      send := ShouldSave(position, duration, lastSaved);
    }

    /** The answer to a save: success clears the failures and records the
        position; failure counts one more. */
    method Settle(position: int, ok: bool)
      modifies this
      ensures ok ==> failures == 0 && lastSaved == position
      ensures !ok ==> failures == old(failures) + 1 && lastSaved == old(lastSaved)
      ensures saving == old(saving) && resetPending == old(resetPending)
    {
      if ok {
        failures := 0;
        lastSaved := position;
      } else {
        failures := failures + 1;
      }
    }
  }

  /** Four failed saves in a row stop saving the next time the effect
      runs; the reset timeout then clears the count, and the following run
      saves again. */
  method FourFailuresPause(movieId: Js, position: int) returns (paused: bool, p: ProgressSaver)
    requires Truthy(movieId)
    ensures paused
    ensures p.saving && p.failures == 0
  {
    p := new ProgressSaver();
    p.Start(movieId, true);
    p.Settle(position, false);
    p.Settle(position, false);
    p.Settle(position, false);
    p.Settle(position, false);
    p.Start(movieId, true);
    paused := !p.saving && p.resetPending;
    p.ResetFailures();
    p.Start(movieId, true);
  }

  /** After a successful save, the next save needs the position to move by
      at least 5 seconds. */
  lemma NoSaveWithoutMove(position: int, next: int, duration: int)
    requires -MinMove < next - position < MinMove
    ensures !ShouldSave(next, duration, position)
  {
  }
}
