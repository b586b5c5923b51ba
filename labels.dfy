/** The label store of the recognition service (backend/app.py, load_labels):
    the class-index to display-name table read from class_names.pkl, and the
    fallback actor table read from labels.json, keyed by lower-cased name. */
module Labels {
  import opened Wrappers
  import opened Strings
  import opened PyText
  import opened PyJson

  datatype LabelEntry = LabelEntry(id: int, name: string)

  // ---------------------------------------------------------------------
  // Name normalisation
  // ---------------------------------------------------------------------

  /** A word is title-cased unless it contains a hyphen, which keeps it verbatim. */
  function TitleWord(w: string): string
  {
    if '-' in w then w else Title(w)
  }

  function TitleWords(ws: seq<string>): (r: seq<string>)
    ensures |r| == |ws|
    ensures forall i :: 0 <= i < |ws| ==> r[i] == TitleWord(ws[i])
  {
    if ws == [] then [] else [TitleWord(ws[0])] + TitleWords(ws[1..])
  }

  /** The two hard-coded corrections, each compared case-insensitively. */
  function Correct(pretty: string): string
  {
    var p := if Lower(pretty) == "ai pacino" then "Al Pacino" else pretty;
    if Lower(p) == "gwyneth paltrow" then "Gwyneth Paltrow" else p
  }

  /** The normalisation exactly as load_labels writes it, and the one the
      label table is built with: the corrections compare the stripped name
      before its inner whitespace is collapsed. */
  function NormalizeAsWritten(raw: string): string
  {
    var pretty := Correct(Strip(ReplaceChar(raw, '_', ' ')));
    var words := Words(pretty);
    if |words| > 0 then Join(TitleWords(words), " ") else pretty
  }

  /** The corrected normalisation: underscores become spaces, the words are
      re-joined with single spaces, the corrections are applied to that, and
      each word is title-cased unless hyphenated. The label table itself is
      built with NormalizeAsWritten. */
  function NormalizeName(raw: string): string
  {
    var pretty := Correct(Join(Words(ReplaceChar(raw, '_', ' ')), " "));
    Join(TitleWords(Words(pretty)), " ")
  }

  // --- facts about words ------------------------------------------------

  lemma TitleWordProper(w: string)
    requires w != [] && NoSpace(w)
    ensures TitleWord(w) != [] && NoSpace(TitleWord(w))
    ensures Lower(TitleWord(w)) == Lower(w)
  {
    if '-' !in w {
      TitleLower(w, false);
      forall i | 0 <= i < |w| ensures !IsSpace(Title(w)[i]) {
        if IsLetter(w[i]) { assert IsLetter(Title(w)[i]); } else { assert Title(w)[i] == w[i]; }
      }
    }
  }

  lemma TitleWordIdempotent(w: string)
    ensures TitleWord(TitleWord(w)) == TitleWord(w)
  {
    if '-' !in w {
      TitleFromIdempotent(w, false);
    }
  }

  lemma {:induction false} TitleWordsProper(ws: seq<string>)
    requires ProperWords(ws)
    ensures ProperWords(TitleWords(ws))
    ensures Lower(Join(TitleWords(ws), " ")) == Lower(Join(ws, " "))
  {
    if ws != [] {
      TitleWordProper(ws[0]);
      TitleWordsProper(ws[1..]);
      var t := TitleWords(ws);
      assert t[1..] == TitleWords(ws[1..]);
      if |ws| > 1 {
        LowerConcat(t[0] + " ", Join(t[1..], " "));
        LowerConcat(t[0], " ");
        LowerConcat(ws[0] + " ", Join(ws[1..], " "));
        LowerConcat(ws[0], " ");
      }
    }
  }

  lemma {:induction false} TitleWordsIdempotent(ws: seq<string>)
    ensures TitleWords(TitleWords(ws)) == TitleWords(ws)
  {
    forall i | 0 <= i < |ws| ensures TitleWords(TitleWords(ws))[i] == TitleWords(ws)[i] {
      TitleWordIdempotent(ws[i]);
    }
  }

  /** A name made of proper words joined by single spaces. */
  predicate Collapsed(s: string)
  {
    Join(Words(s), " ") == s
  }

  lemma JoinedIsCollapsed(ws: seq<string>)
    requires ProperWords(ws)
    ensures Collapsed(Join(ws, " "))
  {
    WordsOfJoin(ws);
  }

  /** Two proper words separated by a run of whitespace split into those words. */
  lemma WordsOfPair(s: string, a: string, gap: string, b: string)
    requires a != [] && NoSpace(a) && b != [] && NoSpace(b)
    requires gap != [] && IsBlank(gap) && s == a + gap + b
    ensures Words(s) == [a, b]
  {
    WordsWordThenGap(s, a, gap, b);
    WordsGapThenWord(gap, b);
  }

  /** Two proper words joined by one space form a collapsed name. */
  lemma PairCollapsed(s: string, a: string, b: string)
    requires a != [] && NoSpace(a) && b != [] && NoSpace(b) && s == a + " " + b
    ensures Collapsed(s)
  {
    WordsOfPair(s, a, " ", b);
    assert [a, b][1..] == [b];
  }

  lemma AlPacinoCollapsed(c: string)
    requires c == "Al Pacino"
    ensures Collapsed(c) && Lower(c) == "al pacino"
  {
    PairCollapsed(c, "Al", "Pacino");
    AlPacinoLower(c);
  }

  lemma AlPacinoLower(c: string)
    requires c == "Al Pacino"
    ensures Lower(c) == "al pacino"
  {
  }

  lemma PaltrowLower(c: string)
    requires c == "Gwyneth Paltrow"
    ensures Lower(c) == "gwyneth paltrow"
  {
  }

  lemma PaltrowCollapsed(c: string)
    requires c == "Gwyneth Paltrow"
    ensures Collapsed(c) && Lower(c) == "gwyneth paltrow"
  {
    PairCollapsed(c, "Gwyneth", "Paltrow");
    PaltrowLower(c);
  }

  /** The corrections keep a name collapsed, and no corrected name still
      reads as the misspelling. */
  lemma CorrectKeepsCollapsed(s: string)
    requires Collapsed(s)
    ensures Collapsed(Correct(s))
    ensures Lower(Correct(s)) != "ai pacino"
    ensures Lower(Correct(s)) == "gwyneth paltrow" ==> Correct(s) == "Gwyneth Paltrow"
  {
    var p := if Lower(s) == "ai pacino" then "Al Pacino" else s;
    if Lower(s) == "ai pacino" {
      AlPacinoCollapsed(p);
      assert Lower(p)[1] == 'l';
    }
    if Lower(p) == "gwyneth paltrow" {
      assert Correct(s) == "Gwyneth Paltrow";
      PaltrowCollapsed(Correct(s));
      assert |Lower(Correct(s))| == 15;
    }
  }

  lemma CorrectNoUnderscore(s: string)
    requires '_' !in s
    ensures '_' !in Correct(s)
  {
    var c := Correct(s);
    if c == "Al Pacino" {
      assert forall i | 0 <= i < |c| :: c[i] != '_';
    } else if c == "Gwyneth Paltrow" {
      assert forall i | 0 <= i < |c| :: c[i] != '_';
    }
  }

  // --- properties of NormalizeName ----------------------------------------

  /** Either normalisation gives a name with no underscore, no leading,
      trailing or doubled whitespace, whose every word is title-cased unless
      it holds a hyphen. */
  lemma NormalizeNameShape(raw: string)
    ensures var out := NormalizeAsWritten(raw);
      && Collapsed(out)
      && '_' !in out
      && exists ws :: ProperWords(ws) && out == Join(TitleWords(ws), " ")
    ensures var out := NormalizeName(raw);
      && Collapsed(out)
      && '_' !in out
      && exists ws :: ProperWords(ws) && out == Join(TitleWords(ws), " ")
  {
    AsWrittenShape(raw);
    CorrectedShape(raw);
  }

  /** The stripped name of a non-blank string starts with a non-space. */
  lemma StripStart(s: string)
    ensures Strip(s) == [] || !IsSpace(Strip(s)[0])
  {
  }

  /** A corrected, stripped name with no word is the empty name. */
  lemma NoWordsEmpty(x: string)
    requires x == [] || !IsSpace(x[0])
    ensures Words(Correct(x)) == [] ==> Correct(x) == []
  {
  }

  lemma AsWrittenShape(raw: string)
    ensures var out := NormalizeAsWritten(raw);
      && Collapsed(out)
      && '_' !in out
      && exists ws :: ProperWords(ws) && out == Join(TitleWords(ws), " ")
  {
    var x := Strip(ReplaceChar(raw, '_', ' '));
    var pretty := Correct(x);
    var ws := Words(pretty);
    AsWrittenNoUnderscore(raw);
    TitleWordsProper(ws);
    JoinedIsCollapsed(TitleWords(ws));
    if |ws| == 0 {
      StripStart(ReplaceChar(raw, '_', ' '));
      NoWordsEmpty(x);
      assert NormalizeAsWritten(raw) == Join(TitleWords(ws), " ");
    }
  }

  lemma CorrectedShape(raw: string)
    ensures var out := NormalizeName(raw);
      && Collapsed(out)
      && '_' !in out
      && exists ws :: ProperWords(ws) && out == Join(TitleWords(ws), " ")
  {
    var collapsed := Join(Words(ReplaceChar(raw, '_', ' ')), " ");
    JoinedIsCollapsed(Words(ReplaceChar(raw, '_', ' ')));
    var pretty := Correct(collapsed);
    CorrectKeepsCollapsed(collapsed);
    var ws := Words(pretty);
    TitleWordsProper(ws);
    JoinedIsCollapsed(TitleWords(ws));
    CorrectedNoUnderscore(raw);
  }

  /** No word of the list contains c. */
  predicate AllWithout(ws: seq<string>, c: char)
  {
    ws == [] || (c !in ws[0] && AllWithout(ws[1..], c))
  }

  lemma ReplaceAbsent(s: string, c: char, d: char)
    requires c !in s
    ensures ReplaceChar(s, c, d) == s
  {
  }

  lemma {:induction false} WordsWithout(s: string, c: char)
    requires c !in s
    ensures AllWithout(Words(s), c)
    decreases |s|
  {
    var t := LStrip(s);
    if t != [] {
      var w := TakeWord(t);
      assert c !in t;
      assert c !in w;
      WordsWithout(t[|w|..], c);
      assert (Words(s))[1..] == Words(t[|w|..]);
    }
  }

  lemma {:induction false} TitleWordsWithout(ws: seq<string>, c: char)
    requires AllWithout(ws, c) && !IsLetter(c)
    ensures AllWithout(TitleWords(ws), c)
  {
    if ws != [] {
      var w := ws[0];
      if '-' !in w {
        forall i | 0 <= i < |w| ensures Title(w)[i] != c {
          if IsLetter(w[i]) { assert IsLetter(Title(w)[i]); } else { assert Title(w)[i] == w[i]; }
        }
      }
      assert TitleWords(ws)[1..] == TitleWords(ws[1..]);
      TitleWordsWithout(ws[1..], c);
    }
  }

  lemma {:induction false} JoinWithout(ws: seq<string>, sep: string, c: char)
    requires AllWithout(ws, c) && c !in sep
    ensures c !in Join(ws, sep)
  {
    if |ws| > 1 {
      JoinWithout(ws[1..], sep, c);
    }
  }

  /** Collapsing, correcting and title-casing leave no underscore behind. */
  lemma CollapseWithout(s: string, c: char)
    requires c !in s
    ensures c !in Join(Words(s), " ") || c == ' '
  {
    WordsWithout(s, c);
    if c != ' ' {
      JoinWithout(Words(s), " ", c);
    }
  }

  lemma TitleJoinWithout(s: string, c: char)
    requires c !in s && c != ' ' && !IsLetter(c)
    ensures c !in Join(TitleWords(Words(s)), " ")
  {
    WordsWithout(s, c);
    TitleWordsWithout(Words(s), c);
    JoinWithout(TitleWords(Words(s)), " ", c);
  }

  /** Every underscore of the raw class name is gone after either
      normalisation. */
  lemma NoUnderscore(raw: string)
    ensures '_' !in NormalizeAsWritten(raw)
    ensures '_' !in NormalizeName(raw)
  {
    AsWrittenNoUnderscore(raw);
    CorrectedNoUnderscore(raw);
  }

  lemma StripWithout(s: string, c: char)
    requires c !in s
    ensures c !in Strip(s)
  {
    var t := LStrip(s);
    assert c !in t;
  }

  lemma AsWrittenNoUnderscore(raw: string)
    ensures '_' !in NormalizeAsWritten(raw)
  {
    var r := ReplaceChar(raw, '_', ' ');
    StripWithout(r, '_');
    CorrectNoUnderscore(Strip(r));
    TitledWithout(Correct(Strip(r)));
  }

  lemma TitledWithout(pretty: string)
    requires '_' !in pretty
    ensures '_' !in (if |Words(pretty)| > 0 then Join(TitleWords(Words(pretty)), " ") else pretty)
  {
    TitleJoinWithout(pretty, '_');
  }

  lemma CorrectedNoUnderscore(raw: string)
    ensures '_' !in NormalizeName(raw)
  {
    var r := ReplaceChar(raw, '_', ' ');
    CollapseWithout(r, '_');
    CorrectNoUnderscore(Join(Words(r), " "));
    TitleJoinWithout(Correct(Join(Words(r), " ")), '_');
  }

  /** Normalising an already normalised name changes nothing. */
  lemma NormalizeIdempotent(raw: string)
    ensures NormalizeName(NormalizeName(raw)) == NormalizeName(raw)
  {
    var collapsed := Join(Words(ReplaceChar(raw, '_', ' ')), " ");
    JoinedIsCollapsed(Words(ReplaceChar(raw, '_', ' ')));
    var p := Correct(collapsed);
    CorrectKeepsCollapsed(collapsed);
    var ws := Words(p);
    var out := Join(TitleWords(ws), " ");
    assert out == NormalizeName(raw);
    CorrectedNoUnderscore(raw);
    ReplaceAbsent(out, '_', ' ');
    TitleWordsProper(ws);
    WordsOfJoin(TitleWords(ws));
    assert Join(Words(ReplaceChar(out, '_', ' ')), " ") == out;
    assert Lower(out) == Lower(p);
    if Lower(p) == "gwyneth paltrow" {
      assert Correct(out) == p;
    } else {
      assert Correct(out) == out;
      TitleWordsIdempotent(ws);
    }
  }

  lemma JoinPair(a: string, b: string)
    ensures Join([a, b], " ") == a + " " + b
  {
    assert [a, b][1..] == [b];
  }

  lemma JoinTitlePair(a: string, b: string)
    ensures Join(TitleWords([a, b]), " ") == TitleWord(a) + " " + TitleWord(b)
  {
    assert TitleWords([a, b]) == [TitleWord(a), TitleWord(b)];
    assert [TitleWord(a), TitleWord(b)][1..] == [TitleWord(b)];
  }

  /** How both normalisations treat a name whose two words are known: the
      corrected one title-cases the words of the corrected re-joined name ... */
  lemma NormalizeOfPair(raw: string, a: string, b: string)
    requires a != [] && NoSpace(a) && b != [] && NoSpace(b)
    requires Correct(Join(Words(ReplaceChar(raw, '_', ' ')), " ")) == a + " " + b
    ensures NormalizeName(raw) == TitleWord(a) + " " + TitleWord(b)
  {
    WordsOfPair(a + " " + b, a, " ", b);
    JoinTitlePair(a, b);
  }

  /** ... the as-written one those of the corrected stripped name. */
  lemma NormalizeAsWrittenOfPair(raw: string, a: string, gap: string, b: string)
    requires a != [] && NoSpace(a) && b != [] && NoSpace(b) && gap != [] && IsBlank(gap)
    requires Correct(Strip(ReplaceChar(raw, '_', ' '))) == a + gap + b
    ensures NormalizeAsWritten(raw) == TitleWord(a) + " " + TitleWord(b)
  {
    WordsOfPair(a + gap + b, a, gap, b);
    JoinTitlePair(a, b);
  }

  lemma TitleWordCapitalised(w: string)
    requires w != [] && IsUpper(w[0])
    requires forall i :: 1 <= i < |w| ==> IsLower(w[i])
    ensures TitleWord(w) == w
  {
    TitleOfCapitalised(w);
  }

  /** A word whose lower case is a given word of lower-case letters has no
      whitespace and no underscore either. */
  lemma LowerOfWord(w: string, l: string)
    requires Lower(w) == l && l != [] && forall i :: 0 <= i < |l| ==> IsLower(l[i])
    ensures w != [] && NoSpace(w) && '_' !in w
  {
    forall i | 0 <= i < |w| ensures IsLetter(w[i]) {
      assert Lower(w)[i] == l[i];
    }
  }

  /** Two words joined by an underscore are normalised from their re-joined form. */
  lemma CollapseUnderscorePair(a: string, b: string)
    requires a != [] && NoSpace(a) && '_' !in a && b != [] && NoSpace(b) && '_' !in b
    ensures ReplaceChar(a + "_" + b, '_', ' ') == a + " " + b
    ensures Join(Words(ReplaceChar(a + "_" + b, '_', ' ')), " ") == a + " " + b
  {
    assert ReplaceChar(a + "_" + b, '_', ' ') == a + " " + b;
    PairCollapsed(a + " " + b, a, b);
  }

  lemma CorrectAiPacino(c: string)
    requires Lower(c) == "ai pacino"
    ensures Correct(c) == "Al" + " " + "Pacino"
  {
  }

  lemma AiPacinoWords(a: string, b: string)
    requires Lower(a) == "ai" && Lower(b) == "pacino"
    ensures a != [] && NoSpace(a) && '_' !in a && b != [] && NoSpace(b) && '_' !in b
    ensures Lower(a + " " + b) == "ai pacino"
  {
    LowerOfWord(a, "ai");
    LowerOfWord(b, "pacino");
    LowerConcat(a, " " + b);
    LowerConcat(" ", b);
    assert Lower(" ")[0] == ' ';
    assert Lower(" ") == " ";
    assert Lower(a + " " + b) == "ai" + " " + "pacino";
  }

  lemma AlPacinoWords(a: string, b: string)
    requires a == "Al" && b == "Pacino"
    ensures a != [] && NoSpace(a) && b != [] && NoSpace(b)
    ensures TitleWord(a) == a && TitleWord(b) == b
  {
    TitleWordCapitalised(a);
    TitleWordCapitalised(b);
  }

  lemma NormalizeToAlPacino(raw: string, a: string, b: string)
    requires a == "Al" && b == "Pacino"
    requires Correct(Join(Words(ReplaceChar(raw, '_', ' ')), " ")) == a + " " + b
    ensures NormalizeName(raw) == a + " " + b
  {
    AlPacinoWords(a, b);
    NormalizeOfPair(raw, a, b);
  }

  lemma AlPacinoSpelled()
    ensures "Al" + " " + "Pacino" == "Al Pacino"
  {
  }

  /** Scenario: "ai_pacino", in any letter case, becomes "Al Pacino",
      under the normaliser the source runs as well as the corrected one. */
  lemma NormalizeAiPacino(a: string, b: string)
    requires Lower(a) == "ai" && Lower(b) == "pacino"
    ensures NormalizeName(a + "_" + b) == "Al Pacino"
    ensures NormalizeAsWritten(a + "_" + b) == "Al Pacino"
  {
    AiPacinoWords(a, b);
    CollapseUnderscorePair(a, b);
    CorrectAiPacino(a + " " + b);
    NormalizeToAlPacino(a + "_" + b, "Al", "Pacino");
    AlPacinoSpelled();
    PairAgrees(a, b);
  }

  /** Two words joined by one underscore have no run of spaces to collapse,
      so both normalisers agree on them. */
  lemma PairAgrees(a: string, b: string)
    requires a != [] && NoSpace(a) && '_' !in a && b != [] && NoSpace(b) && '_' !in b
    ensures NormalizeAsWritten(a + "_" + b) == NormalizeName(a + "_" + b)
  {
    var c := a + " " + b;
    CollapseUnderscorePair(a, b);
    assert c[0] == a[0] && c[|c| - 1] == b[|b| - 1];
    StripUnpadded(c);
    AgreeOnCollapsed(a + "_" + b);
  }

  // --- the as-written normalisation is not idempotent --------------------

  /** Two words joined by two underscores: the corrections see the doubled
      space and do not apply, so the words are title-cased as they stand. */
  lemma AsWrittenDoubleUnderscore(a: string, b: string)
    requires Lower(a) == "ai" && Lower(b) == "pacino"
    ensures NormalizeAsWritten(a + "__" + b) == TitleWord(a) + " " + TitleWord(b)
  {
    AiPacinoWords(a, b);
    var r := a + "  " + b;
    assert ReplaceChar(a + "__" + b, '_', ' ') == r;
    assert r[0] == a[0] && r[|r| - 1] == b[|b| - 1];
    StripUnpadded(r);
    assert |Lower(r)| == 10;
    assert Correct(r) == r;
    assert IsBlank("  ");
    NormalizeAsWrittenOfPair(a + "__" + b, a, "  ", b);
  }

  /** The title-cased "Ai Pacino" is then corrected on a second pass. */
  lemma AsWrittenSecondPass(a: string, b: string)
    requires Lower(a) == "ai" && Lower(b) == "pacino"
    ensures NormalizeAsWritten(TitleWord(a) + " " + TitleWord(b)) == "Al Pacino"
  {
    AiPacinoWords(a, b);
    TitleWordProper(a);
    TitleWordProper(b);
    var y := TitleWord(a) + " " + TitleWord(b);
    AiPacinoWords(TitleWord(a), TitleWord(b));
    assert ReplaceChar(y, '_', ' ') == y;
    assert y[0] == TitleWord(a)[0] && y[|y| - 1] == TitleWord(b)[|TitleWord(b)| - 1];
    StripUnpadded(y);
    CorrectAiPacino(y);
    AlPacinoWords("Al", "Pacino");
    assert IsBlank(" ");
    NormalizeAsWrittenOfPair(y, "Al", " ", "Pacino");
    AlPacinoSpelled();
  }

  lemma TitledAiIsNotAl(a: string, b: string)
    requires Lower(a) == "ai" && Lower(b) == "pacino"
    ensures TitleWord(a) + " " + TitleWord(b) != "Al Pacino"
  {
    AiPacinoWords(a, b);
    TitleWordProper(a);
    var y := TitleWord(a) + " " + TitleWord(b);
    assert y[1] == TitleWord(a)[1];
    assert Lower(TitleWord(a))[1] == 'i';
    assert "Al Pacino"[1] == 'l';
  }

  /** Normalising "ai__pacino" as written gives "Ai Pacino", and normalising
      that again gives "Al Pacino": the as-written normalisation is not
      idempotent, while NormalizeName maps both to "Al Pacino". */
  lemma AsWrittenNotIdempotent(a: string, b: string)
    requires Lower(a) == "ai" && Lower(b) == "pacino"
    ensures NormalizeAsWritten(NormalizeAsWritten(a + "__" + b)) != NormalizeAsWritten(a + "__" + b)
  {
    AsWrittenDoubleUnderscore(a, b);
    AsWrittenSecondPass(a, b);
    TitledAiIsNotAl(a, b);
  }

  /** The corrected normalisation maps the doubled-underscore name straight
      to "Al Pacino". */
  lemma NormalizeDoubleUnderscore(a: string, b: string)
    requires Lower(a) == "ai" && Lower(b) == "pacino"
    ensures NormalizeName(a + "__" + b) == "Al Pacino"
  {
    AiPacinoWords(a, b);
    assert ReplaceChar(a + "__" + b, '_', ' ') == a + "  " + b;
    assert IsBlank("  ");
    WordsOfPair(a + "  " + b, a, "  ", b);
    assert ["ai", "pacino"][1..] == ["pacino"];
    JoinPair(a, b);
    CorrectAiPacino(a + " " + b);
    NormalizeToAlPacino(a + "__" + b, "Al", "Pacino");
    AlPacinoSpelled();
  }

  /** Where the corrections already see a collapsed name (no run of inner
      whitespace other than one space), both normalisations agree. */
  lemma AgreeOnCollapsed(raw: string)
    requires Join(Words(ReplaceChar(raw, '_', ' ')), " ") == Strip(ReplaceChar(raw, '_', ' '))
    ensures NormalizeAsWritten(raw) == NormalizeName(raw)
  {
    var c := Join(Words(ReplaceChar(raw, '_', ' ')), " ");
    JoinedIsCollapsed(Words(ReplaceChar(raw, '_', ' ')));
    CorrectKeepsCollapsed(c);
  }

  // ---------------------------------------------------------------------
  // The class-name table (class_names.pkl)
  // ---------------------------------------------------------------------

  /** What one candidate path of class_names.pkl holds: nothing, something
      pickle cannot load, or an unpickled object. */
  datatype PickleFile = PickleMissing | PickleBroken | Pickled(obj: Json)

  predicate AllStrings(names: seq<Json>)
  {
    forall i :: 0 <= i < |names| ==> names[i].JStr?
  }

  /** The entries for a list of names: entry i is the i-th name as the
      given normalisation renders it. */
  function Table(names: seq<Json>, normalize: string -> string): map<int, LabelEntry>
    requires AllStrings(names)
    decreases |names|
  {
    if names == [] then map[]
    else
      var n := |names| - 1;
      Table(names[..n], normalize)[n := LabelEntry(n, normalize(names[n].s))]
  }

  /** The table built from an unpickled list; any element that is not a
      string makes the whole list fail. */
  function ClassTable(names: seq<Json>): Option<map<int, LabelEntry>>
  {
    if AllStrings(names) then Some(Table(names, NormalizeAsWritten)) else None
  }

  /** The loop of load_labels over the unpickled list, with the per-name
      normalisation (NormalizeAsWritten in the service) passed in. */
  method NormalizeAll(names: seq<Json>, normalize: string -> string) returns (r: Option<map<int, LabelEntry>>)
    ensures AllStrings(names) ==> r == Some(Table(names, normalize))
    ensures !AllStrings(names) ==> r == None
  {
    var norm: map<int, LabelEntry> := map[];
    var i := 0;
    while i < |names|
      invariant 0 <= i <= |names|
      invariant AllStrings(names[..i]) && norm == Table(names[..i], normalize)
    {
      if !names[i].JStr? {
        return None;
      }
      assert names[..i + 1][..i] == names[..i];
      norm := norm[i := LabelEntry(i, normalize(names[i].s))];
      i := i + 1;
    }
    assert names[..i] == names;
    return Some(norm);
  }

  /** Entry i of the table is class i under its rendered name, and there is
      one entry per class. */
  lemma {:induction false} TableEntries(names: seq<Json>, normalize: string -> string, i: int)
    requires AllStrings(names)
    ensures i in Table(names, normalize) <==> 0 <= i < |names|
    ensures 0 <= i < |names| ==> Table(names, normalize)[i] == LabelEntry(i, normalize(names[i].s))
    decreases |names|
  {
    if names != [] {
      var n := |names| - 1;
      assert AllStrings(names[..n]);
      TableEntries(names[..n], normalize, i);
      if 0 <= i < n {
        assert names[..n][i] == names[i];
      }
    }
  }

  /** A loaded table has one entry per class, keyed by its index, whose id is
      the index and whose name is the class name normalised as written:
      single-spaced and underscore-free. Where the stripped class name has no
      inner run of spaces, normalising the stored name again changes nothing. */
  lemma ClassTableEntries(names: seq<Json>, i: int)
    requires ClassTable(names).Some? && 0 <= i < |names|
    ensures i in ClassTable(names).value
    ensures ClassTable(names).value[i] == LabelEntry(i, NormalizeAsWritten(names[i].s))
    ensures Collapsed(ClassTable(names).value[i].name)
    ensures '_' !in ClassTable(names).value[i].name
    ensures var r := ReplaceChar(names[i].s, '_', ' ');
      Join(Words(r), " ") == Strip(r) ==>
        NormalizeAsWritten(ClassTable(names).value[i].name) == ClassTable(names).value[i].name
  {
    var raw := names[i].s;
    TableEntries(names, NormalizeAsWritten, i);
    AsWrittenShape(raw);
    var r := ReplaceChar(raw, '_', ' ');
    if Join(Words(r), " ") == Strip(r) {
      AgreeOnCollapsed(raw);
      NormalizeIdempotent(raw);
      StoredAgrees(NormalizeName(raw));
    }
  }

  /** Proper words joined by spaces neither start nor end with whitespace. */
  lemma {:induction false} JoinEnds(ws: seq<string>)
    requires ProperWords(ws) && ws != []
    ensures ws[0] != [] && ws[|ws| - 1] != []
    ensures var j := Join(ws, " ");
      j != [] && j[0] == ws[0][0] && j[|j| - 1] == ws[|ws| - 1][|ws[|ws| - 1]| - 1]
  {
    if |ws| > 1 {
      JoinEnds(ws[1..]);
    }
  }

  lemma {:induction false} ProperEnds(ws: seq<string>)
    requires ProperWords(ws) && ws != []
    ensures ws[0] != [] && !IsSpace(ws[0][0])
    ensures ws[|ws| - 1] != [] && !IsSpace(ws[|ws| - 1][|ws[|ws| - 1]| - 1])
  {
    if |ws| > 1 {
      ProperEnds(ws[1..]);
    }
  }

  lemma CollapsedUnpadded(x: string)
    requires Collapsed(x) && x != []
    ensures !IsSpace(x[0]) && !IsSpace(x[|x| - 1])
  {
    var ws := Words(x);
    JoinEnds(ws);
    ProperEnds(ws);
  }

  /** A single-spaced, underscore-free name is one on which both
      normalisations agree. */
  lemma StoredAgrees(x: string)
    requires Collapsed(x) && '_' !in x
    ensures NormalizeAsWritten(x) == NormalizeName(x)
  {
    ReplaceAbsent(x, '_', ' ');
    if x != [] {
      CollapsedUnpadded(x);
      StripUnpadded(x);
    }
    AgreeOnCollapsed(x);
  }

  lemma ClassTableFails(names: seq<Json>, i: int)
    requires 0 <= i < |names| && !names[i].JStr?
    ensures ClassTable(names) == None
  {
  }

  /** The first candidate that unpickles to a list of strings, in path order;
      a non-list or a list holding a non-string passes to the next path. */
  function FirstClassTable(files: seq<PickleFile>): Option<map<int, LabelEntry>>
  {
    if files == [] then None
    else if files[0].Pickled? && files[0].obj.JList? && ClassTable(files[0].obj.items).Some? then
      ClassTable(files[0].obj.items)
    else FirstClassTable(files[1..])
  }

  /** A candidate that yields a class table. */
  predicate Loadable(f: PickleFile)
  {
    f.Pickled? && f.obj.JList? && AllStrings(f.obj.items)
  }

  /** The index of the first loadable candidate, or the number of candidates. */
  function FirstLoadable(files: seq<PickleFile>): (k: nat)
    ensures k <= |files|
    ensures k < |files| ==> Loadable(files[k])
    ensures forall j :: 0 <= j < k ==> !Loadable(files[j])
  {
    if files == [] then 0
    else if Loadable(files[0]) then 0
    else 1 + FirstLoadable(files[1..])
  }

  /** The class table comes from the first loadable candidate, and there is
      none when no candidate is loadable. */
  lemma {:induction false} FirstClassTableIsFirstLoadable(files: seq<PickleFile>)
    ensures var k := FirstLoadable(files);
      FirstClassTable(files) == if k < |files| then Some(Table(files[k].obj.items, NormalizeAsWritten)) else None
  {
    if files != [] && !Loadable(files[0]) {
      FirstClassTableIsFirstLoadable(files[1..]);
    }
  }

  // ---------------------------------------------------------------------
  // The fallback actor table (labels.json)
  // ---------------------------------------------------------------------

  /** The top level of a decoded labels.json, an object kept as its ordered
      members, since a failure part-way leaves the earlier members filed. */
  datatype TopLevel = TopObject(members: seq<(string, Json)>) | TopOther(value: Json)

  datatype JsonFile = JsonMissing | JsonBroken | JsonLoaded(top: TopLevel)

  /** The key a member is filed under: its name, stripped and lower-cased. */
  function FallbackKey(name: string): string
  {
    Lower(Strip(name))
  }

  /** A member value filed in the table: a dict with a "name" entry. */
  predicate Named(v: Json)
  {
    v.JObj? && "name" in v.fields
  }

  /** The outcome of filing members in order: the table, and whether every
      member was handled (a "name" that is not a string raises). */
  datatype Filed = Filed(table: map<string, Json>, complete: bool)

  function FileMembers(table: map<string, Json>, members: seq<(string, Json)>): Filed
    decreases |members|
  {
    if members == [] then Filed(table, true)
    else
      var v := members[0].1;
      if Named(v) then
        if v.fields["name"].JStr? then
          FileMembers(table[FallbackKey(v.fields["name"].s) := v], members[1..])
        else Filed(table, false)
      else FileMembers(table, members[1..])
  }

  /** The fallback table after trying each labels.json path in order: a file
      that is missing, unreadable or not an object is passed over, a file
      whose filing stops part-way keeps what it filed, and the first file
      filed completely ends the search. */
  function FallbackAfter(table: map<string, Json>, files: seq<JsonFile>): map<string, Json>
    decreases |files|
  {
    if files == [] then table
    else if files[0].JsonLoaded? && files[0].top.TopObject? then
      var f := FileMembers(table, files[0].top.members);
      if f.complete then f.table else FallbackAfter(f.table, files[1..])
    else FallbackAfter(table, files[1..])
  }

  /** Every entry is a dict whose string name files it under its own key. */
  predicate WellFiled(table: map<string, Json>)
  {
    forall k :: k in table ==>
      Named(table[k]) && table[k].fields["name"].JStr? && FallbackKey(table[k].fields["name"].s) == k
  }

  lemma {:induction false} FileMembersWellFiled(table: map<string, Json>, members: seq<(string, Json)>)
    requires WellFiled(table)
    ensures WellFiled(FileMembers(table, members).table)
    decreases |members|
  {
    if members != [] {
      var v := members[0].1;
      if Named(v) && v.fields["name"].JStr? {
        FileMembersWellFiled(table[FallbackKey(v.fields["name"].s) := v], members[1..]);
      } else if !Named(v) {
        FileMembersWellFiled(table, members[1..]);
      }
    }
  }

  /** Filing never drops a key. */
  lemma {:induction false} FileMembersGrows(table: map<string, Json>, members: seq<(string, Json)>)
    ensures table.Keys <= FileMembers(table, members).table.Keys
    decreases |members|
  {
    if members != [] {
      var v := members[0].1;
      if Named(v) && v.fields["name"].JStr? {
        FileMembersGrows(table[FallbackKey(v.fields["name"].s) := v], members[1..]);
      } else if !Named(v) {
        FileMembersGrows(table, members[1..]);
      }
    }
  }

  /** When filing completes, every named member is found under its key. */
  lemma {:induction false} FileMembersComplete(table: map<string, Json>, members: seq<(string, Json)>, i: int)
    requires FileMembers(table, members).complete
    requires 0 <= i < |members| && Named(members[i].1)
    ensures members[i].1.fields["name"].JStr?
    ensures FallbackKey(members[i].1.fields["name"].s) in FileMembers(table, members).table
    decreases |members|
  {
    var v := members[0].1;
    if i == 0 {
      FileMembersGrows(table[FallbackKey(v.fields["name"].s) := v], members[1..]);
    } else if Named(v) {
      FileMembersComplete(table[FallbackKey(v.fields["name"].s) := v], members[1..], i - 1);
    } else {
      FileMembersComplete(table, members[1..], i - 1);
    }
  }

  lemma {:induction false} FallbackAfterWellFiled(table: map<string, Json>, files: seq<JsonFile>)
    requires WellFiled(table)
    ensures WellFiled(FallbackAfter(table, files))
  {
    forall t: map<string, Json>, members: seq<(string, Json)> | WellFiled(t)
      ensures WellFiled(FileMembers(t, members).table)
    {
      FileMembersWellFiled(t, members);
    }
    FallbackAfterKeeps(table, files, WellFiled);
  }

  /** Any property of the table that filing one file keeps, the search
      over the files keeps. */
  lemma {:induction false} FallbackAfterKeeps(table: map<string, Json>, files: seq<JsonFile>,
                                              inv: map<string, Json> -> bool)
    requires inv(table)
    requires forall t, members :: inv(t) ==> inv(FileMembers(t, members).table)
    ensures inv(FallbackAfter(table, files))
    decreases |files|
  {
    if files != [] {
      if files[0].JsonLoaded? && files[0].top.TopObject? {
        var f := FileMembers(table, files[0].top.members);
        if !f.complete {
          FallbackAfterKeeps(f.table, files[1..], inv);
        }
      } else {
        FallbackAfterKeeps(table, files[1..], inv);
      }
    }
  }

  // ---------------------------------------------------------------------
  // The store
  // ---------------------------------------------------------------------

  /** The two tables of the service: LABELS (class index to entry) and
      LABELS_JSON (fallback actors by lower-cased name). */
  class LabelStore {
    var labels: map<int, LabelEntry>
    var fallback: map<string, Json>

    constructor()
      ensures labels == map[] && fallback == map[]
    {
      labels := map[];
      fallback := map[];
    }

    /** load_labels: try each class_names.pkl path in order, then, only when
        the class table is non-empty, each labels.json path in order. It
        reports failure (FileNotFoundError) when no class table was loaded or
        the loaded one is empty. */
    method Load(pickles: seq<PickleFile>, jsons: seq<JsonFile>) returns (ok: bool)
      modifies this
      ensures FirstClassTable(pickles).Some? ==> labels == FirstClassTable(pickles).value
      ensures FirstClassTable(pickles).None? ==> labels == old(labels)
      ensures ok <==> labels != map[]
      ensures ok ==> fallback == FallbackAfter(old(fallback), jsons)
      ensures !ok ==> fallback == old(fallback)
    {
      LoadClasses(pickles);
      if labels == map[] {
        return false;
      }
      LoadFallback(jsons);
      return true;
    }

    /** The loop over the class_names.pkl paths. */
    method LoadClasses(pickles: seq<PickleFile>)
      modifies this
      ensures FirstClassTable(pickles).Some? ==> labels == FirstClassTable(pickles).value
      ensures FirstClassTable(pickles).None? ==> labels == old(labels)
      ensures fallback == old(fallback)
    {
      var i := 0;
      while i < |pickles|
        invariant 0 <= i <= |pickles|
        invariant labels == old(labels) && fallback == old(fallback)
        invariant FirstClassTable(pickles) == FirstClassTable(pickles[i..])
      {
        assert pickles[i..][1..] == pickles[i + 1..];
        var f := pickles[i];
        if f.Pickled? && f.obj.JList? {
          var t := NormalizeAll(f.obj.items, NormalizeAsWritten);
          if t.Some? {
            labels := t.value;
            return;
          }
        }
        i := i + 1;
      }
    }

    /** The loop over the labels.json paths. */
    method LoadFallback(jsons: seq<JsonFile>)
      modifies this
      ensures fallback == FallbackAfter(old(fallback), jsons)
      ensures labels == old(labels)
    {
      var j := 0;
      while j < |jsons|
        invariant 0 <= j <= |jsons| && labels == old(labels)
        invariant FallbackAfter(old(fallback), jsons) == FallbackAfter(fallback, jsons[j..])
      {
        assert jsons[j..][1..] == jsons[j + 1..];
        var f := jsons[j];
        if f.JsonLoaded? && f.top.TopObject? {
          var done := FileAll(f.top.members);
          if done {
            return;
          }
        }
        j := j + 1;
      }
    }

    /** The loop over labels_data.items(): files each named member under its
        key, and stops at the first name that is not a string. */
    method FileAll(members: seq<(string, Json)>) returns (complete: bool)
      modifies this
      ensures labels == old(labels)
      ensures Filed(fallback, complete) == FileMembers(old(fallback), members)
    {
      var k := 0;
      while k < |members|
        invariant 0 <= k <= |members| && labels == old(labels)
        invariant FileMembers(old(fallback), members) == FileMembers(fallback, members[k..])
      {
        assert members[k..][1..] == members[k + 1..];
        var v := members[k].1;
        if Named(v) {
          if !v.fields["name"].JStr? {
            return false;
          }
          fallback := fallback[FallbackKey(v.fields["name"].s) := v];
        }
        k := k + 1;
      }
      return true;
    }
  }
}
