# Actor recognition service and streaming front end, modelled in Dafny

The system is a movie-streaming web site with an actor-recognition feature.
A Python service (`backend/app.py`) does the recognition:

- It loads a class-name table (`class_names.pkl`) and a fallback actor table (`labels.json`).
- It asks a neural network for the top-K classes of an uploaded face.
- It reconciles each predicted name with the movie catalogue's actor search.
- It answers with a filtered, de-duplicated, score-ordered list of actor cards.

A React front end shows the catalogue. It also plays movies with subtitles, converting SubRip to WebVTT, and manages accounts, favourites and collections.

This project models the deterministic logic around those steps. The network, the HTTP clients and the browser are not modelled. Each of them becomes a parameter:

- **Ranked inference:** a list of (class index, score) pairs, or a failure.
- **Catalogue searches and detail requests:** functions from a query to an optional JSON reply.
- **`encodeURIComponent`, `JSON.parse`/`JSON.stringify`, `Number`, `Date`, URL resolution:** functions passed in.
- **Request outcomes:** `Done(value)` or `Failed(message)`.

Modules, one per source file or concern:

- **Shared value modules:**
  - `PyJson`: decoded JSON and Python truthiness.
  - `PyText`: `str.strip`, `str.split` (over Python's Unicode whitespace), `str.title` (case mapping on ASCII letters).
  - `Js`: JavaScript values, `||`, `??`, optional chaining and `trim`.
  - `Strings`: digits, case, padding, split and join.
- **Recognition service:**
  - `Labels`: `load_labels`.
  - `TopK`: `_predict_topk`.
  - `Reconcile`: `_find_actor_in_db_by_name`.
  - `Recognize`: the `recognize` endpoint.
- **Player page:**
  - `SrtToVtt` and `SrtConvert`: `convertSrtToVtt`. The first holds the specification functions; the second holds the loops.
  - `Stream`: the rest of the player page.
- **Front-end pages and helpers:**
  - `Movies`, `MovieDetail`, `AdminManagement`, `Register`, `Account`, `Watchlist`, `Favorites`, `Home`, `Showtime`: one per page.
  - `ImageUtils`: `src/utils/imageUtils.js`.
  - `Auth`: `src/contexts/AuthContext.jsx`.

Where the source updates state step by step, the model does the same:

- A React component's state, or a module's global dictionaries, become a class whose methods reassign its fields.
- A loop becomes a method with a `while` loop proved against a specification function.

Expression-only code becomes functions and lemmas.

`getInitials` appears twice in the source, in `src/pages/Account.jsx:463-471` and `src/pages/AdminManagement.jsx:4060-4068`. The two are identical and share the one model, `Account.Initials`.

## Model

| member | source | states |
|---|---|---|
| Labels.TitleWords | backend/app.py:87-89 | every word is title-cased unless it contains "-", which keeps it verbatim; one output word per input word |
| Labels.NormalizeAsWritten | backend/app.py:82-89 | the per-name normalisation of load_labels exactly as written, the one the class table is built with: underscores become spaces, the name is stripped, the two corrections compare the stripped name, then the words are title-cased and re-joined by single spaces; NormalizeNameShape, NoUnderscore and AgreeOnCollapsed state its properties |
| Labels.NormalizeName | backend/app.py:82-89 | the corrected normalisation of the Findings row, where the corrections see the re-joined name; NormalizeIdempotent states its property |
| Labels.TitleWordProper | backend/app.py:89 | title-casing a word keeps it non-empty and space-free and changes only letter case |
| Labels.TitleWordIdempotent | backend/app.py:89 | title-casing a title-cased word changes nothing |
| Labels.TitleWordsProper | backend/app.py:87-89 | the rejoined words are still proper words and differ from the input only in letter case |
| Labels.TitleWordsIdempotent | backend/app.py:87-89 | title-casing a word list twice equals once |
| Labels.CorrectKeepsCollapsed | backend/app.py:83-86 | the two hard-coded corrections keep a single-spaced name single-spaced; no corrected name still reads "ai pacino" in any case |
| Labels.CorrectNoUnderscore | backend/app.py:83-86 | the corrections never introduce an underscore |
| Labels.NormalizeNameShape | backend/app.py:82-89 | the normalisation as written (the one the table uses), and the corrected one, give a name with no underscore and no leading, trailing or doubled space, made of title-cased words |
| Labels.NoUnderscore | backend/app.py:82-89 | every underscore of the raw class name is gone after normalisation, as written and as corrected |
| Labels.NormalizeIdempotent | backend/app.py:82-89 | normalising a normalised name changes nothing (the corrected normalisation, see Findings) |
| Labels.NormalizeAiPacino | backend/app.py:82-84 | "ai_pacino" in any letter case becomes "Al Pacino", under the normalisation as written and under the corrected one |
| Labels.PairAgrees | backend/app.py:82-89 | two words joined by one underscore leave nothing to collapse, so the written and corrected normalisations give the same name |
| Labels.AsWrittenNotIdempotent | backend/app.py:82-89 | as written, "ai__pacino" normalises to "Ai Pacino", which normalises again to "Al Pacino": the normalisation is not idempotent |
| Labels.NormalizeDoubleUnderscore | backend/app.py:82-89 | the corrected normalisation maps "ai__pacino" straight to "Al Pacino" |
| Labels.AsWrittenDoubleUnderscore | backend/app.py:82-89 | as written, "ai__pacino" in any letter case escapes the correction and comes out title-cased as "Ai Pacino" |
| Labels.AsWrittenSecondPass | backend/app.py:82-89 | as written, normalising "Ai Pacino" again gives "Al Pacino" |
| Labels.TitledAiIsNotAl | backend/app.py:83-89 | the title-cased "Ai Pacino" differs from "Al Pacino" |
| Labels.AgreeOnCollapsed | backend/app.py:82-89 | when the stripped name has no run of inner spaces, the written and corrected normalisations agree |
| Labels.NormalizeAll | backend/app.py:79-91 | the loop over the unpickled list yields the table of all names when every element is a string, and fails (the exception is caught) otherwise |
| Labels.Table | backend/app.py:80-90 | the dict the enumerate loop builds for a given per-name normalisation; TableEntries states its keys and entries |
| Labels.ClassTable | backend/app.py:79-91 | the table of an unpickled list, normalised as written, or none when an element is not a string; ClassTableEntries and ClassTableFails state it |
| Labels.TableEntries | backend/app.py:80-90 | the table has exactly the keys 0..N-1 and entry i is (i, normalised name i) |
| Labels.ClassTableEntries | backend/app.py:79-90 | a loaded table's entry i is (i, class name i normalised as written), single-spaced and underscore-free; when the stripped class name has no inner run of spaces, normalising the stored name again changes nothing |
| Labels.ClassTableFails | backend/app.py:79-95 | one non-string element makes the candidate file fail |
| Labels.FirstLoadable | backend/app.py:73-95 | the index of the first candidate path that yields a table: all earlier ones fail |
| Labels.FirstClassTableIsFirstLoadable | backend/app.py:73-95 | the class table comes from the first loadable path, and there is none exactly when no path loads |
| Labels.FileMembersWellFiled | backend/app.py:110-113 | filing labels.json members keeps every entry a dict whose stripped, lower-cased name is its key |
| Labels.FileMembersGrows | backend/app.py:110-113 | filing never drops a key already present |
| Labels.FileMembersComplete | backend/app.py:110-113 | when filing completes, every dict member with a "name" is found under its stripped, lower-cased name |
| Labels.FallbackAfterWellFiled | backend/app.py:105-117 | trying the labels.json paths in order keeps the fallback table well filed |
| Labels.LabelStore.constructor | backend/app.py:38-39 | both global tables start empty |
| Labels.LabelStore.Load | backend/app.py:63-117 | the class table is the first loadable pickle's, normalised as written; loading reports failure (FileNotFoundError) exactly when the class table is empty, and only then is labels.json skipped |
| Labels.LabelStore.LoadClasses | backend/app.py:73-95 | the pickle loop sets LABELS from the first loadable path, normalised as written, and nothing else |
| Labels.LabelStore.LoadFallback | backend/app.py:105-117 | the labels.json loop sets the fallback table to the filing of the first readable file |
| Labels.LabelStore.FileAll | backend/app.py:110-113 | the member loop files members in order and reports whether it completed |
| TopK.LabelFor | backend/app.py:248 | a labelled index gives its entry; any other index gives id = index and name "Unknown_<index>" |
| TopK.TopKOf | backend/app.py:224-264 | a failed inference gives []; otherwise min(topK, classes) predictions |
| TopK.PredictTopK | backend/app.py:246-261 | the result loop builds exactly TopKOf |
| TopK.TopKAtRank | backend/app.py:246-259 | prediction i copies the score of the i-th ranked class and its label (or the placeholder) |
| TopK.TopKRankOrder | backend/app.py:239-259 | descending ranked scores give descending prediction scores |
| TopK.PlaceholderIffUnlabelled | backend/app.py:248-249 | with a table from N class names, a predicted name contains an underscore exactly when its index is outside 0..N-1, and a labelled prediction has id = index |
| Reconcile.ExtractItems | backend/app.py:285-296 | a reply's list is the first of content, data, items, results that holds a list, or the reply itself when it is a list |
| Reconcile.Candidates | backend/app.py:278-301 | a non-empty candidate list is the extraction of some successful reply |
| Reconcile.CollectCandidates | backend/app.py:271-301 | the URL loop tries both searches in order, skips failures and stops at the first non-empty list |
| Reconcile.ItemKey | backend/app.py:323-324 | a catalogue item has a comparison key exactly when it is a dict |
| Reconcile.ScanItems | backend/app.py:322-339 | one matching pass returns the first matching item, or raises on a non-dict item before it |
| Reconcile.StopIndex | backend/app.py:322-339 | the index where a pass stops: all earlier items are dicts that do not match |
| Reconcile.ScanForStops | backend/app.py:322-339 | a pass returns the item where it stops when it is a dict, raises when it is not, and misses when it runs off the end |
| Reconcile.FindActor | backend/app.py:266-360 | the lookup as a loop over the searches and passes computes FindActorOf |
| Reconcile.FindActorOf | backend/app.py:267-360 | the lookup of one predicted name: nothing for a blank name, else the staged match over the first non-empty candidate list, or the labels.json fallback; NotFoundIff, FoundFromSources and ExactMatchFirst state it |
| Reconcile.MatchItems | backend/app.py:322-358 | the staged match: exact key, then containment either way, then word-set inclusion either way, then the labels.json entry (through its detail record), then the first candidate; MatchItemsFound, ExactMatchFirst and NamelessCandidateMatches state it |
| Reconcile.BlankNameNotFound | backend/app.py:268-269 | a blank name is answered with None without any search |
| Reconcile.ScanOfDicts | backend/app.py:322-339 | over dict items a pass never raises |
| Reconcile.FromFallbackFound | backend/app.py:341-355 | a well-filed fallback entry always yields an actor |
| Reconcile.MatchItemsFound | backend/app.py:322-358 | with dict candidates the staged match always yields an actor |
| Reconcile.NotFoundIff | backend/app.py:267-360 | with well-formed inputs the lookup never raises and finds nothing exactly when the name is blank, or no search yields candidates and labels.json has no entry for the name |
| Reconcile.FoundFromSources | backend/app.py:303-358 | a found actor is a candidate, the fallback entry for the name, or the detail record for that entry's non-null id |
| Reconcile.ExactMatchFirst | backend/app.py:322-326 | the first candidate whose stripped, lower-cased name equals the name wins |
| Reconcile.NamelessCandidateMatches | backend/app.py:329-332 | a candidate with no name has the empty key and matches any name at the substring stage |
| Recognize.Or3 | backend/app.py:411 | Python's `a or b or c`: the first truthy operand, else the last |
| Recognize.RunAfterCrash | backend/app.py:387-414 | once the filter loop has raised, later predictions cannot revive the request |
| Recognize.OutcomeOf | backend/app.py:389-406 | what one prediction offers: nothing below minScore, for no actor or a falsy one; a raise for a raising lookup, an actor that is not a dict or an unhashable id; otherwise a card under the actor's id |
| Recognize.Absorb | backend/app.py:401-412 | an offered card is kept only when its id has not been seen, and a raise ends the request |
| Recognize.Step | backend/app.py:389-412 | one pass of the loop: the prediction's outcome absorbed into the filter |
| Recognize.Run | backend/app.py:387-412 | the loop as a fold over the predictions; RunSpec states what it keeps |
| Recognize.Offer | backend/app.py:389-406 | the threshold test, the lookup and the id read compute OutcomeOf |
| Recognize.Consider | backend/app.py:389-412 | the loop body computes Step on the kept cards and the seen ids |
| Recognize.RunIsFold | backend/app.py:387-412 | the loop over the predictions equals the fold over their outcomes |
| Recognize.FirstIndices | backend/app.py:387-412 | the positions of the first prediction of each actor id: increasing, and position i is included exactly when prediction i offers a card and no earlier prediction offers one under the same id |
| Recognize.FoldStepSpec | backend/app.py:387-412 | one more outcome extends the characterisation of the fold |
| Recognize.FoldSpec | backend/app.py:387-412 | the fold raises exactly when some outcome raises; otherwise its seen ids are all offered ids and its cards are the first offer of each id, in order |
| Recognize.RunSpec | backend/app.py:387-412 | the loop raises exactly when some prediction raises; otherwise it keeps exactly the card of the first prediction of each actor (score at least minScore, a truthy dict found, an id no earlier prediction offered), in prediction order, and has seen every offered id |
| Recognize.FilterPredictions | backend/app.py:387-414 | the filter loop computes the fold Run over the predictions |
| Recognize.StepWellFiltered | backend/app.py:393-414 | one prediction keeps the filter invariant (scores at least minScore, actor ids pairwise distinct, seen holds exactly the ids of the cards) and adds at most one card |
| Recognize.RunWellFiltered | backend/app.py:387-414 | the invariant holds after the whole loop |
| Recognize.InsertByScore | backend/app.py:416 | insertion keeps the multiset of cards |
| Recognize.SortByScore | backend/app.py:416 | the sort is a permutation |
| Recognize.InsertKeepsDescending | backend/app.py:416 | inserting into a descending list keeps it descending |
| Recognize.SortDescending | backend/app.py:416 | the sorted cards are in non-increasing score order |
| Recognize.WithScore | backend/app.py:416 | the cards sharing one score, in order |
| Recognize.InsertStable | backend/app.py:416 | among the cards of any one score, the inserted card comes first and the others keep their order (as the first of the input, it precedes its ties) |
| Recognize.SortStable | backend/app.py:416 | the sort is stable: cards of equal score keep their relative order |
| Recognize.Truncate | backend/app.py:417-419 | a positive limit keeps the first min(limit, n) cards; a limit of 0 or less keeps all |
| Recognize.Limit | backend/app.py:417 | maxResults when positive, else topK; AnswerTop states the truncation it leads to |
| Recognize.Answer | backend/app.py:386-440 | the response once the predictions are known; AnswerIsShown, AnswerContent and AnswerTop state it |
| Recognize.RecognizeOf | backend/app.py:366-441 | the endpoint: 400 for a content type that is not image/* or an unreadable image, else the answer for the top-K predictions; BadRequestIff and RecognizeContent state it |
| Recognize.Recognize | backend/app.py:366-441 | the handler over the loaded tables answers RecognizeOf |
| Recognize.BadRequestIff | backend/app.py:373-380 | 400 exactly when the content type is not image/... or the image cannot be read, with the matching detail |
| Recognize.RecognizeContent | backend/app.py:387-441 | the answer is in stable descending-score order, every score is at least minScore, ids are pairwise distinct, every card comes from the filter, and debug data appears exactly when asked for |
| Recognize.RecognizeTop | backend/app.py:416-419 | the answer is the first min(limit, n) of the filter's n cards in sorted order when the limit is positive, and all n otherwise |
| Recognize.ShownCards | backend/app.py:416-419 | sorting and cutting a filtered list keeps the threshold and the distinct ids |
| Recognize.TopOfSorted | backend/app.py:416-419 | cutting the sorted cards at a limit gives the first min(limit, n) of them for a positive limit, and all n otherwise |
| Recognize.DistinctKeysSurviveSort | backend/app.py:416 | sorting keeps actor ids pairwise distinct |
| Recognize.OnceInDistinct | backend/app.py:402-406 | a card of a list with distinct ids occurs in it once |
| PyText.TitleFromCases | backend/app.py:89 | Python `str.title` on ASCII: a letter after a letter is lower-cased, any other letter upper-cased |
| PyText.TitleFromIdempotent | backend/app.py:89 | `str.title` is idempotent |
| PyText.WordsOfJoin | backend/app.py:87-89 | splitting a single-space join of proper words gives the words back |
| PyText.StripEmptyIffBlank | backend/app.py:82 | `strip` gives "" exactly for a blank string |
| PyJson.HashKey | backend/app.py:402 | a value can be put in a Python set exactly when it is not a list or dict |
| SrtToVtt.CrToLf | src/pages/Stream.jsx:136 | every carriage return becomes a line feed, nothing else changes |
| SrtToVtt.Normalize | src/pages/Stream.jsx:136 | the scanned text has no carriage return |
| SrtToVtt.SeparatorIgnored | src/pages/Stream.jsx:140-145 | a comma and a dot before the milliseconds read the same time |
| SrtToVtt.HeaderAt | src/pages/Stream.jsx:147-148 | a matched cue line ends with the newline that precedes the text |
| SrtToVtt.Find | src/pages/Stream.jsx:147-150 | the next match from lastIndex is the leftmost, after lastIndex |
| SrtToVtt.BodyEnd | src/pages/Stream.jsx:148 | the lazy text ends at the first blank line or at the end |
| SrtToVtt.TextLines | src/pages/Stream.jsx:154-158 | text lines are trimmed, non-empty and newline-free |
| SrtToVtt.RawsHaveText | src/pages/Stream.jsx:147-159 | no matched cue has empty text |
| SrtToVtt.Raws | src/pages/Stream.jsx:147-159 | the cues the regex loop matches, in order, with empty texts skipped; RawsHaveText states it, and the converter's loop is proved to compute Timed of it |
| SrtToVtt.HeaderTextNotEmpty | src/pages/Stream.jsx:147-159 | on text that does not end in whitespace, the text after any matched cue line is never empty: it starts at the first non-space character after the line, before any blank line |
| SrtToVtt.CueTextOfFirstLine | src/pages/Stream.jsx:154-158 | a body whose first line holds a non-space character has a non-empty cue text |
| SrtToVtt.Timed | src/pages/Stream.jsx:160-163 | one cue out per cue in; TimedSpec and TimedSpaced state the overlap fix |
| SrtToVtt.TimedSpec | src/pages/Stream.jsx:160-163 | each cue keeps its text, starts at max(own start, previous end + 10 ms), ends at max(own end, new start + 300 ms), so it lasts at least 300 ms |
| SrtToVtt.TimedSpaced | src/pages/Stream.jsx:160-163 | any later cue starts at least 10 ms after an earlier cue ends |
| SrtToVtt.FirstCueAfterZero | src/pages/Stream.jsx:138-160 | the first cue starts at 10 ms or later |
| SrtToVtt.StampFields | src/pages/Stream.jsx:170-176 | a stamp is 12 characters with a dot before the milliseconds and reads back as its fields |
| SrtToVtt.Stamp | src/pages/Stream.jsx:170-176 | the time formatter; StampFields and StampRoundTrip state that it writes hh:mm:ss.mmm that reads back to the same time |
| SrtToVtt.StampRoundTrip | src/pages/Stream.jsx:140-176 | a time under 100 hours is written as a timestamp the converter reads back to the same time |
| SrtToVtt.Blocks | src/pages/Stream.jsx:179-184 | four lines per cue |
| SrtToVtt.NoCueHeaderOnly | src/pages/Stream.jsx:166-168 | no cue gives exactly "WEBVTT\n\n" |
| SrtToVtt.BlankInputHasNoCue | src/pages/Stream.jsx:135-168 | empty or blank input gives exactly "WEBVTT\n\n" |
| SrtToVtt.BlocksAt | src/pages/Stream.jsx:179-184 | cue i + 1 occupies lines 4i to 4i + 3 of the blocks |
| SrtToVtt.VttLayout | src/pages/Stream.jsx:178-186 | the document is "WEBVTT", "", then per cue its number i + 1, "start --> end", its text and "" |
| SrtToVtt.VttOf | src/pages/Stream.jsx:166-186 | the document; NoCueHeaderOnly and VttLayout state its layout with and without cues |
| SrtConvert.ScanCues | src/pages/Stream.jsx:147-164 | the match loop yields the fixed-up cues Timed(Raws) |
| SrtConvert.Exec | src/pages/Stream.jsx:147-159 | one `re.exec` from lastIndex: without a match there are no more cues; with one, the cues from here are this match (when its text is not empty) followed by those from the end of its text |
| SrtConvert.PushCue | src/pages/Stream.jsx:160-163 | pushing the moved-apart cue keeps the collected cues plus the fix of the rest equal to the fix of everything |
| SrtConvert.WriteVtt | src/pages/Stream.jsx:166-186 | the output loop writes VttOf(cues) |
| SrtConvert.ConvertSrtToVtt | src/pages/Stream.jsx:135-187 | the converter returns the document of the cues of its input |
| SrtConvert.NormalizedTextNotEmpty | src/pages/Stream.jsx:135-159 | on the text the converter scans, every matched cue line has text after it, so the `if (!text) continue` of the loop never fires |
| SrtConvert.TrimmedTextNotEmpty | src/pages/Stream.jsx:135-159 | the same for any trimmed text |
| Stream.ClockRoundTrip | src/pages/Stream.jsx:922-930 | every field is digits and every field after the first has two; from one hour on the three fields read back as h·3600 + m·60 + s, below it the two fields as m·60 + s, always equal to the whole seconds |
| Stream.Clock | src/pages/Stream.jsx:922-930 | the player's time display, m:ss or h:mm:ss; ClockRoundTrip states it |
| Stream.Chosen | src/pages/Stream.jsx:534-542 | the chosen subtitle is the first in the selected language (case-insensitive), else the first default, else the first |
| Stream.FirstWhere | src/pages/Stream.jsx:535-541 | `find`: the first index satisfying the predicate |
| Stream.ResolveSubtitleUrl | src/pages/Stream.jsx:107-110 | no URL gives ""; a "/"-rooted URL is kept as it is |
| Stream.SubtitleTrack | src/pages/Stream.jsx:529-562 | no track when disabled or the list is empty; otherwise a track exactly when the chosen entry is truthy, has a truthy `url` or `subtitleUrl`, and its resolved `subtitleUrl || url` is not empty; the track carries that URL and the caption `language || languageCode || "Subtitle"` |
| Stream.SelectedLanguageWins | src/pages/Stream.jsx:534-542 | a subtitle in the selected language is chosen over a default one |
| Stream.TrackLanguage | src/pages/Stream.jsx:553-558 | the track's lang is languageCode, else the lower-cased first two letters of language, else "en"; with neither, the label is "Subtitle" |
| Stream.NoUrlNoTrack | src/pages/Stream.jsx:543-561 | a chosen subtitle without a URL, or with one that resolves to "", gives no track |
| Stream.SeekTarget | src/pages/Stream.jsx:873 | the target is clamped to [0, duration] and is current + sec when that lies inside |
| Stream.SeekBackReturns | src/pages/Stream.jsx:870-874 | seeking forward and back by the same amount inside the video returns to the start |
| Stream.Video.constructor | src/pages/Stream.jsx:871-873 | a video element at the given position |
| Stream.SeekBy | src/pages/Stream.jsx:870-874 | without a video nothing happens; otherwise currentTime becomes the clamped target |
| Stream.ProgressSaver.Start | src/pages/Stream.jsx:793-832 | saving starts exactly for a movie that is playing with at most 3 failures; with more, the reset timeout is set instead |
| Stream.ProgressSaver.constructor | src/pages/Stream.jsx:789-790 | no failures, nothing saved yet, no interval or timeout set |
| Stream.ProgressSaver.ResetFailures | src/pages/Stream.jsx:799-801 | the timeout clears the failure count |
| Stream.ProgressSaver.Tick | src/pages/Stream.jsx:805-817 | a tick sends the position exactly when it moved at least 5 s from the last saved one and the duration is positive |
| Stream.ShouldSave | src/pages/Stream.jsx:806-815 | a tick sends only after a move of at least 5 s with a known duration; Tick sends exactly when it holds, and NoSaveWithoutMove states that a position within 5 s of the saved one is not sent |
| Stream.ProgressSaver.Settle | src/pages/Stream.jsx:817-825 | success clears the failures and records the position; failure adds one failure |
| Stream.FourFailuresPause | src/pages/Stream.jsx:793-831 | after four failed saves the next run of the effect pauses saving; after the reset timeout the following run saves again with no failures counted |
| Stream.NoSaveWithoutMove | src/pages/Stream.jsx:810-815 | after a save, a move of less than 5 s is never sent |
| Movies.MovieOf | src/pages/Movies.jsx:73-103 | a null entry throws; otherwise title and englishTitle are the title, and year is the stringified year when present |
| Movies.NowShowingMovie | src/pages/Movies.jsx:73-99 | the now-showing record: thumb `posterUrl \|\| thumbnailUrl`, country `country \|\| countryName`; MovieOf states the shared fields |
| Movies.MapMovies | src/pages/Movies.jsx:73-103 | `map` succeeds with one record per entry exactly when no entry throws |
| Movies.TransformSearchResults | src/pages/Movies.jsx:202-242 | `content`, else `movies`, else the payload, when an array, mapped with the search record; MapMovies states the mapping |
| Movies.PayloadList | src/pages/Movies.jsx:68-70 | the payload when it is an array, else `content`, `movies`, `data` or [] |
| Movies.MapPayload | src/pages/Movies.jsx:73-100 | `map` succeeds exactly when the list is an array with no null or undefined entry, giving the now-showing record of each entry in order |
| Movies.LoadNowShowing | src/pages/Movies.jsx:62-115 | a failed request shows its message (or "Failed to load movies") and no movies; a list that cannot be mapped shows the thrown message and no movies; otherwise the mapped list with no error; the error is null exactly when the load succeeded |
| Movies.SomeIncludes | src/pages/Movies.jsx:159-161 | `some` finds a genre containing the term, and is false when none does |
| Movies.Keep | src/pages/Movies.jsx:145-193 | `filter` keeps exactly the movies passing the predicate, as a subsequence, and throws when the predicate throws on any movie |
| Movies.Stage | src/pages/Movies.jsx:145-193 | an inactive filter leaves the list as it is; a list that already threw stays thrown |
| Movies.FilterMovies | src/pages/Movies.jsx:143-195 | the filter effect: search, genre, year, country, actor and director stages in order; FilteredIsSubsequence and NoFiltersKeepAll state it |
| Movies.FilterEffect | src/pages/Movies.jsx:143-197 | the filter effect resets to page 1 |
| Movies.StageFacts | src/pages/Movies.jsx:145-193 | each stage keeps a subsequence, holding exactly the entries that pass |
| Movies.FilteredIsSubsequence | src/pages/Movies.jsx:143-195 | the filtered list is a subsequence of the loaded movies and holds exactly those passing every active filter |
| Movies.Passes | src/pages/Movies.jsx:143-195 | a movie passes every active filter; FilteredIsSubsequence states that the filter chain keeps exactly the passing movies, in order |
| Movies.NoFiltersKeepAll | src/pages/Movies.jsx:143-195 | with every filter empty the list is the loaded list |
| Movies.SearchOnly | src/pages/Movies.jsx:146-155 | a title search keeps a movie exactly when its title or English title contains the term, case-insensitively |
| Movies.TotalPages | src/pages/Movies.jsx:393 | `Math.ceil(n / 24)` |
| Movies.Page | src/pages/Movies.jsx:394-396 | a page holds at most 24 movies and is empty past the end |
| Movies.PagesUpToPrefix | src/pages/Movies.jsx:394-396 | pages 1..k read in order give the first 24k movies |
| Movies.PagesPartition | src/pages/Movies.jsx:393-396 | the pages partition the filtered list, and later pages are empty |
| Movies.InitFromQuery | src/pages/Movies.jsx:121-134 | a query parameter overwrites its filter only when non-empty; the year is kept |
| Movies.InitFromQueryIdempotent | src/pages/Movies.jsx:121-134 | reading the same query twice changes nothing more |
| MovieDetail.FindFrom | src/pages/MovieDetail.jsx:80-85 | `find` from an index: the first matching movie |
| MovieDetail.FindMovie | src/pages/MovieDetail.jsx:80-85 | the movie shown is the first whose id matches as a string or as a number; none exactly when none matches |
| MovieDetail.NumericIdFound | src/pages/MovieDetail.jsx:80-85 | a numeric id is found from its decimal spelling |
| MovieDetail.StringIdFound | src/pages/MovieDetail.jsx:80-85 | a string id is found from the same string |
| MovieDetail.CastEntry | src/pages/MovieDetail.jsx:133-143 | a string actor is a bare name; an object keeps its id, takes the first truthy of name, fullName and username (else "") and the first truthy of avatar, avatarUrl, imageUrl and image (else profilePath) |
| MovieDetail.CastList | src/pages/MovieDetail.jsx:131-145 | one card per listed actor, in order, or the default cast |
| MovieDetail.DefaultCastShown | src/pages/MovieDetail.jsx:89-145 | without actors the cast is eight named cards |
| MovieDetail.NamesBecomeCards | src/pages/MovieDetail.jsx:134 | a list of names becomes cards carrying exactly those names |
| MovieDetail.UserList | src/pages/MovieDetail.jsx:210-214 | an array payload is the user list |
| MovieDetail.UserEntry | src/pages/MovieDetail.jsx:219-225 | every directory entry has a truthy name |
| MovieDetail.BuildUsersMap | src/pages/MovieDetail.jsx:206-230 | the loop builds the directory UsersMapOf |
| MovieDetail.UsersMapKeys | src/pages/MovieDetail.jsx:215-228 | the directory has a key exactly when some user with an id spells it |
| MovieDetail.UsersMapLastWins | src/pages/MovieDetail.jsx:215-228 | a later user with the same key overwrites an earlier one |
| MovieDetail.MergeCurrentUser | src/pages/MovieDetail.jsx:234-247 | the signed-in user with an id is added under it; every other entry is kept |
| MovieDetail.CurrentUserName | src/pages/MovieDetail.jsx:252-260 | the signed-in user's name fields end in "Bạn" |
| MovieDetail.OwnName | src/pages/MovieDetail.jsx:262-269 | the rating's own name fields end in "Người dùng <userId>" |
| MovieDetail.ReviewerName | src/pages/MovieDetail.jsx:248-270 | a missing rating reads "Người dùng"; otherwise the directory name, else the signed-in user's names for an own rating, else the rating's names; never empty |
| MovieDetail.NamelessSelfIsBan | src/pages/MovieDetail.jsx:252-260 | an own rating without any names reads "Bạn" |
| MovieDetail.NamelessOtherIsNumbered | src/pages/MovieDetail.jsx:262-269 | someone else's rating without names reads "Người dùng <userId>" |
| MovieDetail.DirectoryNameWins | src/pages/MovieDetail.jsx:250-251 | a user the directory loaded shows its directory name |
| MovieDetail.Compare | src/pages/MovieDetail.jsx:1231-1248 | own ratings come first, then newer before older; 0 exactly for equal keys |
| MovieDetail.Insert | src/pages/MovieDetail.jsx:1231 | insertion keeps the multiset |
| MovieDetail.SortBy | src/pages/MovieDetail.jsx:1231 | the sort is a permutation |
| MovieDetail.SortRatings | src/pages/MovieDetail.jsx:1231-1248 | the displayed ratings are a permutation of the loaded ones |
| MovieDetail.InsertOrdered | src/pages/MovieDetail.jsx:1231 | insertion keeps a list ordered by the comparator |
| MovieDetail.SortByOrdered | src/pages/MovieDetail.jsx:1231 | the sorted list is ordered by the comparator |
| MovieDetail.OwnRatingsFirst | src/pages/MovieDetail.jsx:1231-1248 | the viewer's own ratings precede all others, and each group is newest first |
| MovieDetail.SortByStable | src/pages/MovieDetail.jsx:1231 | the sort is stable |
| MovieDetail.SortRatingsStable | src/pages/MovieDetail.jsx:1231-1248 | ratings the comparator cannot tell apart keep their order |
| MovieDetail.RatingItems | src/pages/MovieDetail.jsx:297-305 | `items` first, a bare array as it is |
| MovieDetail.RatingsOf | src/pages/MovieDetail.jsx:288-316 | a failed load resets to no ratings; a loaded one takes the list and the page fields |
| MovieDetail.RatingItemsOrder | src/pages/MovieDetail.jsx:297-305 | the list falls through items, content, data.items, then [] |
| MovieDetail.DirectorText | src/pages/MovieDetail.jsx:696-705 | directorName when truthy, else a string |
| MovieDetail.TwoDirectors | src/pages/MovieDetail.jsx:699-701 | two listed directors read "A, B" |
| MovieDetail.DirectorStringTrimmed | src/pages/MovieDetail.jsx:702-704 | a directors string is shown trimmed, and a blank one shows "" |
| MovieDetail.PlayLabel | src/pages/MovieDetail.jsx:848-851 | "Xem ngay" exactly when the movie is available and has a streaming or video URL, else "Chưa có nguồn" |
| MovieDetail.MineOf | src/pages/MovieDetail.jsx:318-342 | a rating with numeric stars is taken with those stars and its comment, or "" when the comment is falsy; otherwise no rating, 3 stars, empty comment |
| MovieDetail.SubmitRating | src/pages/MovieDetail.jsx:344-366 | signed out goes to login; no movie id sends nothing; an existing rating is updated with the raw comment, a new one created with the trimmed comment and the numeric movie id; the stars sent are the chosen ones, else 3 |
| AdminManagement.Slice | src/pages/AdminManagement.jsx:968 | `slice` clamps both bounds to the list |
| AdminManagement.ClientPage | src/pages/AdminManagement.jsx:966-968 | a client page holds at most 20 rows |
| AdminManagement.PageCount | src/pages/AdminManagement.jsx:969 | `Math.ceil(n / 20)` |
| AdminManagement.PagesPrefix | src/pages/AdminManagement.jsx:966-969 | pages 0..n-1 read in order give the first 20n rows |
| AdminManagement.ClientPagesPartition | src/pages/AdminManagement.jsx:966-969 | the client pages partition the list; no page before the count is empty, all but the last are full, and pages past the count are empty |
| AdminManagement.ShapeOf | src/pages/AdminManagement.jsx:977-1007 | `content`, then `data.content`, each with its `totalPages || 0` and `totalElements || 0`; then a bare array, else the items of `res.data || []` |
| AdminManagement.Handle | src/pages/AdminManagement.jsx:977-1020 | paginated mode shows the server page with its two counts, or a plain list as one page; client mode caches the list and shows its page with the counts of the whole list |
| AdminManagement.BareListIsOnePage | src/pages/AdminManagement.jsx:1007-1011 | a bare array in paginated mode is one page holding the whole list |
| AdminManagement.CatalogPanel.constructor | src/pages/AdminManagement.jsx:921-932 | first page, no rows, no cache, zero counts, pagination on, loading |
| AdminManagement.CatalogPanel.Load | src/pages/AdminManagement.jsx:941-1030 | loadActors/loadMovies set rows, cache and counts from the answer, and turn pagination off when the paged request fails |
| AdminManagement.CatalogPanel.ToggleAvailability | src/pages/AdminManagement.jsx:2798-2815 | with a client cache the flag flips in place and the page is re-sliced; otherwise the list is reloaded; a failed request changes nothing |
| AdminManagement.WithAvailability | src/pages/AdminManagement.jsx:2804 | the spread sets isAvailable and keeps every other field |
| AdminManagement.Toggled | src/pages/AdminManagement.jsx:2803-2805 | one movie per movie; the matching ids get the new flag |
| AdminManagement.ToggledOnlyMatching | src/pages/AdminManagement.jsx:2803-2805 | only the movie with the id changes, and only its flag |
| AdminManagement.ToggledTwice | src/pages/AdminManagement.jsx:2803-2805 | toggling twice leaves the second value |
| AdminManagement.DeselectMembers | src/pages/AdminManagement.jsx:4109 | the filtered list holds exactly the users of the list whose id differs |
| AdminManagement.ToggleSelected | src/pages/AdminManagement.jsx:4106-4115 | a selected user is removed, any other appended at the end |
| AdminManagement.DeselectAbsent | src/pages/AdminManagement.jsx:4109 | deselecting an absent id changes nothing |
| AdminManagement.DeselectAppend | src/pages/AdminManagement.jsx:4109 | `filter` distributes over concatenation |
| AdminManagement.SelectTwiceRestores | src/pages/AdminManagement.jsx:4106-4115 | selecting an unselected user twice restores the list |
| AdminManagement.FilteredUsers | src/pages/AdminManagement.jsx:4128-4133 | keeps exactly the users whose username, full name or email contains the term, case-insensitively |
| AdminManagement.EmptySearchKeepsAll | src/pages/AdminManagement.jsx:4128-4133 | an empty search keeps every user in order |
| AdminManagement.SearchIgnoresCase | src/pages/AdminManagement.jsx:4128-4133 | an upper-cased term finds the same users |
| AdminManagement.SameTermSameUsers | src/pages/AdminManagement.jsx:4128-4133 | terms equal up to case find the same users |
| AdminManagement.MonthName | src/pages/AdminManagement.jsx:4704-4720 | 1..12 give the English month names, anything else "Month n" |
| AdminManagement.MonthNameInjective | src/pages/AdminManagement.jsx:4704-4720 | different months get different labels |
| AdminManagement.MonthsOf | src/pages/AdminManagement.jsx:4723-4725 | the truthy numeric months of the statistics |
| AdminManagement.Dedup | src/pages/AdminManagement.jsx:4726 | each month once |
| AdminManagement.InsertAscending | src/pages/AdminManagement.jsx:4727 | insertion keeps the list ascending |
| AdminManagement.SortAscending | src/pages/AdminManagement.jsx:4727 | the sort keeps the elements and orders distinct ones ascending |
| AdminManagement.MonthOptionsSpec | src/pages/AdminManagement.jsx:4722-4729 | the options are the months present, each once, ascending |
| AdminManagement.DirectorList | src/pages/AdminManagement.jsx:192-198 | of an array, exactly the directors with a usable name; nothing otherwise |
| AdminManagement.KeepDirectors | src/pages/AdminManagement.jsx:192-198 | keeps exactly the shown directors |
| AdminManagement.UnknownDirectorHidden | src/pages/AdminManagement.jsx:192-198 | a listed director's name is neither blank nor "unknown director" in any case |
| Register.Validate | src/pages/Register.jsx:315-341 | no error exactly when all six checks pass; otherwise the message of a failing check, the first in order |
| Register.PayloadOf | src/pages/Register.jsx:361-365 | the body carries the trimmed name as username, the trimmed email, and the password verbatim |
| Register.Submit | src/pages/Register.jsx:343-366 | the form is refused exactly when validation fails |
| Register.ReplyOf | src/pages/Register.jsx:370-379 | success exactly for an ok response; an error message is never empty |
| Register.BlankNameRejected | src/pages/Register.jsx:316-318 | a whitespace-only name is refused |
| Register.BlankEmailRejected | src/pages/Register.jsx:320-322 | a whitespace-only email is refused |
| Register.ShapeOfSlice | src/pages/Register.jsx:324 | cutting spaces from the ends keeps the email pattern's matches |
| Register.TrimmedEmailShape | src/pages/Register.jsx:324-363 | the trimmed email sent has the email shape exactly when the typed one has it |
| Register.SentBodyValid | src/pages/Register.jsx:315-365 | a sent body carries a non-blank name, a well-shaped email and a password of at least 6 characters |
| Register.SentBodyTrimmed | src/pages/Register.jsx:361-365 | a sent name and email start and end with no whitespace, and trimming them again changes nothing |
| Js.TrimmedEnds | src/pages/Register.jsx:362-363 | a trimmed string neither starts nor ends with whitespace, and trimming it again changes nothing |
| Register.EmailShape | src/pages/Register.jsx:324 | `/\S+@\S+\.\S+/.test`, unanchored: some "@" with a non-space before it and a "." after it, with non-space between and after; ShapeNeeds and TrimmedEmailShape state its consequences |
| Register.ShapeNeeds | src/pages/Register.jsx:324 | a matching email has an "@", a "." and at least five characters |
| Account.PasswordError | src/pages/Account.jsx:361-384 | no error exactly when all five checks pass; otherwise the message of the first failing check |
| Account.StartChange | src/pages/Account.jsx:355-386 | a failed check sends nothing and leaves loading as it was; a passing form is sent with loading set |
| Account.ChangeSucceeded | src/pages/Account.jsx:418-423 | success is shown and all three fields are emptied |
| Account.OpenDialog | src/pages/Account.jsx:437-446 | opening clears the error, the success and all fields |
| Account.CloseDialog | src/pages/Account.jsx:448-457 | closing clears the error, the success and all fields |
| Account.FormOf | src/pages/Account.jsx:244-251 | each field keeps a truthy account value and is "" for a falsy one (null, undefined, "") |
| Account.UntouchedFormSends | src/pages/Account.jsx:247-294 | as written, an untouched form is sent when the account has no birthday |
| Account.SendsProfileOnlyEdits | src/pages/Account.jsx:291-294 | the corrected comparison never sends an untouched form and sends every edit |
| Account.Heads | src/pages/Account.jsx:466-467 | one character per word at most |
| Account.Initials | src/pages/Account.jsx:463-471 | "U" for an empty name, else at most two characters |
| Account.InitialsOneWord | src/pages/Account.jsx:463-471 | a one-word name gives its upper-cased first letter |
| Account.InitialsOfSpaces | src/pages/Account.jsx:463-471 | a name of only spaces gives "" (not "U") |
| Account.InitialsTwoWords | src/pages/Account.jsx:463-471 | "First Second ...": the upper-cased first letters of the first two words |
| Watchlist.MovieIdOf | src/pages/Watchlist.jsx:234 | `movieId ?? id` |
| Watchlist.ResolveTitle | src/pages/Watchlist.jsx:232-233 | always truthy: title, else movieTitle, else the nested title, else "Phim" |
| Watchlist.FirstId | src/pages/Watchlist.jsx:123 | null without collections or when the first one's id is null or undefined, else that id |
| Watchlist.Replaced | src/pages/Watchlist.jsx:154-156 | each collection with the edited id is replaced, the others kept |
| Watchlist.WithoutId | src/pages/Watchlist.jsx:170 | keeps exactly the collections with another id |
| Watchlist.WithoutMovie | src/pages/Watchlist.jsx:192 | keeps exactly the movies whose `movieId ?? id` differs |
| Watchlist.WatchlistPage.constructor | src/pages/Watchlist.jsx:107-114 | no collections, no selection, no movies, closed dialog |
| Watchlist.WatchlistPage.Load | src/pages/Watchlist.jsx:119-130 | the collections are loaded, the first one selected, and its movies loaded when it exists |
| Watchlist.WatchlistPage.OpenCreate | src/pages/Watchlist.jsx:140-144 | opens an empty form for a new collection |
| Watchlist.WatchlistPage.OpenEdit | src/pages/Watchlist.jsx:145-149 | opens the form filled from the collection |
| Watchlist.WatchlistPage.Submit | src/pages/Watchlist.jsx:150-165 | an edit replaces the collection with that id; a creation prepends it; a failure sets the error |
| Watchlist.WatchlistPage.Delete | src/pages/Watchlist.jsx:166-178 | unconfirmed, nothing happens; on success removes the collection, clearing selection and movies only when it was selected; a failure sets the error |
| Watchlist.WatchlistPage.Select | src/pages/Watchlist.jsx:179-187 | the selection moves; the movies follow when the request succeeds |
| Watchlist.WatchlistPage.RemoveMovie | src/pages/Watchlist.jsx:189-196 | drops exactly the movies with that id |
| Watchlist.ReplacedOnlyMatching | src/pages/Watchlist.jsx:154-156 | editing touches only collections with the edited id |
| Watchlist.WithoutIdIdempotent | src/pages/Watchlist.jsx:170 | deleting the same id twice equals once |
| Watchlist.WithoutMovieIdempotent | src/pages/Watchlist.jsx:192 | removing the same movie twice equals once |
| Watchlist.WithoutAbsentId | src/pages/Watchlist.jsx:170 | deleting an absent id changes nothing |
| Watchlist.CreateThenDelete | src/pages/Watchlist.jsx:159-170 | creating a collection with a fresh id and deleting it restores the list |
| Favorites.Source | src/pages/Favorites.jsx:127 | `content` when it is an array, else [] |
| Favorites.Mapped | src/pages/Favorites.jsx:128-136 | the mapping throws exactly when a favourite is null or undefined or its poster path is truthy but not a string; otherwise one favourite per entry, in order, copying id, movieId, title, year and addedAt, with genres defaulting to [] and the poster built by buildImageUrl |
| Favorites.ImageUrl | src/pages/Favorites.jsx:78-86 | buildImageUrl: "" for a falsy path; an http:// or https:// URL unchanged; a throw exactly for a truthy path that is not a string |
| Favorites.TotalPagesOf | src/pages/Favorites.jsx:139-141 | the server count, else nextPage + 1 after a short page, else nextPage + 2 |
| Favorites.ShowsLoadMore | src/pages/Favorites.jsx:422 | "load more" shows while page + 1 is below a numeric page count; LoadMoreWithoutServerCount and LoadMoreWithServerCount state when that holds after a load |
| Favorites.WithoutFav | src/pages/Favorites.jsx:152 | keeps exactly the favourites with another id |
| Favorites.FavoritesPage.constructor | src/pages/Favorites.jsx:91-96 | no items, page 0, one page, loading |
| Favorites.FavoritesPage.LoadPage | src/pages/Favorites.jsx:122-147 | appends or replaces the mapped page and sets page and count; a failed request, or a page whose mapping throws, keeps the list, page and count and shows the message |
| Favorites.FavoritesPage.Remove | src/pages/Favorites.jsx:149-156 | drops the favourite on success, sets the error otherwise |
| Favorites.LoadMoreWithoutServerCount | src/pages/Favorites.jsx:139-422 | without a server count, "load more" shows exactly after a full page |
| Favorites.LoadMoreWithServerCount | src/pages/Favorites.jsx:139-422 | with a numeric server count, "load more" follows it |
| Favorites.RemoveIdempotent | src/pages/Favorites.jsx:152 | removing twice equals once |
| Favorites.LoadTwoPages | src/pages/Favorites.jsx:122-426 | loading page 0 then appending page 1 lists both pages in order |
| Home.ActiveMovie | src/pages/Home.jsx:33-36 | undefined for an empty list, else the entry at the index |
| Home.PosterPlaceholder | src/pages/Home.jsx:85-89 | the placeholder is a non-empty absolute URL |
| Home.TrendingPoster | src/pages/Home.jsx:70-89 | throws exactly for a truthy non-string poster |
| Home.NowShowingPoster | src/pages/Home.jsx:193-207 | throws exactly for a truthy non-string poster |
| Home.TrendingCard | src/pages/Home.jsx:69-104 | a null or undefined movie throws |
| Home.NowShowingCard | src/pages/Home.jsx:191-224 | a null or undefined movie throws |
| Home.MapCards | src/pages/Home.jsx:69-225 | `map` gives every card in order, or nothing when one throws |
| Home.MapTrending | src/pages/Home.jsx:69-104 | the trending row: every trending card in order, or nothing when one throws |
| Home.MapNowShowing | src/pages/Home.jsx:191-225 | the now-showing row: every now-showing card in order, or nothing when one throws |
| Home.Featured | src/pages/Home.jsx:233 | keeps exactly the featured movies |
| Home.FeaturedCard | src/pages/Home.jsx:235-244 | the fallback card of one featured movie; FeaturedFallback and FallbackIsFeatured state that each fallback card is the card of a featured movie |
| Home.FeaturedFallback | src/pages/Home.jsx:232-244 | the fallback is the cards of the first ten featured movies, or all of them when fewer, in list order |
| Home.FeaturedAppend | src/pages/Home.jsx:232-233 | the featured filter keeps list order: filtering a concatenation filters each part |
| Home.NowShowing | src/pages/Home.jsx:175-250 | the now-showing effect: the mapped payload, or the featured fallback when the request fails or a card throws; NullEntryFallsBack and FeaturedFallback state it |
| Home.TrendingList | src/pages/Home.jsx:61-67 | the trending list is data when it is an array, else data.items, else data.data, whichever comes first as an array, else [] |
| Home.NowShowingList | src/pages/Home.jsx:183-189 | the now-showing list is data when it is an array, else data.content, else data.data, whichever comes first as an array, else [] |
| Home.TrendingPosterServed | src/pages/Home.jsx:73-89 | a trending thumbnail is never empty and points at the API or an absolute URL |
| Home.TrendingPosterIdempotent | src/pages/Home.jsx:73-82 | normalising a normalised trending poster changes nothing |
| Home.NowShowingPosterServed | src/pages/Home.jsx:193-207 | a now-showing thumbnail is never empty and is absolute or rooted |
| Home.RootPathsDiffer | src/pages/Home.jsx:76-200 | trending prefixes "/posters/x" with "/api"; now-showing keeps it |
| Home.TrendingIds | src/pages/Home.jsx:92-93 | a trending card keeps the movie's id, else numbers it i + 1 |
| Home.NullEntryFallsBack | src/pages/Home.jsx:191-246 | one null entry sends the now-showing row to the fallback |
| Home.FallbackIsFeatured | src/pages/Home.jsx:232-244 | the fallback shows featured movies only |
| Showtime.Poster | src/pages/Showtime.jsx:65-78 | throws exactly for a truthy non-string poster; otherwise non-empty and absolute or rooted |
| Showtime.CardData | src/pages/Showtime.jsx:52-96 | a falsy movie gives null; the title falls back to "Movie index+1"; the id is movie.id, else "<title>-<index>" |
| Showtime.Outcomes | src/pages/Showtime.jsx:119-120 | one outcome per entry, in order |
| Showtime.Collect | src/pages/Showtime.jsx:121 | `filter(Boolean)` yields the cards exactly when no entry threw, as many as were made |
| Showtime.Cards | src/pages/Showtime.jsx:119-121 | `map(createMovieCardData).filter(Boolean)`; CardsCount, CardsInOrder and CardsServed state it |
| Showtime.LoadUpcoming | src/pages/Showtime.jsx:107-130 | when the reply arrives and the first array among data, data.content and data.data maps to cards, those cards with no error; otherwise no movies and the error message, or the default text when it is falsy |
| Showtime.MadeIffTruthy | src/pages/Showtime.jsx:53-121 | an entry makes a card exactly when it is truthy |
| Showtime.CardsCount | src/pages/Showtime.jsx:119-121 | exactly the truthy entries become cards |
| Showtime.CollectFrom | src/pages/Showtime.jsx:119-121 | every card comes from an outcome |
| Showtime.CardsServed | src/pages/Showtime.jsx:65-78 | every card's poster is non-empty and absolute or rooted |
| Showtime.CollectInOrder | src/pages/Showtime.jsx:119-121 | the cards keep the outcomes' order |
| Showtime.CardsInOrder | src/pages/Showtime.jsx:119-121 | the k-th card is the card of the k-th truthy entry |
| ImageUtils.DigitRun | src/utils/imageUtils.js:10 | `\d+` is greedy: the whole run of digits |
| ImageUtils.MatchAt | src/utils/imageUtils.js:10-13 | a match ends at a non-digit or the end |
| ImageUtils.FirstMatch | src/utils/imageUtils.js:10-13 | the leftmost match |
| ImageUtils.ReplaceFirst | src/utils/imageUtils.js:10-13 | a URL without a match is unchanged; otherwise only the leftmost match is rewritten |
| ImageUtils.ReplacedIsFirstMatch | src/utils/imageUtils.js:10-13 | after the rewrite the leftmost match is the replacement itself |
| ImageUtils.ReplaceFirstIdempotent | src/utils/imageUtils.js:10-13 | rewriting a rewritten URL changes nothing |
| ImageUtils.RewriteKeepsPicsum | src/utils/imageUtils.js:9-13 | a rewrite never adds or removes "picsum.photos" and never empties a URL |
| ImageUtils.ToHeroIdempotent | src/utils/imageUtils.js:6-14 | toHero of a hero URL is that URL |
| ImageUtils.ToHero | src/utils/imageUtils.js:6-14 | "" stays ""; a picsum URL has its first size pair rewritten, any other URL its first width parameter; RewriteKeepsPicsum and ToHeroIdempotent state it |
| ImageUtils.Placeholder | src/utils/imageUtils.js:23-27 | the placeholder URL starts with the placeholder service's address |
| ImageUtils.PlaceholderSizeInjective | src/utils/imageUtils.js:23-27 | different sizes give different placeholder URLs |
| Auth.StorageAfterLogin | src/contexts/AuthContext.jsx:33-34 | both keys are written, the token and the stringified user; other keys are kept |
| Auth.StorageAfterLogout | src/contexts/AuthContext.jsx:40-41 | both keys are removed; other keys are kept; no key is added |
| Auth.AuthProvider.constructor | src/contexts/AuthContext.jsx:7-9 | nobody signed in, still loading |
| Auth.AuthProvider.IsAuthenticated | src/contexts/AuthContext.jsx:56 | signed in exactly when both user and token are truthy; Login and Logout state it after each change |
| Auth.AuthProvider.Restore | src/contexts/AuthContext.jsx:11-28 | the startup effect restores from storage and ends loading |
| Auth.RestoreOf | src/contexts/AuthContext.jsx:11-28 | the state the startup effect leaves: Restore is proved to reach it, and LoginThenRestore, LogoutThenRestore and BrokenUserClears state its outcomes |
| Auth.AuthProvider.Login | src/contexts/AuthContext.jsx:30-35 | sets user and token and stores both; authenticated exactly when both are truthy |
| Auth.AuthProvider.Logout | src/contexts/AuthContext.jsx:37-42 | clears both and removes both keys; not authenticated |
| Auth.AuthProvider.UpdateUser | src/contexts/AuthContext.jsx:44-47 | replaces and stores the user; the token and its stored copy are untouched |
| Auth.LoginThenRestore | src/contexts/AuthContext.jsx:11-35 | a login survives a reload when the user's JSON parses back |
| Auth.LogoutThenRestore | src/contexts/AuthContext.jsx:11-42 | after a logout nothing is restored |
| Auth.BrokenUserClears | src/contexts/AuthContext.jsx:16-25 | unparsable user data removes both keys and leaves the session signed out |

## Left out

- Neural-network inference: model construction and loading, MTCNN cropping, softmax and `torch.topk` (backend/app.py:120-221, 226-242). These are floating point and foreign libraries. The model takes a ranked list of (index, score) pairs, or a failure, in their place.
- Scores are Dafny `real`. Everything else that is a number in the source is an integer here: JavaScript numbers, and the numbers of the backend's JSON values (`PyJson.JNum`).
- HTTP: FastAPI routing, CORS, `httpx` clients and timeouts, `fetch`, status codes. Catalogue replies are oracle parameters, with `None` for an exception or a non-2xx reply.
- Image upload decoding (backend/app.py:376-380) is a `readable` flag on the request.
- Recognize.Recognize: the 500 branch around the prediction (backend/app.py:382-385) cannot be reached, because `_predict_topk` catches every exception. The model's `ServerError` stands for an exception that escapes the filter loop instead, such as a candidate that is not a dict.
- Logging, the debug payload's `device` string, and the raw predictions' float formatting are left out.
- Case mapping (Python `str.lower` and `str.title`, JavaScript `toLowerCase` and `toUpperCase`) acts on ASCII letters only. A non-ASCII letter is left as it is, and `str.title` treats it as a word boundary. Whitespace (`str.strip`, `str.split`, `trim`) is the full Unicode set each language uses.
- SrtToVtt: times are integer milliseconds. This matches the source wherever its float arithmetic is exact. `Math.round` of float remainders in the time formatter is not modelled.
- SrtToVtt.StampRoundTrip covers times under 100 hours. Above that, the source writes more than two hour digits and its own reader cannot read them back.
- Stream.ResolveSubtitleUrl: the rewrite of absolute URLs through `new URL` and the CDN host check (src/pages/Stream.jsx:111-130) is the `absolute` parameter. A truthy URL that is not a string makes `url.startsWith` throw in the source (src/pages/Stream.jsx:110). The model takes its string form instead.
- Favorites.ShowsLoadMore: JavaScript's `<` coerces a numeric string page count to a number (src/pages/Favorites.jsx:422). The model shows the button only for a numeric count.
- Stream.ProgressSaver: the 30-second interval, the two-minute timeout and the promise callbacks are explicit method calls in the order the browser would run them. Timing and interleaving are not modelled.
- Stream.TrackLanguage: a subtitle whose `language` is truthy but not a string makes the source throw inside the effect (src/pages/Stream.jsx:557). The model takes the two-letter prefix of its string form instead.
- Reconcile.ItemKey: `PyJson.PyStr` renders a list as `[...]` and a dict as `{...}`, not as Python's `str()` does, so two different lists (or dicts) used as ids give the same key. Dict key order is not kept by the model's map.
- Watchlist.WatchlistPage.Load: `cols || []` and `ms || []` (src/pages/Watchlist.jsx:122, 127) keep a truthy reply that is not an array, and the `map` in rendering then throws. The model keeps [] for any reply that is not an array.
- Watchlist.WatchlistPage.Select: `ms || []` keeps a truthy reply that is not an array. The model keeps [] for it.
- Home.FeaturedCard: `m.thumb || ""` keeps a truthy thumb that is not a string. The model gives "" for it.
- Home.FeaturedFallback: a null or undefined movie in the list makes `m.isFeatured` throw inside the catch block (src/pages/Home.jsx:233). The model counts it as not featured.
- Number parsing (`Number`), `new Date(...)`, `encodeURIComponent`, `JSON.parse` and `JSON.stringify` are function parameters.
- Movies: only the fields the filters and pages read are modelled.
- Movies: the server search request is not modelled, because `shouldServerSearch` is the constant `false`. Its result mapping, `transformSearchResults`, is `Movies.TransformSearchResults`.
- MovieDetail: cast enrichment through `Promise.all` and `getReviewerAvatar` are not modelled. They are concurrent I/O and image selection.
- AdminManagement: a response that is neither an object nor an array is read as an empty list.
- AdminManagement: months in the statistics that are not numbers are dropped.
- JavaScript `===` on objects compares references. The model compares JSON values structurally.
- String lengths count characters, not UTF-16 code units.
- The `mounted`/`cancelled` flags of the effects are not modelled. They only guard against updates after unmount.
- Register: the request and the "cannot reach the server" message are not modelled. They are I/O.
- Register: the redirect timer is not modelled. It is a timer.

## Findings

| source | as written | input that shows it | evidently intended | confidence | as-written member | corrected member |
|---|---|---|---|---|---|---|
| backend/app.py:82-89 | the "ai pacino" correction compares the stripped name before inner runs of spaces are collapsed, so the normalisation is not idempotent | class name "ai__pacino": first pass gives "Ai Pacino", a second pass gives "Al Pacino" | the correction applies to the collapsed name, so "ai__pacino" becomes "Al Pacino" and normalising twice equals once | medium, not executed | Labels.AsWrittenNotIdempotent | Labels.NormalizeIdempotent |
| src/pages/Account.jsx:291-294 | change detection compares the form with the raw account, but the form holds `birthday \|\| ""`, so a null birthday always differs | account with birthday null and an untouched form: the profile update is sent anyway | send the profile only when a field was edited, comparing with the values the form was filled from | high, not executed | Account.UntouchedFormSends | Account.SendsProfileOnlyEdits |

Observations that are not errors, but that the model makes visible:

- A "/"-less relative poster path such as "x.jpg" becomes "/apix.jpg" on the home and upcoming pages.
- The first cue of a SubRip file starts at 10 ms or later, because `lastEnd` starts at 0.
- A cue line must follow a newline, so a file whose first line is already a time line loses that cue.
- A cue with no text takes the next cue's number and time line as its text, and that next cue is lost: the whitespace before the text gives back only its last newline, so the text starts at a non-space character. A last cue with no text is not matched at all, because trimming removed the newline it needs. So the empty-text skip never fires (SrtConvert.NormalizedTextNotEmpty).
- `seekBy` with an unknown duration of 0 jumps to 0.
- After the reset timeout, saving resumes only once the movie or the playing state changes.
