// Reconciling a predicted name with the movie catalogue
// (backend/app.py, _find_actor_in_db_by_name).
//
// The catalogue is reached through two oracles: `search` answers one of
// the two search requests with the decoded reply, or None when the request
// raised (connection error, a non-2xx status, a body that is not JSON);
// `detail` answers the request for one actor by id with the decoded body
// when the status is 200, and None otherwise.

module Reconcile {
  import opened Wrappers
  import opened Strings
  import opened PyText
  import opened PyJson
  import opened Labels

  /** The two catalogue searches, tried in this order. */
  datatype Query = ActorsByQuery(q: string) | SearchActorPath(name: string)

  function Queries(searchName: string): seq<Query>
  {
    [ActorsByQuery(searchName), SearchActorPath(searchName)]
  }

  function Replies(search: Query -> Option<Json>, searchName: string): seq<Option<Json>>
  {
    [search(ActorsByQuery(searchName)), search(SearchActorPath(searchName))]
  }

  /** The actor list inside one search reply: the first of "content",
      "data", "items", "results" that holds a list, or the reply itself when
      it is a list; None when the reply holds no list at all. */
  function ExtractItems(data: Json): (r: Option<seq<Json>>)
    ensures data.JList? ==> r == Some(data.items)
    ensures !data.JList? && !data.JObj? ==> r == None
    ensures data.JObj? && r.Some? ==>
      exists key :: key in {"content", "data", "items", "results"} && key in data.fields && data.fields[key] == JList(r.value)
    ensures data.JObj? && r.None? ==>
      forall key :: key in {"content", "data", "items", "results"} && key in data.fields ==> !data.fields[key].JList?
  {
    match data
    case JObj(fields) =>
      if GetList(fields, "content").Some? then GetList(fields, "content")
      else if GetList(fields, "data").Some? then GetList(fields, "data")
      else if GetList(fields, "items").Some? then GetList(fields, "items")
      else GetList(fields, "results")
    case JList(items) => Some(items)
    case _ => None
  }

  /** The candidates: the list of the first reply that yields a non-empty
      list; later searches are not made once one has. */
  function Candidates(replies: seq<Option<Json>>): (items: seq<Json>)
    ensures items != [] ==> exists i :: 0 <= i < |replies| && replies[i].Some?
                                        && ExtractItems(replies[i].value) == Some(items)
  {
    if replies == [] then []
    else
      var found := if replies[0].Some? then ExtractItems(replies[0].value) else None;
      if found.Some? && found.value != [] then found.value
      else
        var rest := Candidates(replies[1..]);
        assert rest != [] ==> exists i :: 1 <= i < |replies| && replies[i].Some? && ExtractItems(replies[i].value) == Some(rest) by {
          if rest != [] {
            var i :| 0 <= i < |replies[1..]| && replies[1..][i].Some? && ExtractItems(replies[1..][i].value) == Some(rest);
            assert replies[i + 1] == replies[1..][i];
          }
        }
        rest
  }

  /** The search loop: each request in turn, stopping at the first reply
      that yields a non-empty list. */
  method CollectCandidates(search: Query -> Option<Json>, searchName: string) returns (items: seq<Json>)
    ensures items == Candidates(Replies(search, searchName))
  {
    var queries := Queries(searchName);
    ghost var replies := Replies(search, searchName);
    items := [];
    var i := 0;
    while i < |queries|
      invariant 0 <= i <= |queries|
      invariant items == []
      invariant Candidates(replies) == Candidates(replies[i..])
    {
      assert replies[i..][1..] == replies[i + 1..];
      var reply := search(queries[i]);
      if reply.Some? {
        var found := ExtractItems(reply.value);
        if found.Some? {
          items := found.value;
        }
      }
      if items != [] {
        return;
      }
      i := i + 1;
    }
  }

  /** The comparison key of a catalogue item: str(item.get("name", "")),
      stripped and lower-cased; None when the item is not a dict, where
      `.get` raises. */
  function ItemKey(it: Json): (r: Option<string>)
    ensures r.Some? <==> it.JObj?
  {
    if it.JObj? then Some(Lower(Strip(PyStr(GetOr(it.fields, "name", JStr("")))))) else None
  }

  function WordSet(s: string): set<string>
  {
    set w | w in Words(s)
  }

  /** The three matching passes over the candidates, in order. */
  datatype Stage = Exact | Substring | SharedWords

  predicate Matches(stage: Stage, key: string, n: string)
  {
    match stage
    case Exact => n == key
    case Substring => Contains(n, key) || Contains(key, n)
    case SharedWords => WordSet(key) <= WordSet(n) || WordSet(n) <= WordSet(key)
  }

  /** The outcome of one pass: the first matching item, no match, or an
      exception from an item that is not a dict. */
  datatype Scan = Hit(actor: Json) | Miss | Fault

  /** What one item does to a pass: raises when it is not a dict, ends the
      pass when it matches, and lets the pass go on otherwise. */
  function Verdict(it: Json, stage: Stage, key: string): Scan
  {
    match ItemKey(it)
    case None => Fault
    case Some(n) => if Matches(stage, key, n) then Hit(it) else Miss
  }

  /** The verdicts of a pass, item by item. */
  function Verdicts(items: seq<Json>, stage: Stage, key: string): (vs: seq<Scan>)
    ensures |vs| == |items|
    ensures forall j :: 0 <= j < |items| ==> vs[j] == Verdict(items[j], stage, key)
  {
    seq(|items|, j requires 0 <= j < |items| => Verdict(items[j], stage, key))
  }

  /** The first verdict that ends a pass, or Miss when none does. */
  function FirstStop(vs: seq<Scan>): Scan
    decreases |vs|
  {
    if vs == [] then Miss
    else if vs[0].Miss? then FirstStop(vs[1..])
    else vs[0]
  }

  /** The position of that verdict; |vs| when there is none. */
  function StopAt(vs: seq<Scan>): (k: nat)
    ensures k <= |vs|
    ensures forall j :: 0 <= j < k ==> vs[j].Miss?
    ensures k < |vs| ==> !vs[k].Miss?
    decreases |vs|
  {
    if vs == [] || !vs[0].Miss? then 0
    else
      var k := StopAt(vs[1..]);
      assert forall j :: 1 <= j < k + 1 ==> vs[j] == vs[1..][j - 1];
      k + 1
  }

  /** The first stop is the verdict at the stop position. */
  lemma {:induction false} FirstStopAt(vs: seq<Scan>)
    ensures FirstStop(vs) == if StopAt(vs) == |vs| then Miss else vs[StopAt(vs)]
    decreases |vs|
  {
    if vs != [] && vs[0].Miss? {
      FirstStopAt(vs[1..]);
      var k := StopAt(vs[1..]);
      assert StopAt(vs) == k + 1;
      if k < |vs[1..]| {
        assert vs[1..][k] == vs[k + 1];
      }
    }
  }

  /** The outcome of one pass of the handler. */
  function ScanFor(items: seq<Json>, stage: Stage, key: string): Scan
  {
    FirstStop(Verdicts(items, stage, key))
  }

  /** The body of the pass for one item: compute its key (raising when it
      is not a dict), then compare. */
  method Judge(it: Json, stage: Stage, key: string) returns (v: Scan)
    ensures v == Verdict(it, stage, key)
  {
    var n := ItemKey(it);
    if n.None? {
      return Fault;
    }
    if Matches(stage, key, n.value) {
      return Hit(it);
    }
    return Miss;
  }

  /** One pass of the handler: `for it in items: ... if match: return it`. */
  method ScanItems(items: seq<Json>, stage: Stage, key: string) returns (r: Scan)
    ensures r == ScanFor(items, stage, key)
  {
    ghost var vs := Verdicts(items, stage, key);
    var i := 0;
    while i < |items|
      invariant 0 <= i <= |items|
      invariant FirstStop(vs) == FirstStop(vs[i..])
    {
      var v := Judge(items[i], stage, key);
      assert vs[i..][0] == vs[i] == v;
      if !v.Miss? {
        return v;
      }
      assert vs[i..][1..] == vs[i + 1..];
      i := i + 1;
    }
    assert vs[i..] == [];
    return Miss;
  }

  /** The index where a pass stops: the first item that is not a dict or
      that matches; |items| when it runs through. */
  function StopIndex(items: seq<Json>, stage: Stage, key: string): (k: nat)
    ensures k <= |items|
    ensures forall j :: 0 <= j < k ==> ItemKey(items[j]).Some? && !Matches(stage, key, ItemKey(items[j]).value)
    ensures k < |items| ==> ItemKey(items[k]).None? || Matches(stage, key, ItemKey(items[k]).value)
  {
    var vs := Verdicts(items, stage, key);
    var k := StopAt(vs);
    assert forall j :: 0 <= j < k ==> vs[j].Miss?;
    k
  }

  /** A pass returns the item where it stops when that item is a dict,
      raises when it is not, and misses only when it runs through. */
  lemma ScanForStops(items: seq<Json>, stage: Stage, key: string)
    ensures var k := StopIndex(items, stage, key);
            ScanFor(items, stage, key) ==
              if k == |items| then Miss
              else if ItemKey(items[k]).None? then Fault
              else Hit(items[k])
  {
    FirstStopAt(Verdicts(items, stage, key));
  }

  predicate AllDicts(items: seq<Json>)
  {
    forall j :: 0 <= j < |items| ==> items[j].JObj?
  }

  /** The answer of the lookup. */
  datatype Lookup = Found(actor: Json) | NotFound | Raised

  /** The labels.json entry for a name, refreshed from the catalogue by its
      id when that request answers 200. */
  function FromFallback(key: string, fallback: map<string, Json>, detail: Json -> Option<Json>): Lookup
    requires key in fallback
  {
    var actor := fallback[key];
    if !actor.JObj? then Raised
    else
      var id := Get(actor.fields, "id");
      if id != JNull && detail(id).Some? then Found(detail(id).value) else Found(actor)
  }

  /** The passes over a non-empty candidate list, then the fallback entry,
      then the first candidate. */
  function MatchItems(items: seq<Json>, key: string, fallback: map<string, Json>, detail: Json -> Option<Json>): Lookup
  {
    match ScanFor(items, Exact, key)
    case Hit(a) => Found(a)
    case Fault => Raised
    case Miss =>
      match ScanFor(items, Substring, key)
      case Hit(a) => Found(a)
      case Fault => Raised
      case Miss =>
        match ScanFor(items, SharedWords, key)
        case Hit(a) => Found(a)
        case Fault => Raised
        case Miss =>
          if key in fallback then FromFallback(key, fallback, detail)
          else if items != [] then Found(items[0])
          else NotFound
  }

  function FindActorOf(name: string, search: Query -> Option<Json>, fallback: map<string, Json>,
                       detail: Json -> Option<Json>): (r: Lookup)
  {
    var searchName := Strip(name);
    if searchName == [] then NotFound
    else
      var items := Candidates(Replies(search, searchName));
      var key := Lower(searchName);
      if items == [] then
        if key in fallback then FromFallback(key, fallback, detail) else NotFound
      else MatchItems(items, key, fallback, detail)
  }

  /** The lookup as the handler runs it. */
  method FindActor(name: string, search: Query -> Option<Json>, fallback: map<string, Json>,
                   detail: Json -> Option<Json>) returns (r: Lookup)
    ensures r == FindActorOf(name, search, fallback, detail)
  {
    var searchName := Strip(name);
    if searchName == [] {
      return NotFound;
    }
    var items := CollectCandidates(search, searchName);
    var key := Lower(searchName);
    if items == [] {
      if key in fallback {
        return FromFallback(key, fallback, detail);
      }
      return NotFound;
    }
    var exact := ScanItems(items, Exact, key);
    if exact.Hit? {
      return Found(exact.actor);
    } else if exact.Fault? {
      return Raised;
    }
    var partial := ScanItems(items, Substring, key);
    if partial.Hit? {
      return Found(partial.actor);
    } else if partial.Fault? {
      return Raised;
    }
    var shared := ScanItems(items, SharedWords, key);
    if shared.Hit? {
      return Found(shared.actor);
    } else if shared.Fault? {
      return Raised;
    }
    if key in fallback {
      return FromFallback(key, fallback, detail);
    }
    return Found(items[0]);
  }

  // ---------------------------------------------------------------------
  // Properties
  // ---------------------------------------------------------------------

  /** A blank name is answered without consulting the catalogue. */
  lemma BlankNameNotFound(name: string, search: Query -> Option<Json>, fallback: map<string, Json>,
                          detail: Json -> Option<Json>)
    requires IsBlank(name)
    ensures FindActorOf(name, search, fallback, detail) == NotFound
  {
    StripEmptyIffBlank(name);
  }

  lemma {:induction false} ScanOfDicts(items: seq<Json>, stage: Stage, key: string)
    requires AllDicts(items)
    ensures !ScanFor(items, stage, key).Fault?
  {
    ScanForStops(items, stage, key);
  }

  lemma FromFallbackFound(key: string, fallback: map<string, Json>, detail: Json -> Option<Json>)
    requires WellFiled(fallback) && key in fallback
    ensures FromFallback(key, fallback, detail).Found?
  {
  }

  /** Over dict candidates the passes never raise, and a non-empty list
      always yields an actor when the fallback entries are dicts. */
  lemma MatchItemsFound(items: seq<Json>, key: string, fallback: map<string, Json>, detail: Json -> Option<Json>)
    requires WellFiled(fallback) && AllDicts(items) && items != []
    ensures MatchItems(items, key, fallback, detail).Found?
  {
    ScanOfDicts(items, Exact, key);
    ScanOfDicts(items, Substring, key);
    ScanOfDicts(items, SharedWords, key);
    if key in fallback {
      FromFallbackFound(key, fallback, detail);
    }
  }

  /** With well-formed candidates and fallback entries the lookup never
      raises, and it reports no actor exactly when the name is blank, or
      when no search yields candidates and labels.json has no entry for the
      name. */
  lemma NotFoundIff(name: string, search: Query -> Option<Json>, fallback: map<string, Json>,
                    detail: Json -> Option<Json>)
    requires WellFiled(fallback)
    requires AllDicts(Candidates(Replies(search, Strip(name))))
    ensures var r := FindActorOf(name, search, fallback, detail);
            !r.Raised?
            && (r.NotFound? <==>
                  IsBlank(name)
                  || (Candidates(Replies(search, Strip(name))) == [] && FallbackKey(name) !in fallback))
  {
    StripEmptyIffBlank(name);
    var items := Candidates(Replies(search, Strip(name)));
    var key := Lower(Strip(name));
    if Strip(name) != [] {
      if items == [] {
        if key in fallback {
          FromFallbackFound(key, fallback, detail);
        }
      } else {
        MatchItemsFound(items, key, fallback, detail);
      }
    }
  }

  /** An actor found is one of the candidates, the labels.json entry for
      the name, or the catalogue's record for that entry's id. */
  lemma FoundFromSources(name: string, search: Query -> Option<Json>, fallback: map<string, Json>,
                         detail: Json -> Option<Json>)
    requires FindActorOf(name, search, fallback, detail).Found?
    ensures var a := FindActorOf(name, search, fallback, detail).actor;
            var key := FallbackKey(name);
            a in Candidates(Replies(search, Strip(name)))
            || (key in fallback && fallback[key].JObj?
                && (a == fallback[key]
                    || (Get(fallback[key].fields, "id") != JNull
                        && detail(Get(fallback[key].fields, "id")) == Some(a))))
  {
    var items := Candidates(Replies(search, Strip(name)));
    var key := Lower(Strip(name));
    if Strip(name) != [] && items != [] {
      MatchItemsFromSources(items, key, fallback, detail);
    }
  }

  /** A pass that hits returns one of the items. */
  lemma HitIsItem(items: seq<Json>, stage: Stage, key: string)
    requires ScanFor(items, stage, key).Hit?
    ensures ScanFor(items, stage, key).actor in items
  {
    ScanForStops(items, stage, key);
  }

  lemma MatchItemsFromSources(items: seq<Json>, key: string, fallback: map<string, Json>, detail: Json -> Option<Json>)
    requires MatchItems(items, key, fallback, detail).Found?
    ensures var a := MatchItems(items, key, fallback, detail).actor;
            a in items
            || (key in fallback && fallback[key].JObj?
                && (a == fallback[key]
                    || (Get(fallback[key].fields, "id") != JNull
                        && detail(Get(fallback[key].fields, "id")) == Some(a))))
  {
    if ScanFor(items, Exact, key).Hit? {
      HitIsItem(items, Exact, key);
    } else if ScanFor(items, Substring, key).Hit? {
      HitIsItem(items, Substring, key);
    } else if ScanFor(items, SharedWords, key).Hit? {
      HitIsItem(items, SharedWords, key);
    }
  }

  /** An exact name match wins: when the candidates are dicts and one of
      them carries the name, the first such candidate is the answer. */
  lemma ExactMatchFirst(name: string, search: Query -> Option<Json>, fallback: map<string, Json>,
                        detail: Json -> Option<Json>, j: int)
    requires !IsBlank(name)
    requires var items := Candidates(Replies(search, Strip(name)));
             AllDicts(items) && 0 <= j < |items| && ItemKey(items[j]) == Some(FallbackKey(name))
             && forall i :: 0 <= i < j ==> ItemKey(items[i]) != Some(FallbackKey(name))
    ensures FindActorOf(name, search, fallback, detail) == Found(Candidates(Replies(search, Strip(name)))[j])
  {
    StripEmptyIffBlank(name);
    var items := Candidates(Replies(search, Strip(name)));
    var key := Lower(Strip(name));
    ScanForStops(items, Exact, key);
    var k := StopIndex(items, Exact, key);
    assert k == j;
  }

  /** A candidate without a name (or with a blank one) has the empty key,
      which the substring pass takes as a match for every name: when no
      candidate matches exactly, such a candidate is answered ahead of any
      whole-word match and of the labels.json entry. */
  lemma NamelessCandidateMatches(items: seq<Json>, key: string, fallback: map<string, Json>,
                                 detail: Json -> Option<Json>, j: int)
    requires AllDicts(items) && 0 <= j < |items| && ItemKey(items[j]) == Some("")
    requires ScanFor(items, Exact, key) == Miss
    ensures exists i :: 0 <= i <= j && MatchItems(items, key, fallback, detail) == Found(items[i])
  {
    ScanForStops(items, Substring, key);
    var k := StopIndex(items, Substring, key);
    ContainsEmpty(key);
    assert Matches(Substring, key, ItemKey(items[j]).value);
    assert k <= j;
  }
}
