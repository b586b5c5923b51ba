// The recognition endpoint (backend/app.py, recognize): validate the
// upload, predict, reconcile each prediction with the catalogue, drop
// weak and repeated actors, order by score and cut to the limit.
//
// Decoding the upload is reduced to whether it can be read; the network's
// outcome on it is the `Inference` value of the TopK module.

module Recognize {
  import opened Wrappers
  import opened Strings
  import opened PyJson
  import opened Labels
  import opened TopK
  import opened Reconcile

  datatype Request = Request(contentType: Option<string>, readable: bool, topK: int, debug: int,
                             minScore: real, maxResults: int)

  /** The catalogue's two kinds of request, as seen by the lookup. */
  datatype Catalogue = Catalogue(search: Query -> Option<Json>, detail: Json -> Option<Json>)

  datatype ActorCard = ActorCard(id: Json, name: Json, imageUrl: Json, movieCount: Json, score: real)

  datatype Debug = Debug(labelsCount: nat, preds: seq<Prediction>)

  /** A 400 with its detail, a 500 from an exception the handler does not
      catch, or the JSON answer. */
  datatype Response = BadRequest(detail: string) | ServerError | Ok(content: seq<ActorCard>, debug: Option<Debug>)

  predicate IsImageType(contentType: Option<string>)
  {
    contentType.Some? && StartsWith(contentType.value, "image/")
  }

  /** Python's `a or b or c`: the first truthy operand, else the last. */
  function Or3(a: Json, b: Json, c: Json): (r: Json)
    ensures Truthy(r) <==> Truthy(a) || Truthy(b) || Truthy(c)
    ensures Truthy(a) ==> r == a
    ensures !Truthy(a) && Truthy(b) ==> r == b
    ensures !Truthy(a) && !Truthy(b) ==> r == c
  {
    if Truthy(a) then a else if Truthy(b) then b else c
  }

  function CardOf(actor: map<string, Json>, score: real): ActorCard
  {
    ActorCard(Get(actor, "id"), Get(actor, "name"),
              Or3(Get(actor, "imageUrl"), Get(actor, "image"), Get(actor, "avatarUrl")),
              Get(actor, "movieCount"), score)
  }

  // ---------------------------------------------------------------------
  // Filtering the predictions
  // ---------------------------------------------------------------------

  /** The state of the filter loop: the cards kept and the set of actor ids
      seen, or the exception that ended the request. */
  datatype Filter = Filtering(cards: seq<ActorCard>, seen: set<Key>) | Crashed

  /** What one prediction does, before the ids seen so far are consulted:
      nothing below the score threshold, when no actor is found or the actor
      is falsy; it raises when the lookup raises, the actor is not a dict or
      its id is unhashable; otherwise it offers a card under the actor's id. */
  datatype Outcome = Skip | Raise | Keep(key: Key, card: ActorCard)

  function OutcomeOf(p: Prediction, minScore: real, fallback: map<string, Json>, cat: Catalogue): Outcome
  {
    if p.score < minScore then Skip
    else match FindActorOf(p.name, cat.search, fallback, cat.detail)
      case Raised => Raise
      case NotFound => Skip
      case Found(actor) =>
        if !Truthy(actor) then Skip
        else if !actor.JObj? then Raise
        else match HashKey(Get(actor.fields, "id"))
          case None => Raise
          case Some(k) => Keep(k, CardOf(actor.fields, p.score))
  }

  /** The filter after one outcome: an offered card is kept only when its
      id was not seen. */
  function Absorb(st: Filter, o: Outcome): Filter
  {
    match st
    case Crashed => Crashed
    case Filtering(cards, seen) =>
      match o
      case Skip => st
      case Raise => Crashed
      case Keep(k, c) => if k in seen then st else Filtering(cards + [c], seen + {k})
  }

  /** One pass of the loop over the predictions. */
  function Step(st: Filter, p: Prediction, minScore: real, fallback: map<string, Json>, cat: Catalogue): Filter
  {
    Absorb(st, OutcomeOf(p, minScore, fallback, cat))
  }

  function Run(preds: seq<Prediction>, minScore: real, fallback: map<string, Json>, cat: Catalogue): Filter
    decreases |preds|
  {
    if preds == [] then Filtering([], {})
    else Step(Run(preds[..|preds| - 1], minScore, fallback, cat), preds[|preds| - 1], minScore, fallback, cat)
  }

  // --- what the loop keeps, stated without the loop -----------------------

  function Outcomes(preds: seq<Prediction>, minScore: real, fallback: map<string, Json>, cat: Catalogue)
    : (r: seq<Outcome>)
    ensures |r| == |preds|
    ensures forall i :: 0 <= i < |preds| ==> r[i] == OutcomeOf(preds[i], minScore, fallback, cat)
  {
    seq(|preds|, i requires 0 <= i < |preds| => OutcomeOf(preds[i], minScore, fallback, cat))
  }

  function Fold(outs: seq<Outcome>): Filter
    decreases |outs|
  {
    if outs == [] then Filtering([], {}) else Absorb(Fold(outs[..|outs| - 1]), outs[|outs| - 1])
  }

  lemma {:induction false} RunIsFold(preds: seq<Prediction>, minScore: real, fallback: map<string, Json>,
                                     cat: Catalogue)
    ensures Run(preds, minScore, fallback, cat) == Fold(Outcomes(preds, minScore, fallback, cat))
    decreases |preds|
  {
    if preds != [] {
      var n := |preds| - 1;
      RunIsFold(preds[..n], minScore, fallback, cat);
      OutcomesPrefix(preds, n, minScore, fallback, cat);
    }
  }

  lemma OutcomesPrefix(preds: seq<Prediction>, n: int, minScore: real, fallback: map<string, Json>, cat: Catalogue)
    requires 0 <= n <= |preds|
    ensures Outcomes(preds, minScore, fallback, cat)[..n] == Outcomes(preds[..n], minScore, fallback, cat)
  {
    var outs, prefix := Outcomes(preds, minScore, fallback, cat), Outcomes(preds[..n], minScore, fallback, cat);
    forall i | 0 <= i < n
      ensures outs[i] == prefix[i]
    {
      assert preds[..n][i] == preds[i];
    }
  }

  /** Outcome i offers a card and no earlier outcome offers one under the
      same id: it is the first prediction of its actor. */
  predicate FirstOfItsActor(outs: seq<Outcome>, i: int)
    requires 0 <= i < |outs|
  {
    outs[i].Keep? && forall j :: 0 <= j < i && outs[j].Keep? ==> outs[j].key != outs[i].key
  }

  lemma FirstOfPrefix(outs: seq<Outcome>, n: int, i: int)
    requires 0 <= i < n <= |outs|
    ensures FirstOfItsActor(outs[..n], i) <==> FirstOfItsActor(outs, i)
  {
    assert forall j :: 0 <= j <= i ==> outs[..n][j] == outs[j];
  }

  /** The positions of the first prediction of each actor, in prediction
      order. */
  function FirstIndices(outs: seq<Outcome>): (r: seq<int>)
    ensures forall j :: 0 <= j < |r| ==> 0 <= r[j] < |outs| && outs[r[j]].Keep?
    ensures forall j, k :: 0 <= j < k < |r| ==> r[j] < r[k]
    ensures forall i :: 0 <= i < |outs| ==> (i in r <==> FirstOfItsActor(outs, i))
    decreases |outs|
  {
    if outs == [] then []
    else
      var n := |outs| - 1;
      var front := FirstIndices(outs[..n]);
      assert forall i :: 0 <= i < n ==> (FirstOfItsActor(outs[..n], i) <==> FirstOfItsActor(outs, i)) by {
        forall i | 0 <= i < n {
          FirstOfPrefix(outs, n, i);
        }
      }
      front + (if FirstOfItsActor(outs, n) then [n] else [])
  }

  /** The ids of every outcome that offers a card. */
  function OfferedKeys(outs: seq<Outcome>): set<Key>
  {
    set i | 0 <= i < |outs| && outs[i].Keep? :: outs[i].key
  }

  /** The cards of the outcomes at the given positions. */
  function CardsAt(outs: seq<Outcome>, ix: seq<int>): seq<ActorCard>
    requires forall j :: 0 <= j < |ix| ==> 0 <= ix[j] < |outs| && outs[ix[j]].Keep?
  {
    seq(|ix|, j requires 0 <= j < |ix| => outs[ix[j]].card)
  }

  /** The fold raises exactly when some outcome raises; otherwise it holds
      the card of the first prediction of each actor, in prediction order,
      and has seen the id of every offered card. */
  lemma {:induction false} FoldSpec(outs: seq<Outcome>)
    ensures Fold(outs).Crashed? <==> exists i :: 0 <= i < |outs| && outs[i].Raise?
    ensures Fold(outs).Filtering? ==> Fold(outs).seen == OfferedKeys(outs)
    ensures Fold(outs).Filtering? ==> Fold(outs).cards == CardsAt(outs, FirstIndices(outs))
    decreases |outs|
  {
    if outs != [] {
      var n := |outs| - 1;
      var pre := outs[..n];
      FoldSpec(pre);
      assert forall i :: 0 <= i < n ==> pre[i] == outs[i];
      var st := Fold(pre);
      if st.Filtering? && !outs[n].Raise? {
        FoldStepSpec(outs, st.cards, st.seen);
      }
    }
  }

  /** The loop over the predictions raises exactly when some prediction
      raises. Otherwise it keeps, in prediction order, the card of the first
      prediction of each actor: a score at or above the threshold, a truthy
      dict found for the name, and an id that no earlier prediction offered;
      and the ids it has seen are those of every offered card. */
  lemma RunSpec(preds: seq<Prediction>, minScore: real, fallback: map<string, Json>, cat: Catalogue)
    ensures var outs := Outcomes(preds, minScore, fallback, cat);
            var r := Run(preds, minScore, fallback, cat);
            (r.Crashed? <==> exists i :: 0 <= i < |preds| && outs[i].Raise?)
            && (r.Filtering? ==> r.seen == OfferedKeys(outs) && r.cards == CardsAt(outs, FirstIndices(outs)))
  {
    RunIsFold(preds, minScore, fallback, cat);
    FoldSpec(Outcomes(preds, minScore, fallback, cat));
  }

  /** The last outcome extends the fold over the ones before it. */
  lemma FoldStepSpec(outs: seq<Outcome>, cards: seq<ActorCard>, seen: set<Key>)
    requires outs != [] && !outs[|outs| - 1].Raise?
    requires var pre := outs[..|outs| - 1];
      seen == OfferedKeys(pre) && cards == CardsAt(pre, FirstIndices(pre))
    ensures var next := Absorb(Filtering(cards, seen), outs[|outs| - 1]);
      next.Filtering? && next.seen == OfferedKeys(outs) && next.cards == CardsAt(outs, FirstIndices(outs))
  {
    var n := |outs| - 1;
    var pre := outs[..n];
    var o := outs[n];
    assert forall i :: 0 <= i < n ==> pre[i] == outs[i];
    var ix := FirstIndices(pre);
    assert FirstIndices(outs) == ix + (if FirstOfItsActor(outs, n) then [n] else []);
    if o.Keep? {
      assert OfferedKeys(outs) == OfferedKeys(pre) + {o.key};
      if o.key in seen {
        var j :| 0 <= j < n && pre[j].Keep? && pre[j].key == o.key;
        assert !FirstOfItsActor(outs, n);
      } else {
        assert FirstOfItsActor(outs, n);
      }
    } else {
      assert OfferedKeys(outs) == OfferedKeys(pre);
    }
  }

  /** Once the request has raised, later predictions cannot revive it. */
  lemma {:induction false} RunAfterCrash(preds: seq<Prediction>, i: int, minScore: real,
                                         fallback: map<string, Json>, cat: Catalogue)
    requires 0 <= i <= |preds| && Run(preds[..i], minScore, fallback, cat).Crashed?
    ensures Run(preds, minScore, fallback, cat).Crashed?
    decreases |preds|
  {
    if i < |preds| {
      var n := |preds| - 1;
      assert preds[..n][..i] == preds[..i];
      RunAfterCrash(preds[..n], i, minScore, fallback, cat);
    } else {
      assert preds[..i] == preds;
    }
  }

  /** The fold over the predictions takes one more step per prediction. */
  lemma RunSnoc(preds: seq<Prediction>, i: int, minScore: real, fallback: map<string, Json>, cat: Catalogue)
    requires 0 <= i < |preds|
    ensures Run(preds[..i + 1], minScore, fallback, cat)
         == Step(Run(preds[..i], minScore, fallback, cat), preds[i], minScore, fallback, cat)
  {
    assert preds[..i + 1][..i] == preds[..i];
  }

  /** The handler's loop over the predictions. */
  method FilterPredictions(preds: seq<Prediction>, minScore: real, fallback: map<string, Json>, cat: Catalogue)
    returns (r: Filter)
    ensures r == Run(preds, minScore, fallback, cat)
  {
    var st := Filtering([], {});
    var i := 0;
    while i < |preds|
      invariant 0 <= i <= |preds|
      invariant st.Filtering? && Run(preds[..i], minScore, fallback, cat) == st
    {
      RunSnoc(preds, i, minScore, fallback, cat);
      st := Consider(st, preds[i], minScore, fallback, cat);
      if st.Crashed? {
        RunAfterCrash(preds, i + 1, minScore, fallback, cat);
        return Crashed;
      }
      i := i + 1;
    }
    assert preds[..i] == preds;
    return st;
  }

  /** The body of the loop for one prediction, on the kept cards and the
      ids seen so far. */
  method Consider(st: Filter, p: Prediction, minScore: real, fallback: map<string, Json>, cat: Catalogue)
    returns (next: Filter)
    requires st.Filtering?
    ensures next == Step(st, p, minScore, fallback, cat)
  {
    var o := Offer(p, minScore, fallback, cat);
    if o.Raise? {
      return Crashed;
    }
    var filtered, seenIds := st.cards, st.seen;
    if o.Keep? && o.key !in seenIds {
      seenIds := seenIds + {o.key};
      filtered := filtered + [o.card];
    }
    return Filtering(filtered, seenIds);
  }

  /** The threshold test, the lookup, and reading the actor's id. */
  method Offer(p: Prediction, minScore: real, fallback: map<string, Json>, cat: Catalogue) returns (o: Outcome)
    ensures o == OutcomeOf(p, minScore, fallback, cat)
  {
    if p.score < minScore {
      return Skip;
    }
    var actor := FindActor(p.name, cat.search, fallback, cat.detail);
    if actor.Raised? {
      return Raise;
    }
    if actor.NotFound? || !Truthy(actor.actor) {
      return Skip;
    }
    if !actor.actor.JObj? {
      return Raise;
    }
    var actorId := HashKey(Get(actor.actor.fields, "id"));
    if actorId.None? {
      return Raise;
    }
    return Keep(actorId.value, CardOf(actor.actor.fields, p.score));
  }

  /** What the filter keeps: scores at or above the threshold, and one card
      per actor id, the set of ids seen being exactly those of the cards. */
  predicate WellFiltered(cards: seq<ActorCard>, seen: set<Key>, minScore: real)
  {
    (forall i :: 0 <= i < |cards| ==>
       cards[i].score >= minScore && HashKey(cards[i].id).Some? && HashKey(cards[i].id).value in seen)
    && (forall k :: k in seen ==> exists i :: 0 <= i < |cards| && HashKey(cards[i].id) == Some(k))
    && (forall i, j :: 0 <= i < j < |cards| ==> HashKey(cards[i].id) != HashKey(cards[j].id))
  }

  /** The filter invariant, with a bound on the number of cards. */
  predicate FilterInv(st: Filter, minScore: real, bound: nat)
  {
    st.Filtering? ==> WellFiltered(st.cards, st.seen, minScore) && |st.cards| <= bound
  }

  lemma StepWellFiltered(st: Filter, p: Prediction, minScore: real, fallback: map<string, Json>, cat: Catalogue,
                         bound: nat)
    requires FilterInv(st, minScore, bound)
    ensures FilterInv(Step(st, p, minScore, fallback, cat), minScore, bound + 1)
  {
    var next := Step(st, p, minScore, fallback, cat);
    if st.Filtering? && next.Filtering? && next != st {
      var actor := FindActorOf(p.name, cat.search, fallback, cat.detail).actor;
      var k := HashKey(Get(actor.fields, "id")).value;
      var c := CardOf(actor.fields, p.score);
      assert next == Filtering(st.cards + [c], st.seen + {k});
      KeepWellFiltered(st.cards, st.seen, c, k, minScore);
    }
  }

  /** Keeping a card whose id is new, at a score over the threshold. */
  lemma KeepWellFiltered(cards: seq<ActorCard>, seen: set<Key>, c: ActorCard, k: Key, minScore: real)
    requires WellFiltered(cards, seen, minScore)
    requires k !in seen && HashKey(c.id) == Some(k) && c.score >= minScore
    ensures WellFiltered(cards + [c], seen + {k}, minScore)
  {
    var next := cards + [c];
    var n := |cards|;
    forall i, j | 0 <= i < j < |next|
      ensures HashKey(next[i].id) != HashKey(next[j].id)
    {
      if j == n {
        assert HashKey(next[i].id).value in seen;
      } else {
        assert next[i] == cards[i] && next[j] == cards[j];
      }
    }
    forall q | q in seen + {k}
      ensures exists i :: 0 <= i < |next| && HashKey(next[i].id) == Some(q)
    {
      if q == k {
        assert HashKey(next[n].id) == Some(q);
      } else {
        var i :| 0 <= i < |cards| && HashKey(cards[i].id) == Some(q);
        assert next[i] == cards[i];
      }
    }
  }

  /** The filter's invariant holds after every prediction; there are never
      more cards than predictions. */
  lemma {:induction false} RunWellFiltered(preds: seq<Prediction>, minScore: real, fallback: map<string, Json>,
                                           cat: Catalogue)
    ensures var r := Run(preds, minScore, fallback, cat);
            r.Filtering? ==> WellFiltered(r.cards, r.seen, minScore) && |r.cards| <= |preds|
    decreases |preds|
  {
    if preds != [] {
      var n := |preds| - 1;
      RunWellFiltered(preds[..n], minScore, fallback, cat);
      var before := Run(preds[..n], minScore, fallback, cat);
      assert FilterInv(before, minScore, n);
      StepWellFiltered(before, preds[n], minScore, fallback, cat, n);
      assert FilterInv(Run(preds, minScore, fallback, cat), minScore, |preds|);
    }
  }

  // ---------------------------------------------------------------------
  // Ordering by score (Python's stable sort, highest score first)
  // ---------------------------------------------------------------------

  /** Place a card before the first card that does not outscore it. */
  function InsertByScore(c: ActorCard, cards: seq<ActorCard>): (r: seq<ActorCard>)
    ensures |r| == |cards| + 1
    ensures multiset(r) == multiset(cards) + multiset{c}
  {
    if cards == [] || cards[0].score <= c.score then [c] + cards
    else
      HeadTail(cards);
      [cards[0]] + InsertByScore(c, cards[1..])
  }

  function SortByScore(cards: seq<ActorCard>): (r: seq<ActorCard>)
    ensures multiset(r) == multiset(cards)
  {
    if cards == [] then []
    else
      HeadTail(cards);
      InsertByScore(cards[0], SortByScore(cards[1..]))
  }

  predicate Descending(cards: seq<ActorCard>)
  {
    forall i, j :: 0 <= i < j < |cards| ==> cards[i].score >= cards[j].score
  }

  lemma {:induction false} InsertKeepsDescending(c: ActorCard, cards: seq<ActorCard>)
    requires Descending(cards)
    ensures Descending(InsertByScore(c, cards))
    ensures InsertByScore(c, cards)[0] == c || InsertByScore(c, cards)[0] == cards[0]
    decreases |cards|
  {
    if cards != [] && cards[0].score > c.score {
      InsertKeepsDescending(c, cards[1..]);
      var tail := InsertByScore(c, cards[1..]);
      var r := InsertByScore(c, cards);
      assert r == [cards[0]] + tail;
      assert cards[0].score >= tail[0].score by {
        if tail[0] != c {
          assert tail[0] == cards[1];
        }
      }
      forall i, j | 0 <= i < j < |r|
        ensures r[i].score >= r[j].score
      {
        assert r[j] == tail[j - 1];
        if i > 0 {
          assert r[i] == tail[i - 1];
        } else if j > 1 {
          assert tail[0].score >= tail[j - 1].score;
        }
      }
    }
  }

  /** The result is in descending score. */
  lemma {:induction false} SortDescending(cards: seq<ActorCard>)
    ensures Descending(SortByScore(cards))
    decreases |cards|
  {
    if cards != [] {
      SortDescending(cards[1..]);
      InsertKeepsDescending(cards[0], SortByScore(cards[1..]));
    }
  }

  /** The cards with one given score, in order. */
  function WithScore(cards: seq<ActorCard>, s: real): (r: seq<ActorCard>)
    ensures |r| <= |cards|
    ensures forall i :: 0 <= i < |r| ==> r[i].score == s
  {
    if cards == [] then []
    else (if cards[0].score == s then [cards[0]] else []) + WithScore(cards[1..], s)
  }

  lemma {:induction false} InsertStable(c: ActorCard, cards: seq<ActorCard>, s: real)
    ensures WithScore(InsertByScore(c, cards), s) == (if c.score == s then [c] else []) + WithScore(cards, s)
    decreases |cards|
  {
    if cards == [] || cards[0].score <= c.score {
      WithScoreCons(c, cards, s);
    } else {
      var tail := InsertByScore(c, cards[1..]);
      InsertStable(c, cards[1..], s);
      WithScoreCons(cards[0], tail, s);
      WithScoreCons(cards[0], cards[1..], s);
      HeadTail(cards);
    }
  }

  lemma WithScoreCons(x: ActorCard, rest: seq<ActorCard>, s: real)
    ensures WithScore([x] + rest, s) == (if x.score == s then [x] else []) + WithScore(rest, s)
  {
    assert ([x] + rest)[1..] == rest;
  }

  /** Stability: the cards sharing any one score keep their relative
      order. */
  lemma {:induction false} SortStable(cards: seq<ActorCard>, s: real)
    ensures WithScore(SortByScore(cards), s) == WithScore(cards, s)
    decreases |cards|
  {
    if cards != [] {
      SortStable(cards[1..], s);
      InsertStable(cards[0], SortByScore(cards[1..]), s);
    }
  }

  // ---------------------------------------------------------------------
  // The endpoint
  // ---------------------------------------------------------------------

  /** maxResults when positive, else topK; a limit that is not positive
      keeps every card. */
  function Limit(req: Request): int
  {
    if req.maxResults > 0 then req.maxResults else req.topK
  }

  function Truncate(cards: seq<ActorCard>, limit: int): (r: seq<ActorCard>)
    ensures limit > 0 ==> |r| == if |cards| < limit then |cards| else limit
    ensures limit <= 0 ==> r == cards
    ensures r == cards[..|r|]
  {
    if limit > 0 && limit < |cards| then cards[..limit] else cards
  }

  function RecognizeOf(req: Request, inference: Inference, labels: map<int, LabelEntry>,
                       fallback: map<string, Json>, cat: Catalogue): Response
  {
    if !IsImageType(req.contentType) then BadRequest("Invalid image content type")
    else if !req.readable then BadRequest("Cannot read image")
    else Answer(req, TopKOf(inference, labels, req.topK), |labels|, fallback, cat)
  }

  /** The response once the predictions are known. */
  function Answer(req: Request, preds: seq<Prediction>, labelsCount: nat, fallback: map<string, Json>,
                  cat: Catalogue): Response
  {
    match Run(preds, req.minScore, fallback, cat)
    case Crashed => ServerError
    case Filtering(cards, _) =>
      Ok(Truncate(SortByScore(cards), Limit(req)),
         if req.debug != 0 then Some(Debug(labelsCount, preds)) else None)
  }

  /** The handler, reading the loaded label tables. */
  method Recognize(store: LabelStore, req: Request, inference: Inference, cat: Catalogue) returns (resp: Response)
    ensures resp == RecognizeOf(req, inference, store.labels, store.fallback, cat)
  {
    if req.contentType.None? || !StartsWith(req.contentType.value, "image/") {
      return BadRequest("Invalid image content type");
    }
    if !req.readable {
      return BadRequest("Cannot read image");
    }
    var preds := PredictTopK(inference, store.labels, req.topK);
    var filtered := FilterPredictions(preds, req.minScore, store.fallback, cat);
    if filtered.Crashed? {
      return ServerError;
    }
    var ordered := SortByScore(filtered.cards);
    var limit := if req.maxResults > 0 then req.maxResults else req.topK;
    if limit > 0 && limit < |ordered| {
      ordered := ordered[..limit];
    }
    var debugInfo := if req.debug != 0 then Some(Debug(|store.labels|, preds)) else None;
    return Ok(ordered, debugInfo);
  }

  /** The upload is refused with 400 exactly when its content type is not
      an image type or it cannot be read, with the detail saying which. */
  lemma BadRequestIff(req: Request, inference: Inference, labels: map<int, LabelEntry>,
                      fallback: map<string, Json>, cat: Catalogue)
    ensures var r := RecognizeOf(req, inference, labels, fallback, cat);
            (r.BadRequest? <==> !IsImageType(req.contentType) || !req.readable)
            && (r.BadRequest? && IsImageType(req.contentType) ==> r.detail == "Cannot read image")
            && (!IsImageType(req.contentType) ==> r == BadRequest("Invalid image content type"))
  {
  }

  /** The answer: highest score first with ties in filter order, every
      score at or above the threshold, no actor id twice, drawn from the
      filtered cards, and debug data exactly when asked for. */
  lemma RecognizeContent(req: Request, inference: Inference, labels: map<int, LabelEntry>,
                         fallback: map<string, Json>, cat: Catalogue)
    requires RecognizeOf(req, inference, labels, fallback, cat).Ok?
    ensures var r := RecognizeOf(req, inference, labels, fallback, cat);
            var cards := Run(TopKOf(inference, labels, req.topK), req.minScore, fallback, cat).cards;
            Descending(r.content)
            && (forall i :: 0 <= i < |r.content| ==> r.content[i].score >= req.minScore)
            && (forall i, j :: 0 <= i < j < |r.content| ==> HashKey(r.content[i].id) != HashKey(r.content[j].id))
            && multiset(r.content) <= multiset(cards)
            && (r.debug.Some? <==> req.debug != 0)
  {
    AnswerContent(req, TopKOf(inference, labels, req.topK), |labels|, fallback, cat);
  }

  /** The answer is the top of the sorted filtered cards: the first `limit`
      of them when the limit is positive and there are more, all of them
      otherwise. */
  lemma RecognizeTop(req: Request, inference: Inference, labels: map<int, LabelEntry>,
                     fallback: map<string, Json>, cat: Catalogue)
    requires RecognizeOf(req, inference, labels, fallback, cat).Ok?
    ensures var r := RecognizeOf(req, inference, labels, fallback, cat);
            var cards := Run(TopKOf(inference, labels, req.topK), req.minScore, fallback, cat).cards;
            (Limit(req) > 0 ==> |r.content| == if |cards| < Limit(req) then |cards| else Limit(req))
            && (Limit(req) <= 0 ==> |r.content| == |cards|)
            && r.content == SortByScore(cards)[..|r.content|]
  {
    AnswerTop(req, TopKOf(inference, labels, req.topK), |labels|, fallback, cat);
  }

  /** A successful answer shows the sorted, cut cards of a filter that did
      not raise. */
  lemma AnswerIsShown(req: Request, preds: seq<Prediction>, labelsCount: nat, fallback: map<string, Json>,
                      cat: Catalogue)
    requires Answer(req, preds, labelsCount, fallback, cat).Ok?
    ensures Run(preds, req.minScore, fallback, cat).Filtering?
    ensures var r := Answer(req, preds, labelsCount, fallback, cat);
            var run := Run(preds, req.minScore, fallback, cat);
            r.content == Truncate(SortByScore(run.cards), Limit(req))
            && WellFiltered(run.cards, run.seen, req.minScore)
            && (r.debug.Some? <==> req.debug != 0)
  {
    RunWellFiltered(preds, req.minScore, fallback, cat);
  }

  lemma AnswerContent(req: Request, preds: seq<Prediction>, labelsCount: nat, fallback: map<string, Json>,
                      cat: Catalogue)
    requires Answer(req, preds, labelsCount, fallback, cat).Ok?
    ensures var r := Answer(req, preds, labelsCount, fallback, cat);
            var cards := Run(preds, req.minScore, fallback, cat).cards;
            Descending(r.content)
            && (forall i :: 0 <= i < |r.content| ==> r.content[i].score >= req.minScore)
            && (forall i, j :: 0 <= i < j < |r.content| ==> HashKey(r.content[i].id) != HashKey(r.content[j].id))
            && multiset(r.content) <= multiset(cards)
            && (r.debug.Some? <==> req.debug != 0)
  {
    AnswerIsShown(req, preds, labelsCount, fallback, cat);
    var run := Run(preds, req.minScore, fallback, cat);
    ShownCards(run.cards, run.seen, req.minScore, Limit(req));
  }

  lemma AnswerTop(req: Request, preds: seq<Prediction>, labelsCount: nat, fallback: map<string, Json>,
                  cat: Catalogue)
    requires Answer(req, preds, labelsCount, fallback, cat).Ok?
    ensures var r := Answer(req, preds, labelsCount, fallback, cat);
            var cards := Run(preds, req.minScore, fallback, cat).cards;
            (Limit(req) > 0 ==> |r.content| == if |cards| < Limit(req) then |cards| else Limit(req))
            && (Limit(req) <= 0 ==> |r.content| == |cards|)
            && r.content == SortByScore(cards)[..|r.content|]
  {
    AnswerIsShown(req, preds, labelsCount, fallback, cat);
    TopOfSorted(Run(preds, req.minScore, fallback, cat).cards, Limit(req));
  }

  /** Cutting the sorted cards at a limit keeps a prefix of the sorted
      list, min(limit, n) long for a positive limit and all n otherwise. */
  lemma TopOfSorted(cards: seq<ActorCard>, limit: int)
    ensures var content := Truncate(SortByScore(cards), limit);
            (limit > 0 ==> |content| == if |cards| < limit then |cards| else limit)
            && (limit <= 0 ==> |content| == |cards|)
            && content == SortByScore(cards)[..|content|]
  {
    var sorted := SortByScore(cards);
    assert |multiset(sorted)| == |multiset(cards)|;
  }

  /** The shown cards of a filtered list: sorted, cut, and still carrying
      the filter's guarantees. */
  lemma ShownCards(cards: seq<ActorCard>, seen: set<Key>, minScore: real, limit: int)
    requires WellFiltered(cards, seen, minScore)
    ensures var content := Truncate(SortByScore(cards), limit);
            Descending(content)
            && (forall i :: 0 <= i < |content| ==> content[i].score >= minScore)
            && (forall i, j :: 0 <= i < j < |content| ==> HashKey(content[i].id) != HashKey(content[j].id))
            && multiset(content) <= multiset(cards)
  {
    var sorted := SortByScore(cards);
    SortDescending(cards);
    SortedFilterFacts(cards, seen, minScore);
    var content := Truncate(sorted, limit);
    PrefixMultiset(sorted, |content|);
  }

  /** The sorted cards keep the filter's score bound and distinct ids. */
  lemma SortedFilterFacts(cards: seq<ActorCard>, seen: set<Key>, minScore: real)
    requires WellFiltered(cards, seen, minScore)
    ensures var sorted := SortByScore(cards);
            (forall i :: 0 <= i < |sorted| ==> sorted[i].score >= minScore)
            && (forall i, j :: 0 <= i < j < |sorted| ==> HashKey(sorted[i].id) != HashKey(sorted[j].id))
  {
    var sorted := SortByScore(cards);
    forall i | 0 <= i < |sorted|
      ensures sorted[i].score >= minScore
    {
      assert sorted[i] in multiset(cards);
    }
    forall i, j | 0 <= i < j < |sorted|
      ensures HashKey(sorted[i].id) != HashKey(sorted[j].id)
    {
      DistinctKeysSurviveSort(cards, i, j);
    }
  }

  lemma PrefixMultiset<T>(s: seq<T>, n: int)
    requires 0 <= n <= |s|
    ensures multiset(s[..n]) <= multiset(s)
  {
    assert s == s[..n] + s[n..];
  }

  /** Sorting keeps the cards' ids pairwise distinct. */
  lemma DistinctKeysSurviveSort(cards: seq<ActorCard>, i: int, j: int)
    requires forall a, b :: 0 <= a < b < |cards| ==> HashKey(cards[a].id) != HashKey(cards[b].id)
    requires 0 <= i < j < |SortByScore(cards)|
    ensures HashKey(SortByScore(cards)[i].id) != HashKey(SortByScore(cards)[j].id)
  {
    var sorted := SortByScore(cards);
    if HashKey(sorted[i].id) == HashKey(sorted[j].id) {
      assert sorted[i] in multiset(cards) && sorted[j] in multiset(cards);
      var a :| 0 <= a < |cards| && cards[a] == sorted[i];
      var b :| 0 <= b < |cards| && cards[b] == sorted[j];
      if a == b {
        // Two places in the sorted list hold one card: it would occur twice
        // in the sorted multiset but once in the input.
        TwiceInMultiset(sorted, i, j);
        OnceInDistinct(cards, a);
        assert false;
      } else if a < b {
        assert false;
      } else {
        assert false;
      }
    }
  }

  /** An element at two places of a list occurs twice in its multiset. */
  lemma TwiceInMultiset<T>(s: seq<T>, i: int, j: int)
    requires 0 <= i < j < |s| && s[i] == s[j]
    ensures multiset(s)[s[i]] >= 2
  {
    assert s == s[..j] + s[j..];
    assert s[i] in multiset(s[..j]);
    assert s[j] in multiset(s[j..]);
  }

  /** A card of a list with pairwise distinct ids occurs in it once. */
  lemma {:induction false} OnceInDistinct(cards: seq<ActorCard>, a: int)
    requires forall x, y :: 0 <= x < y < |cards| ==> HashKey(cards[x].id) != HashKey(cards[y].id)
    requires 0 <= a < |cards|
    ensures multiset(cards)[cards[a]] == 1
    decreases |cards|
  {
    var n := |cards| - 1;
    assert cards == cards[..n] + [cards[n]];
    if a == n {
      assert cards[n] !in multiset(cards[..n]);
    } else {
      OnceInDistinct(cards[..n], a);
      assert cards[..n][a] == cards[a];
      assert cards[n] != cards[a] by {
        assert HashKey(cards[a].id) != HashKey(cards[n].id);
      }
    }
  }
}
