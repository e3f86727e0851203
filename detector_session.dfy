/** The PlateMate detection step: per frame, pick the top prediction, reject it below the
    confidence threshold, debounce a repeat of the last accepted label, look the label up in
    the recipe table, apply the minimum-interval gate and fan out one product query per
    ingredient. The two persistent refs (`lastPrediction`, `lastAPICall`) and the label
    container's ingredient cards are the fields of `Session`. */
module PlateMateDetector {
  import opened Wrappers
  import opened Seqs
  import opened Text
  import opened Ranking
  import opened FoodData
  import opened ProductDisplay

  /** The gate's minimum interval in milliseconds (`now - lastAPICall.current > 0`). */
  const RATE_LIMIT_WINDOW: int := 0

  /** The two refs that persist between frames. */
  datatype Refs = Refs(lastPrediction: Option<string>, lastAPICall: int)

  /** The initial refs: `useRef<string | null>(null)` and `useRef<number>(0)`. */
  const INITIAL_REFS := Refs(None, 0)

  /** What one frame's step decided. `food` is the trimmed class name of the top prediction. */
  datatype Decision =
    | Unmounted                                  // no label container: return at once
    | NoCandidate                                // the classifier returned nothing
    | BelowThreshold(top: Prediction)
    | Repeat(food: string)                       // same label as the last accepted one
    | UnknownFood(food: string)                  // accepted, not in the table
    | GateClosed(food: string, recipe: Recipe)   // accepted, known, interval too short
    | FanOut(food: string, recipe: Recipe)       // accepted, known, queries issued
  {
    /** The label was accepted: `lastPrediction` changes and the container is redrawn. */
    predicate Accepted() {
      UnknownFood? || GateClosed? || FanOut?
    }
  }

  /** The query bodies of a fan-out: every ingredient key, trimmed, in key order. */
  function QueryBodies(recipe: Recipe): (q: seq<string>)
    ensures |q| == |recipe.ingredients|
  {
    seq(|recipe.ingredients|, i requires 0 <= i < |recipe.ingredients| => Strip(recipe.ingredients[i].name))
  }

  /** The branch structure of `predict` (lines 98-296) as a decision on the refs before the frame. */
  function Decide(refs: Refs, candidates: seq<Prediction>, now: int, mounted: bool): (d: Decision)
    ensures d.Accepted() || d.Repeat? ==>
      mounted && candidates != [] && Confident(Top(candidates)) && d.food == Strip(Top(candidates).className)
    ensures mounted && candidates != [] && Confident(Top(candidates)) ==> d.Accepted() || d.Repeat?
    ensures !mounted <==> d.Unmounted?
    ensures d.FanOut? ==> now - refs.lastAPICall > RATE_LIMIT_WINDOW
  {
    if !mounted then Unmounted
    else if candidates == [] then NoCandidate
    else DecideOnTop(refs, Top(candidates), now)
  }

  /** The threshold test on the top prediction. */
  function DecideOnTop(refs: Refs, top: Prediction, now: int): (d: Decision)
    ensures d.Accepted() || d.Repeat? <==> Confident(top)
    ensures d.Accepted() || d.Repeat? ==> d.food == Strip(top.className)
    ensures d.FanOut? ==> now - refs.lastAPICall > RATE_LIMIT_WINDOW
  {
    if top.probability < CONFIDENCE_THRESHOLD then BelowThreshold(top)
    else Resolve(refs, Strip(top.className), now)
  }

  /** The debounce, the recipe lookup and the interval gate for a confident label `food`. */
  function Resolve(refs: Refs, food: string, now: int): (d: Decision)
    ensures d.Accepted() || d.Repeat?
    ensures d.food == food
    ensures d.FanOut? <==>
      refs.lastPrediction != Some(food) && Lookup(food).Some? && now - refs.lastAPICall > RATE_LIMIT_WINDOW
    ensures d.FanOut? || d.GateClosed? ==> Lookup(food) == Some(d.recipe)
  {
    if refs.lastPrediction == Some(food) then Repeat(food)
    else
      match Lookup(food)
      case None => UnknownFood(food)
      case Some(recipe) =>
        if now - refs.lastAPICall > RATE_LIMIT_WINDOW then FanOut(food, recipe)
        else GateClosed(food, recipe)
  }

  /** The refs after a frame with decision `d`: an accepted label is recorded (line 112) and
      a fan-out stamps `now` (line 143); every other decision leaves both refs alone. */
  function Advance(refs: Refs, d: Decision, now: int): (r: Refs)
    ensures r.lastPrediction == if d.Accepted() then Some(d.food) else refs.lastPrediction
    ensures r.lastAPICall == if d.FanOut? then now else refs.lastAPICall
  {
    match d
    case UnknownFood(food) => Refs(Some(food), refs.lastAPICall)
    case GateClosed(food, _) => Refs(Some(food), refs.lastAPICall)
    case FanOut(food, _) => Refs(Some(food), now)
    case _ => refs
  }

  // ---------------------------------------------------------------- properties of one step

  /** An accepted or repeated label is that of the first prediction of maximal probability
      (see `FirstMaximum`), and that probability is at least the threshold. */
  lemma AcceptedIsFirstMaximum(refs: Refs, candidates: seq<Prediction>, now: int, mounted: bool)
    requires var d := Decide(refs, candidates, now, mounted); d.Accepted() || d.Repeat?
    ensures candidates != []
    ensures var top := candidates[FirstMaximum(candidates)];
      Decide(refs, candidates, now, mounted).food == Strip(top.className) && Confident(top)
  {
    TopIsFirstMaximum(candidates);
  }

  /** A frame without a label container, with no prediction, or whose top probability is
      below 0.7, changes nothing. */
  lemma RejectedFrameChangesNothing(refs: Refs, candidates: seq<Prediction>, now: int, mounted: bool)
    requires !mounted || candidates == [] || Top(candidates).probability < CONFIDENCE_THRESHOLD
    ensures var d := Decide(refs, candidates, now, mounted);
      !d.Accepted() && !d.Repeat? && Advance(refs, d, now) == refs
  {
  }

  /** A top probability of exactly 0.7 is accepted; any lower one is rejected. */
  lemma ThresholdIsInclusive(refs: Refs, food: string, p: real, now: int)
    ensures var d := Decide(refs, [Prediction(food, p)], now, true);
      (d.BelowThreshold? <==> p < 0.7)
  {
    assert Top([Prediction(food, p)]) == Prediction(food, p);
  }

  /** A confident label that differs from the last accepted one is accepted and becomes
      `lastPrediction`, whether or not the table knows it; a repeat changes nothing. */
  lemma ResolveRecordsLabel(refs: Refs, food: string, now: int)
    ensures var d := Resolve(refs, food, now); var after := Advance(refs, d, now);
      && (d.Repeat? <==> refs.lastPrediction == Some(food))
      && (d.Accepted() ==> after.lastPrediction == Some(food))
      && (d.Repeat? ==> after == refs)
  {
  }

  /** A new, known label fans out exactly when more than the window has passed since the last
      fan-out, and is gated otherwise; only a fan-out moves `lastAPICall`, to `now`. */
  lemma ResolveGatesFanOut(refs: Refs, food: string, now: int)
    ensures var d := Resolve(refs, food, now); var after := Advance(refs, d, now);
      && (after.lastAPICall != refs.lastAPICall ==> d.FanOut? && after.lastAPICall == now)
      && (d.FanOut? ==> now - refs.lastAPICall > RATE_LIMIT_WINDOW && Lookup(food) == Some(d.recipe))
      && (d.UnknownFood? <==> refs.lastPrediction != Some(food) && Lookup(food).None?)
      && (d.FanOut? <==>
            refs.lastPrediction != Some(food) && Lookup(food).Some? && now - refs.lastAPICall > RATE_LIMIT_WINDOW)
      && (d.GateClosed? <==>
            refs.lastPrediction != Some(food) && Lookup(food).Some? && now - refs.lastAPICall <= RATE_LIMIT_WINDOW)
  {
  }

  /** The spaghetti recipe fans out to Sausage, Spaghetti and Tomato, in that order. */
  lemma SpaghettiQueryBodies()
    ensures QueryBodies(SPAGHETTI_AND_MEATBALLS) == ["Sausage", "Spaghetti", "Tomato"]
  {
    StripPlain("Sausage");
    StripPlain("Spaghetti");
    StripPlain("Tomato");
  }

  /** A detection of "Spaghetti and Meatballs" at 0.82 with no earlier label fans out to
      Sausage, Spaghetti and Tomato. */
  lemma SpaghettiScenario(now: int)
    requires now > 0
    ensures var d := Decide(INITIAL_REFS, [Prediction("Spaghetti and Meatballs", 0.82)], now, true);
      d == FanOut("Spaghetti and Meatballs", SPAGHETTI_AND_MEATBALLS)
      && QueryBodies(d.recipe) == ["Sausage", "Spaghetti", "Tomato"]
  {
    var food := "Spaghetti and Meatballs";
    assert Top([Prediction(food, 0.82)]) == Prediction(food, 0.82);
    StripPlain(food);
    LookupSpaghettiAndMeatballs();
    SpaghettiQueryBodies();
  }

  /** Once it is the last accepted label, a further "Spaghetti and Meatballs" frame is a repeat. */
  lemma SpaghettiRepeats(refs: Refs, now: int)
    requires refs.lastPrediction == Some("Spaghetti and Meatballs")
    ensures Decide(refs, [Prediction("Spaghetti and Meatballs", 0.82)], now, true) == Repeat("Spaghetti and Meatballs")
  {
    StripPlain("Spaghetti and Meatballs");
    assert Top([Prediction("Spaghetti and Meatballs", 0.82)]) == Prediction("Spaghetti and Meatballs", 0.82);
  }

  /** A confident "Pizza" that was not the last label is accepted but is not in the table. */
  lemma PizzaIsUnknown(refs: Refs, now: int)
    requires refs.lastPrediction != Some("Pizza")
    ensures Decide(refs, [Prediction("Pizza", 0.9)], now, true) == UnknownFood("Pizza")
  {
    LookupPizzaMisses();
    StripPlain("Pizza");
    assert Top([Prediction("Pizza", 0.9)]) == Prediction("Pizza", 0.9);
  }

  // ---------------------------------------------------------------- properties of a run of frames

  /** One frame of a run: the classifier's output, the clock, and whether the label container
      is present. */
  datatype Frame = Frame(candidates: seq<Prediction>, now: int, mounted: bool)

  /** The instants at which a run of frames fans out, starting from `refs`. */
  function FanOutTimes(refs: Refs, frames: seq<Frame>): seq<int>
    decreases |frames|
  {
    if frames == [] then []
    else
      var d := Decide(refs, frames[0].candidates, frames[0].now, frames[0].mounted);
      var rest := FanOutTimes(Advance(refs, d, frames[0].now), frames[1..]);
      if d.FanOut? then [frames[0].now] + rest else rest
  }

  /** Every frame either is rejected or has `food` as its trimmed top label. */
  predicate OnlyFood(frames: seq<Frame>, food: string) {
    forall i :: 0 <= i < |frames| ==>
      var cs := frames[i].candidates;
      !frames[i].mounted || cs == [] || Top(cs).probability < CONFIDENCE_THRESHOLD || Strip(Top(cs).className) == food
  }

  /** Debounce: however many frames keep showing the same label, it fans out at most once,
      and not at all if it is already the last accepted label. */
  lemma {:induction false} RepeatedLabelFansOutAtMostOnce(refs: Refs, frames: seq<Frame>, food: string)
    requires OnlyFood(frames, food)
    decreases |frames|
    ensures |FanOutTimes(refs, frames)| <= 1
    ensures refs.lastPrediction == Some(food) ==> FanOutTimes(refs, frames) == []
  {
    if frames != [] {
      var f := frames[0];
      var d := Decide(refs, f.candidates, f.now, f.mounted);
      var next := Advance(refs, d, f.now);
      assert OnlyFood(frames[1..], food) by {
        forall i | 0 <= i < |frames| - 1 ensures frames[1..][i] == frames[i + 1] { }
      }
      assert d.Accepted() ==> d.food == food;
      assert d.Accepted() || next == refs;
      RepeatedLabelFansOutAtMostOnce(next, frames[1..], food);
    }
  }

  /** Strictly increasing and all above `lo`. */
  predicate IncreasingAbove(t: seq<int>, lo: int) {
    && (forall i :: 0 <= i < |t| ==> t[i] > lo)
    && (forall i, j :: 0 <= i < j < |t| ==> t[i] < t[j])
  }

  /** One frame's contribution keeps the fan-out instants increasing. */
  lemma PrependFanOut(refs: Refs, d: Decision, now: int, rest: seq<int>)
    requires d.FanOut? ==> now - refs.lastAPICall > RATE_LIMIT_WINDOW
    requires IncreasingAbove(rest, Advance(refs, d, now).lastAPICall + RATE_LIMIT_WINDOW)
    ensures IncreasingAbove(if d.FanOut? then [now] + rest else rest, refs.lastAPICall + RATE_LIMIT_WINDOW)
  {
    if d.FanOut? {
      var t := [now] + rest;
      forall i | 0 <= i < |t| ensures t[i] > refs.lastAPICall + RATE_LIMIT_WINDOW {
        if i > 0 { assert t[i] == rest[i - 1]; }
      }
      forall i, j | 0 <= i < j < |t| ensures t[i] < t[j] {
        assert t[j] == rest[j - 1];
        if i > 0 { assert t[i] == rest[i - 1]; }
      }
    }
  }

  /** The gate makes fan-out instants strictly increasing, each later than the `lastAPICall`
      the run started from, whatever the clock does between frames. */
  lemma {:induction false} FanOutTimesIncrease(refs: Refs, frames: seq<Frame>)
    decreases |frames|
    ensures IncreasingAbove(FanOutTimes(refs, frames), refs.lastAPICall + RATE_LIMIT_WINDOW)
  {
    if frames != [] {
      var f := frames[0];
      var d := Decide(refs, f.candidates, f.now, f.mounted);
      FanOutTimesIncrease(Advance(refs, d, f.now), frames[1..]);
      PrependFanOut(refs, d, f.now, FanOutTimes(Advance(refs, d, f.now), frames[1..]));
    }
  }

  // ---------------------------------------------------------------- the session object

  /** One ingredient card: the trimmed ingredient name and its products panel. */
  datatype Card = Card(ingredient: string, status: Status)

  /** A product query sent by a fan-out: the card it will write to and its `{query: ...}` body. */
  datatype Query = Query(ticket: nat, body: string)

  /** A fan-out of `bodies` from card map `before` and ticket counter `first`: one fresh ticket
      per body, in order, each with a Loading card, and exactly those tickets shown; earlier
      cards are kept as they were. */
  ghost predicate Issued(before: map<nat, Card>, first: nat, bodies: seq<string>,
                         queries: seq<Query>, shown: seq<nat>, cards: map<nat, Card>, next: nat)
  {
    && |queries| == |bodies| && |shown| == |queries|
    && (forall i :: 0 <= i < |queries| ==> queries[i] == Query(first + i, bodies[i]))
    && (forall i :: 0 <= i < |queries| ==> shown[i] == queries[i].ticket)
    && next == first + |queries|
    && (forall t :: t in cards <==> t in before || first <= t < next)
    && (forall t :: t in before ==> cards[t] == before[t])
    && (forall i :: 0 <= i < |queries| ==> cards[queries[i].ticket] == Card(bodies[i], Loading))
  }

  /** The cards of `tickets`, in order. */
  function Attached(tickets: seq<nat>, cards: map<nat, Card>): (p: seq<Card>)
    requires forall i :: 0 <= i < |tickets| ==> tickets[i] in cards
    ensures |p| == |tickets|
    ensures forall i :: 0 <= i < |tickets| ==> p[i] == cards[tickets[i]]
  {
    if tickets == [] then [] else [cards[tickets[0]]] + Attached(tickets[1..], cards)
  }

  /** The state `predict` keeps between frames. Each ingredient card is a DOM node owned by the
      query that created it; `cards` holds every card ever created, keyed by ticket, and `shown`
      lists those still attached to the label container, in order. */
  class Session {
    var lastPrediction: Option<string>
    var lastAPICall: int
    var title: Option<string>     // food name on the main card
    var foodNotFound: bool        // the "Food not found in database" notice is shown
    var shown: seq<nat>
    var cards: map<nat, Card>
    var nextTicket: nat

    ghost predicate Valid()
      reads this
    {
      && (forall t :: t in cards ==> t < nextTicket)
      && (forall i :: 0 <= i < |shown| ==> shown[i] in cards)
    }

    function RefsOf(): Refs
      reads this
    {
      Refs(lastPrediction, lastAPICall)
    }

    /** The ingredient cards the label container displays, in order. */
    function Panel(): (p: seq<Card>)
      requires Valid()
      reads this
      ensures |p| == |shown|
    {
      Attached(shown, cards)
    }

    constructor ()
      ensures Valid()
      ensures RefsOf() == INITIAL_REFS
      ensures title == None && !foodNotFound && shown == [] && cards == map[] && nextTicket == 0
    {
      lastPrediction := None;
      lastAPICall := 0;
      title := None;
      foodNotFound := false;
      shown := [];
      cards := map[];
      nextTicket := 0;
    }

    /** One call of `predict` on the classifier's output for a frame taken at `now`. */
    method Step(candidates: seq<Prediction>, now: int, mounted: bool) returns (d: Decision, queries: seq<Query>)
      requires Valid()
      modifies this
      ensures Valid()
      ensures d == Decide(old(RefsOf()), candidates, now, mounted)
      ensures RefsOf() == Advance(old(RefsOf()), d, now)
      ensures !d.Accepted() ==> unchanged(this) && queries == []
      ensures d.Accepted() ==> title == Some(d.food) && foodNotFound == d.UnknownFood?
      ensures !d.FanOut? ==> queries == [] && cards == old(cards) && nextTicket == old(nextTicket)
      ensures d.UnknownFood? || d.GateClosed? ==> shown == []
      ensures d.FanOut? ==> Issued(old(cards), old(nextTicket), QueryBodies(d.recipe), queries, shown, cards, nextTicket)
    {
      d := Decide(RefsOf(), candidates, now, mounted);
      queries := Apply(d, now);
    }

    /** The updates of an accepted label (lines 113-149): record it, redraw the main card,
        clear the label container and, when the gate is open, fan out. */
    method Apply(d: Decision, now: int) returns (queries: seq<Query>)
      requires Valid()
      modifies this
      ensures Valid()
      ensures RefsOf() == Advance(old(RefsOf()), d, now)
      ensures !d.Accepted() ==> unchanged(this) && queries == []
      ensures d.Accepted() ==> title == Some(d.food) && foodNotFound == d.UnknownFood?
      ensures !d.FanOut? ==> queries == [] && cards == old(cards) && nextTicket == old(nextTicket)
      ensures d.UnknownFood? || d.GateClosed? ==> shown == []
      ensures d.FanOut? ==> Issued(old(cards), old(nextTicket), QueryBodies(d.recipe), queries, shown, cards, nextTicket)
    {
      queries := [];
      if d.Accepted() {
        lastPrediction := Some(d.food);
        title := Some(d.food);
        shown := [];
        foodNotFound := d.UnknownFood?;
        if d.FanOut? {
          lastAPICall := now;
          queries := IssueQueries(QueryBodies(d.recipe));
        }
      }
    }

    /** `ingredients.forEach(...)`: attaches one Loading card per query body and issues its query. */
    method IssueQueries(bodies: seq<string>) returns (queries: seq<Query>)
      requires Valid() && shown == []
      modifies this`cards, this`shown, this`nextTicket
      ensures Valid()
      ensures Issued(old(cards), old(nextTicket), bodies, queries, shown, cards, nextTicket)
    {
      queries := [];
      var i := 0;
      while i < |bodies|
        invariant 0 <= i <= |bodies|
        invariant |queries| == i && |shown| == i
        invariant nextTicket == old(nextTicket) + i
        invariant forall j :: 0 <= j < i ==> queries[j] == Query(old(nextTicket) + j, bodies[j])
        invariant forall j :: 0 <= j < i ==> shown[j] == old(nextTicket) + j
        invariant forall t :: t in cards <==> t in old(cards) || old(nextTicket) <= t < nextTicket
        invariant forall t :: t in old(cards) ==> cards[t] == old(cards)[t]
        invariant forall j :: 0 <= j < i ==> cards[old(nextTicket) + j] == Card(bodies[j], Loading)
      {
        var ticket := nextTicket;
        cards := cards[ticket := Card(bodies[i], Loading)];
        shown := shown + [ticket];
        queries := queries + [Query(ticket, bodies[i])];
        nextTicket := nextTicket + 1;
        i := i + 1;
      }
    }

    /** The `.then` or `.catch` handler of the query that owns card `ticket`. It writes only
      that card, whether or not the card is still attached to the label container. */
    method Complete(ticket: nat, outcome: FetchOutcome)
      requires Valid() && ticket in cards && cards[ticket].status == Loading
      modifies this`cards
      ensures Valid()
      ensures cards == old(cards)[ticket := Card(old(cards)[ticket].ingredient, Settle(outcome))]
      ensures shown == old(shown)
      ensures ticket !in shown ==> Panel() == old(Panel())
      ensures forall i :: 0 <= i < |shown| && shown[i] != ticket ==> Panel()[i] == old(Panel())[i]
    {
      cards := cards[ticket := Card(cards[ticket].ingredient, Settle(outcome))];
    }
  }

  /** A client run: two frames of the same dish a moment apart fan out once. */
  method RunDebounce(now: int)
    requires now > 0
  {
    var s := new Session();
    var frame := [Prediction("Spaghetti and Meatballs", 0.82)];
    SpaghettiScenario(now);
    var d, queries := s.Step(frame, now, true);
    assert d.FanOut? && |queries| == 3;
    assert queries[0].body == "Sausage" && queries[1].body == "Spaghetti" && queries[2].body == "Tomato";
    SpaghettiRepeats(s.RefsOf(), now + 16);
    var d2, queries2 := s.Step(frame, now + 16, true);
    assert d2.Repeat? && queries2 == [];
  }

  /** A client run: the queries of a fan-out settle in any order and a failure stays on its
      own card. */
  method RunCompletions(now: int)
    requires now > 0
  {
    var s := new Session();
    SpaghettiScenario(now);
    var d, queries := s.Step([Prediction("Spaghetti and Meatballs", 0.82)], now, true);
    s.Complete(queries[2].ticket, Delivered(None));
    s.Complete(queries[0].ticket, Rejected("Failed to fetch"));
    assert s.Panel()[0].status == Failed("Failed to fetch");
    assert s.Panel()[1].status == Loading;
    assert s.Panel()[2].status == Loaded([]);
  }

  /** A client run: a later unknown dish detaches the earlier cards, so a late answer for one
      of them no longer shows. */
  method RunDetach(now: int)
    requires now > 0
  {
    var s := new Session();
    SpaghettiScenario(now);
    var d, queries := s.Step([Prediction("Spaghetti and Meatballs", 0.82)], now, true);
    var late := queries[1].ticket;
    PizzaIsUnknown(s.RefsOf(), now + 32);
    var d2, queries2 := s.Step([Prediction("Pizza", 0.9)], now + 32, true);
    assert d2 == UnknownFood("Pizza") && queries2 == [] && s.shown == [];
    s.Complete(late, Delivered(Some([])));
    assert late !in s.shown && s.Panel() == [];
  }
}
