/** The simpler detector of the ingredient app: per frame it keeps the confident, non-background
    predictions to decide whether to log "No food detected", sorts a copy of all predictions by
    descending probability, clears the label container and shows one row per confident
    prediction of the sorted copy. */
module TeachableDetector {
  import opened Wrappers
  import opened Seqs
  import opened Text
  import opened Ranking

  /** The class name, lower-cased, that the food filter excludes. */
  const BACKGROUND := "background"

  /** A prediction that counts as food: confident and not the background class, in any case. */
  predicate IsFood(p: Prediction) {
    Confident(p) && Lower(p.className) != BACKGROUND
  }

  /** `filtered`: the food predictions of the frame, in input order. */
  function Filtered(prediction: seq<Prediction>): (r: seq<Prediction>)
    ensures forall p :: p in r <==> p in prediction && IsFood(p)
  {
    Filter(prediction, IsFood)
  }

  /** The rows displayed: the confident entries of the sorted copy, in its order. */
  function Rows(prediction: seq<Prediction>): (r: seq<Prediction>)
    ensures forall p :: p in r <==> p in prediction && Confident(p)
    ensures |r| <= |prediction| && r == SortByProbability(prediction)[..|r|]
  {
    var sorted := SortByProbability(prediction);
    ConfidentPrefix(sorted);
    forall p ensures p in sorted <==> p in prediction {
      assert p in sorted <==> p in multiset(sorted);
    }
    Filter(sorted, Confident)
  }

  /** What one frame produces: whether the "No food detected" line is logged, and the rows
      the cleared label container then shows. */
  datatype Display = Display(noFoodLogged: bool, rows: seq<Prediction>)

  /** One call of `predict`; `None` when there is no label container, so nothing is logged
      and nothing is redrawn. */
  function Predict(prediction: seq<Prediction>, mounted: bool): (f: Option<Display>)
    ensures f.None? <==> !mounted
    ensures f.Some? ==>
      && (f.value.noFoodLogged <==> forall i :: 0 <= i < |prediction| ==> !IsFood(prediction[i]))
      && f.value.rows == Rows(prediction)
  {
    if !mounted then None
    else
      FilterEmptyIff(prediction, IsFood);
      Some(Display(|Filtered(prediction)| == 0, Rows(prediction)))
  }

  /** `filtered` keeps input order: a later prediction is appended after the earlier ones
      exactly when it is food. */
  lemma FilteredInInputOrder(prediction: seq<Prediction>, p: Prediction)
    ensures Filtered(prediction + [p]) == Filtered(prediction) + (if IsFood(p) then [p] else [])
  {
    FilterAppend(prediction, [p], IsFood);
    assert Filter([p], IsFood) == (if IsFood(p) then [p] else []) by {
      assert [p][1..] == [];
    }
  }

  /** A suffix of a list sorted by descending probability is sorted. */
  lemma SortedTail(s: seq<Prediction>)
    requires s != [] && SortedByProbability(s)
    ensures SortedByProbability(s[1..])
  {
    var tail := s[1..];
    forall i, j | 0 <= i < j < |tail| ensures tail[i].probability >= tail[j].probability {
      assert tail[i] == s[i + 1] && tail[j] == s[j + 1];
    }
  }

  /** Below the threshold at the head of a sorted list, nothing after it is confident. */
  lemma NoneConfidentAfter(s: seq<Prediction>)
    requires s != [] && SortedByProbability(s) && !Confident(s[0])
    ensures Filter(s, Confident) == []
  {
    forall i | 0 <= i < |s| ensures !Confident(s[i]) { }
    FilterEmptyIff(s, Confident);
  }

  /** In a list sorted by descending probability the confident entries form a prefix. */
  lemma {:induction false} ConfidentPrefix(s: seq<Prediction>)
    requires SortedByProbability(s)
    ensures Filter(s, Confident) == s[..|Filter(s, Confident)|]
  {
    if s != [] {
      if Confident(s[0]) {
        var tail := s[1..];
        SortedTail(s);
        ConfidentPrefix(tail);
        var k := |Filter(tail, Confident)|;
        assert Filter(s, Confident) == [s[0]] + tail[..k];
        assert s[..k + 1] == [s[0]] + tail[..k];
      } else {
        NoneConfidentAfter(s);
      }
    }
  }

  /** The displayed rows are exactly the confident predictions: a permutation of the confident
      inputs, in descending probability, and the head of the sorted copy. "Background" is not
      excluded here. */
  lemma RowsAreConfidentSorted(prediction: seq<Prediction>)
    ensures var rows, sorted := Rows(prediction), SortByProbability(prediction);
      && multiset(rows) == multiset(Filter(prediction, Confident))
      && SortedByProbability(rows)
      && rows == sorted[..|rows|]
  {
    var sorted := SortByProbability(prediction);
    var rows := Filter(sorted, Confident);
    var kept := Filter(prediction, Confident);
    ConfidentPrefix(sorted);
    assert multiset(sorted) == multiset(prediction);
    forall p ensures multiset(rows)[p] == multiset(kept)[p] {
      FilterCounts(sorted, Confident, p);
      FilterCounts(prediction, Confident, p);
    }
    assert multiset(rows) == multiset(kept);
    assert rows == sorted[..|rows|];
    forall i, j | 0 <= i < j < |rows| ensures rows[i].probability >= rows[j].probability {
      assert rows[i] == sorted[i] && rows[j] == sorted[j];
    }
  }

  /** A confident "Background" is still shown as a row while the frame logs that no food
      was detected. */
  lemma BackgroundStillDisplayed()
    ensures var bg, apple := Prediction("Background", 0.95), Prediction("Apple", 0.2);
      Predict([bg, apple], true) == Some(Display(true, [bg]))
  {
    var bg, apple := Prediction("Background", 0.95), Prediction("Apple", 0.2);
    assert Lower("Background") == BACKGROUND;
    assert SortByProbability([apple]) == [apple];
    assert SortByProbability([bg, apple]) == [bg, apple];
    assert Filter([bg, apple], Confident) == [bg] by {
      assert [bg, apple][1..] == [apple];
      assert [apple][1..] == [];
    }
  }
}
