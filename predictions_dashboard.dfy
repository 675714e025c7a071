/**
 * The predictions dashboard (app/components/PredictionsDashboard.tsx): the
 * list it fetches, id by id, from the market, its loading flag, and the split
 * of that list into the active and the closed tab.  The market's per-id
 * lookup is a parameter `details`, where `None` is a lookup that throws.
 */
module PredictionsDashboard {
  import opened Wrappers
  import opened PredictionCard

  // ------------------------------------------------------------ partition

  /** `predictions.filter(p => p.resolved == flag)`. */
  function FilterByResolved(ps: seq<Prediction>, flag: bool): (r: seq<Prediction>)
    ensures |r| <= |ps|
    ensures forall k :: 0 <= k < |r| ==> r[k].resolved == flag
    ensures forall p :: p in r <==> p in ps && p.resolved == flag
  {
    if ps == [] then []
    else (if ps[0].resolved == flag then [ps[0]] else []) + FilterByResolved(ps[1..], flag)
  }

  function ActivePredictions(ps: seq<Prediction>): seq<Prediction> {
    FilterByResolved(ps, false)
  }

  function ClosedPredictions(ps: seq<Prediction>): seq<Prediction> {
    FilterByResolved(ps, true)
  }

  /** Filtering keeps the original order: it distributes over concatenation. */
  lemma {:induction false} FilterAppend(a: seq<Prediction>, b: seq<Prediction>, flag: bool)
    ensures FilterByResolved(a + b, flag) == FilterByResolved(a, flag) + FilterByResolved(b, flag)
  {
    if a == [] {
      assert a + b == b;
    } else {
      assert (a + b)[0] == a[0] && (a + b)[1..] == a[1..] + b;
      FilterAppend(a[1..], b, flag);
    }
  }

  /** Every prediction lands in exactly one tab: the two lists together are a
      rearrangement of the whole list, so their lengths add up. */
  lemma PartitionIsExact(ps: seq<Prediction>)
    ensures multiset(ActivePredictions(ps)) + multiset(ClosedPredictions(ps)) == multiset(ps)
    ensures |ActivePredictions(ps)| + |ClosedPredictions(ps)| == |ps|
  {
    var f, t := ActivePredictions(ps), ClosedPredictions(ps);
    FiltersCover(ps);
    assert |multiset(f) + multiset(t)| == |multiset(f)| + |multiset(t)|;
    assert |multiset(f)| == |f| && |multiset(t)| == |t| && |multiset(ps)| == |ps|;
  }

  lemma {:induction false} FiltersCover(ps: seq<Prediction>)
    ensures multiset(FilterByResolved(ps, false)) + multiset(FilterByResolved(ps, true)) == multiset(ps)
  {
    if ps != [] {
      var x, rest := ps[0], ps[1..];
      FiltersCover(rest);
      assert ps == [x] + rest;
      FilterAppend([x], rest, false);
      FilterAppend([x], rest, true);
      FilterOne(x);
    }
  }

  lemma FilterOne(x: Prediction)
    ensures multiset(FilterByResolved([x], false)) + multiset(FilterByResolved([x], true)) == multiset{x}
  {
    assert [x][1..] == [];
  }

  /** A count in state is usable when it is present and not zero. */
  predicate CountIsTruthy(predictionCount: Option<nat>) {
    predictionCount.Some? && predictionCount.value > 0
  }

  /** Every lookup of the ids `0 .. count - 1` succeeds. */
  predicate AllFound(count: nat, details: nat -> Option<Prediction>) {
    forall i: nat :: i < count ==> details(i).Some?
  }

  // ------------------------------------------------------------- fetching

  /**
   * `Promise.all(Array.from({length: count}, (_, i) => getPredictionDetails(i)))`:
   * every id `0 .. count - 1` is requested in order; the whole fetch fails if
   * any lookup fails, and otherwise the details of id `i` sit at index `i`.
   */
  method FetchAll(count: nat, details: nat -> Option<Prediction>) returns (requested: seq<nat>, results: Option<seq<Prediction>>)
    ensures |requested| == count && forall i :: 0 <= i < count ==> requested[i] == i
    ensures results.Some? <==> AllFound(count, details)
    ensures results.Some? ==> |results.value| == count && forall i :: 0 <= i < count ==> results.value[i] == details(i).value
  {
    requested := [];
    var found: seq<Prediction> := [];
    var failed := false;
    var i := 0;
    while i < count
      invariant 0 <= i <= count
      invariant |requested| == i && forall k :: 0 <= k < i ==> requested[k] == k
      invariant failed <==> exists k: nat :: k < i && details(k).None?
      invariant !failed ==> |found| == i && forall k :: 0 <= k < i ==> found[k] == details(k).value
    {
      requested := requested + [i];
      var d := details(i);
      if d.None? {
        failed := true;
      } else if !failed {
        found := found + [d.value];
      }
      i := i + 1;
    }
    results := if failed then None else Some(found);
  }

  class Dashboard {
    var predictions: seq<Prediction>
    var isLoading: bool

    constructor()
      ensures predictions == [] && !isLoading
    {
      predictions := [];
      isLoading := false;
    }

    function Active(): seq<Prediction>
      reads this
    {
      ActivePredictions(predictions)
    }

    function Closed(): seq<Prediction>
      reads this
    {
      ClosedPredictions(predictions)
    }

    /** The guard and the start of a fetch: without a usable count nothing
        happens; otherwise the loading flag goes up. */
    method StartFetch(predictionCount: Option<nat>) returns (count: Option<nat>)
      modifies this
      ensures count.Some? <==> CountIsTruthy(predictionCount)
      ensures count.Some? ==> count.value == predictionCount.value
      ensures predictions == old(predictions)
      ensures isLoading == (CountIsTruthy(predictionCount) || old(isLoading))
    {
      if !CountIsTruthy(predictionCount) {
        return None;
      }
      isLoading := true;
      count := Some(predictionCount.value);
    }

    /** The end of a fetch: a successful result replaces the list, a failure
        keeps it, and the loading flag comes down either way. */
    method FinishFetch(results: Option<seq<Prediction>>)
      modifies this
      ensures predictions == (if results.Some? then results.value else old(predictions))
      ensures !isLoading
    {
      if results.Some? {
        predictions := results.value;
      }
      isLoading := false;
    }

    /** `fetchPredictions`: guard, raise the flag, fetch every id, store the
        result if it came back whole, and lower the flag. */
    method FetchPredictions(predictionCount: Option<nat>, details: nat -> Option<Prediction>)
      returns (requested: seq<nat>)
      modifies this
      ensures !CountIsTruthy(predictionCount) ==>
        requested == [] && predictions == old(predictions) && isLoading == old(isLoading)
      ensures CountIsTruthy(predictionCount) ==>
        && |requested| == predictionCount.value
        && (forall i :: 0 <= i < |requested| ==> requested[i] == i)
        && !isLoading
        && (AllFound(predictionCount.value, details) ==>
              |predictions| == predictionCount.value
              && forall i :: 0 <= i < |predictions| ==> predictions[i] == details(i).value)
        && (!AllFound(predictionCount.value, details) ==> predictions == old(predictions))
    {
      requested := [];
      var count := StartFetch(predictionCount);
      if count.Some? {
        var results;
        requested, results := FetchAll(count.value, details);
        FinishFetch(results);
      }
    }

    /** `refreshPredictions`, the cards' vote-complete callback: the same
        fetch without the loading flag; a failed lookup rejects and leaves
        the list as it was. */
    method RefreshPredictions(predictionCount: Option<nat>, details: nat -> Option<Prediction>)
      returns (requested: seq<nat>)
      modifies this
      ensures isLoading == old(isLoading)
      ensures !CountIsTruthy(predictionCount) ==> requested == [] && predictions == old(predictions)
      ensures CountIsTruthy(predictionCount) ==>
        && |requested| == predictionCount.value
        && (forall i :: 0 <= i < |requested| ==> requested[i] == i)
        && (AllFound(predictionCount.value, details) ==>
              |predictions| == predictionCount.value
              && forall i :: 0 <= i < |predictions| ==> predictions[i] == details(i).value)
        && (!AllFound(predictionCount.value, details) ==> predictions == old(predictions))
    {
      requested := [];
      if CountIsTruthy(predictionCount) {
        var results;
        requested, results := FetchAll(predictionCount.value, details);
        if results.Some? {
          predictions := results.value;
        }
      }
    }
  }
}
