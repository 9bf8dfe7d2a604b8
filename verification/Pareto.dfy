/**
 `pareto_mask`: the model variants that no other variant dominates, by size, perplexity
 and throughput.
 */
module Pareto {

  datatype Variant = Variant(size: real, perplexity: real, throughput: real)

  predicate Dominates(a: Variant, b: Variant) {
    && a.size <= b.size && a.perplexity <= b.perplexity && a.throughput >= b.throughput
    && (a.size < b.size || a.perplexity < b.perplexity || a.throughput > b.throughput)
  }

  /** To dominate is to be different, and worse in nothing. */
  lemma DominatesIs(a: Variant, b: Variant)
    ensures Dominates(a, b) <==> a != b && !(a.size > b.size) && !(a.perplexity > b.perplexity) && !(a.throughput < b.throughput)
  {
  }

  predicate Dominated(rows: seq<Variant>, i: nat)
    requires i < |rows|
  {
    exists j :: 0 <= j < |rows| && Dominates(rows[j], rows[i])
  }

  method ParetoMask(rows: seq<Variant>) returns (mask: seq<bool>)
    ensures |mask| == |rows|
    ensures forall i :: 0 <= i < |rows| ==> mask[i] == !Dominated(rows, i)
  {
    mask := [];
    for i := 0 to |rows|
      invariant |mask| == i
      invariant forall k :: 0 <= k < i ==> mask[k] == !Dominated(rows, k)
    {
      var row, dominated := rows[i], false;
      for j := 0 to |rows|
        invariant !dominated
        invariant forall k :: 0 <= k < j ==> !Dominates(rows[k], rows[i])
      {
        if i == j {
          continue;
        }
        var other := rows[j];
        var leSize := other.size <= row.size;
        var lePerplexity := other.perplexity <= row.perplexity;
        var geThroughput := other.throughput >= row.throughput;
        var strict := other.size < row.size || other.perplexity < row.perplexity || other.throughput > row.throughput;
        if leSize && lePerplexity && geThroughput && strict {
          dominated := true;
          assert Dominates(rows[j], rows[i]);
          break;
        }
      }
      mask := mask + [!dominated];
    }
  }

  predicate OnFront(rows: seq<Variant>, best: nat) { best < |rows| && !Dominated(rows, best) }

  function Below(n: nat): (r: set<nat>)
    ensures forall j: nat :: j in r <==> j < n
  {
    if n == 0 then {} else Below(n - 1) + {n - 1}
  }

  /** The mask loses nothing: every variant is on the front or dominated by one that is. */
  lemma FrontCovers(rows: seq<Variant>, i: nat)
    requires i < |rows|
    ensures exists best: nat :: OnFront(rows, best) && (best == i || Dominates(rows[best], rows[i]))
  {
    Climb(rows, i, Below(|rows|));
  }

  /** Climbing from a variant to one that dominates it never comes back to a variant seen before. */
  lemma {:induction false} Climb(rows: seq<Variant>, i: nat, left: set<nat>)
    requires i < |rows| && forall j: nat :: j < |rows| && Dominates(rows[j], rows[i]) ==> j in left
    ensures exists best: nat :: OnFront(rows, best) && (best == i || Dominates(rows[best], rows[i]))
    decreases left
  {
    if Dominated(rows, i) {
      var j :| 0 <= j < |rows| && Dominates(rows[j], rows[i]);
      Climb(rows, j, left - {j});
      var best: nat :| OnFront(rows, best) && (best == j || Dominates(rows[best], rows[j]));
      assert Dominates(rows[best], rows[i]);
    } else {
      assert OnFront(rows, i);
    }
  }
}
