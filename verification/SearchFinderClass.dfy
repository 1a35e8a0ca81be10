/** The candidate finder: sorts the positions of a graph by feerate, searches the sorted copy, and
    translates between the two numberings. */
module SearchFinder {
  import opened Powers
  import opened FeeFracs
  import opened Lists
  import opened DepGraphs
  import opened Diagrams
  import opened Fronts
  import opened DepGraphBuild
  import opened SearchTheory
  import opened SearchLoop

  /** Decreasing feerate order (including the size tie-break), then increasing position. */
  predicate FeerateBefore(g: Graph, a: nat, b: nat) {
    if Better(g.Rate(a), g.Rate(b)) then true
    else if Better(g.Rate(b), g.Rate(a)) then false
    else a < b
  }

  method SortFirst(g: Graph, rest: set<nat>) returns (m: nat)
    requires Sized(g) && rest != {} && rest <= g.used
    ensures m in rest && forall x :: x in rest ==> !Higher(g.Rate(x), g.Rate(m))
    ensures forall x :: x in rest && x != m ==> FeerateBefore(g, m, x)
  {
    m := First(rest);
    var left := rest - {m};
    while left != {}
      invariant m in rest && left <= rest && m !in left
      invariant forall x :: x in rest && x !in left && x != m ==> FeerateBefore(g, m, x)
      decreases left
    {
      var x := First(left);
      left := left - {x};
      if FeerateBefore(g, x, m) {
        forall y | y in rest && y !in left && y != x ensures FeerateBefore(g, x, y) {
          if y != m { BeforeTrans(g, x, m, y); }
        }
        m := x;
      } else {
        BeforeTotal(g, x, m);
      }
    }
    forall x | x in rest ensures !Higher(g.Rate(x), g.Rate(m)) {
      BetterIsNotLower(g.Rate(x), g.Rate(m));
      BetterIsNotLower(g.Rate(m), g.Rate(x));
      NotHigherThanSelf(g.Rate(m));
    }
  }

  lemma {:induction false} BeforeTotal(g: Graph, a: nat, b: nat)
    requires !FeerateBefore(g, a, b) && a != b
    ensures FeerateBefore(g, b, a)
  {
    BetterIsNotLower(g.Rate(b), g.Rate(a));
  }

  lemma {:induction false} BeforeTrans(g: Graph, a: nat, b: nat, c: nat)
    requires Sized(g) && a in g.used && b in g.used && c in g.used
    requires FeerateBefore(g, a, b) && FeerateBefore(g, b, c)
    ensures FeerateBefore(g, a, c)
  {
    var x, y, z := g.Rate(a), g.Rate(b), g.Rate(c);
    BetterIsNotLower(x, y); BetterIsNotLower(y, z);
    AtLeastTrans(x, y, z);
    if !Better(x, z) {
      // z is at least as good as x, hence as y, hence all three are equivalent
      if Better(x, y) { AtLeastTrans(y, z, x); }
      if Better(y, z) { AtLeastTrans(z, x, y); }
    }
  }

  /** `m_sorted_to_original`: the used positions in order of decreasing feerate. */
  method SortByFeerate(g: Graph) returns (order: seq<nat>)
    requires Sized(g)
    ensures Distinct(order) && ToSet(order) == g.used
    ensures forall p, q :: 0 <= p < q < |order| ==> FeerateBefore(g, order[p], order[q])
    ensures forall p, q :: 0 <= p < q < |order| ==> !Higher(g.Rate(order[q]), g.Rate(order[p]))
  {
    order := [];
    var rest := g.used;
    hide Higher, FeerateBefore, Sized;
    while rest != {}
      invariant rest <= g.used && ToSet(order) == g.used - rest && Distinct(order)
      invariant forall p, x :: 0 <= p < |order| && x in rest ==>
        FeerateBefore(g, order[p], x) && !Higher(g.Rate(x), g.Rate(order[p]))
      invariant forall p, q :: 0 <= p < q < |order| ==>
        FeerateBefore(g, order[p], order[q]) && !Higher(g.Rate(order[q]), g.Rate(order[p]))
      decreases rest
    {
      var m := SortFirst(g, rest);
      assert m !in ToSet(order);
      DistinctConcat(order, [m]);
      ToSetConcat(order, [m]);
      order := order + [m];
      rest := rest - {m};
    }
  }

  /** The inverse of a list of distinct positions. */
  method Invert(order: seq<nat>, n: nat) returns (inverse: seq<nat>)
    requires Distinct(order) && forall p :: 0 <= p < |order| ==> order[p] < n
    ensures |inverse| == n && forall p :: 0 <= p < |order| ==> inverse[order[p]] == p
  {
    inverse := seq(n, i => 0);
    for k := 0 to |order|
      invariant |inverse| == n && forall p :: 0 <= p < k ==> inverse[order[p]] == p
    {
      inverse := inverse[order[k] := k];
    }
  }

  /** The two numberings are inverse to each other. */
  ghost predicate Numbering(g: Graph, s: Graph, toSorted: seq<nat>, toOriginal: seq<nat>) {
    && Isomorphic(g, s, toSorted)
    && (forall k :: k in s.used ==> k < |toOriginal| && toOriginal[k] in g.used && toSorted[toOriginal[k]] == k)
    && (forall i :: i in g.used ==> toSorted[i] < |toOriginal| && toOriginal[toSorted[i]] == i)
  }

  lemma {:induction false} ImageBack(g: Graph, s: Graph, toSorted: seq<nat>, toOriginal: seq<nat>, x: set<nat>)
    requires Numbering(g, s, toSorted, toOriginal) && x <= s.used
    ensures Image(x, toOriginal) <= g.used && Image(Image(x, toOriginal), toSorted) == x
  {
  }

  lemma {:induction false} ImageForth(g: Graph, s: Graph, toSorted: seq<nat>, toOriginal: seq<nat>, x: set<nat>)
    requires Numbering(g, s, toSorted, toOriginal) && x <= g.used
    ensures Image(x, toSorted) <= s.used && Image(Image(x, toSorted), toOriginal) == x
  {
    forall i | i in x ensures toSorted[i] in s.used { }
  }

  lemma {:induction false} ImageSum(g: Graph, s: Graph, m: seq<nat>, x: set<nat>)
    requires Isomorphic(g, s, m) && x <= g.used
    ensures SetSum(s, Image(x, m)) == SetSum(g, x)
    decreases x
  {
    if x == {} {
      assert Image(x, m) == {};
    } else {
      var i := First(x);
      ImageRemove(g, m, x, i);
      SetSumRemove(s, Image(x, m), m[i]);
      SetSumRemove(g, x, i);
      ImageSum(g, s, m, x - {i});
    }
  }

  lemma {:induction false} ImageRemove(g: Graph, m: seq<nat>, x: set<nat>, i: nat)
    requires Injective(g, m) && x <= g.used && i in x
    ensures m[i] in Image(x, m) && Image(x - {i}, m) == Image(x, m) - {m[i]}
  {
  }

  lemma {:induction false} ImageMember(g: Graph, m: seq<nat>, x: set<nat>, i: nat)
    requires Injective(g, m) && x <= g.used && i in g.used
    ensures m[i] in Image(x, m) <==> i in x
  {
  }

  lemma {:induction false} ImageTopo(g: Graph, s: Graph, m: seq<nat>, todo: set<nat>, x: set<nat>)
    requires Isomorphic(g, s, m) && todo <= g.used && x <= todo
    ensures TopoSet(s, Image(todo, m), Image(x, m)) <==> TopoSet(g, todo, x)
  {
    var t', x' := Image(todo, m), Image(x, m);
    forall i | i in todo
      ensures (m[i] in x' <==> i in x) && m[i] in t'
    {
      ImageMember(g, m, x, i); ImageMember(g, m, todo, i);
    }
    if TopoSet(g, todo, x) {
      forall a, b | a in x' && b in s.Anc(a) && b in t' ensures b in x' {
        var i :| i in x && m[i] == a;
        var j :| j in todo && m[j] == b;
        assert j in g.Anc(i);
      }
    }
    if TopoSet(s, t', x') {
      forall i, j | i in x && j in g.Anc(i) && j in todo ensures j in x {
        assert m[j] in s.Anc(m[i]) && m[j] in t';
      }
    }
  }

  lemma {:induction false} ImageHighest(g: Graph, s: Graph, m: seq<nat>, todo: set<nat>, x: set<nat>)
    requires Isomorphic(g, s, m) && todo <= g.used && x <= todo
    requires HighestSet(s, Image(todo, m), Image(x, m))
    ensures HighestSet(g, todo, x)
  {
    ImageTopo(g, s, m, todo, x);
    ImageSum(g, s, m, x);
    assert x != {};
    hide Isomorphic, SetSum, Higher;
    forall y | TopoSet(g, todo, y) && y != {} ensures !Higher(SetSum(g, y), SetSum(g, x)) {
      ImageTopo(g, s, m, todo, y);
      ImageSum(g, s, m, y);
      var i :| i in y;
      assert m[i] in Image(y, m);
    }
  }

  /** A copy whose positions follow a list of decreasing feerates is sorted. */
  lemma {:induction false} CopySorted(g: Graph, s: Graph, order: seq<nat>, inverse: seq<nat>)
    requires Isomorphic(g, s, inverse) && Distinct(order) && ToSet(order) == g.used
    requires forall p :: 0 <= p < |order| ==> order[p] < |inverse| && inverse[order[p]] == p
    requires forall p, q :: 0 <= p < q < |order| ==> !Higher(g.Rate(order[q]), g.Rate(order[p]))
    ensures Numbering(g, s, inverse, order) && SortedByFeerate(s)
  {
    forall i | i in g.used ensures inverse[i] < |order| && order[inverse[i]] == i {
      assert i in ToSet(order);
      var p :| 0 <= p < |order| && order[p] == i;
    }
    forall k | k in s.used ensures k < |order| && order[k] in g.used && inverse[order[k]] == k {
      var i :| i in g.used && inverse[i] == k;
    }
    forall i, j | i in s.used && j in s.used && i < j ensures !Higher(s.Rate(j), s.Rate(i)) {
      assert s.Rate(inverse[order[i]]) == g.Rate(order[i]) && s.Rate(inverse[order[j]]) == g.Rate(order[j]);
    }
  }

  class SearchCandidateFinder {
    ghost const original: Graph
    var sortedToOriginal: seq<nat>
    var originalToSorted: seq<nat>
    var sortedDepgraph: Graph
    var todo: set<nat>

    ghost predicate Valid()
      reads this
    {
      && WellFormed(original)
      && Numbering(original, sortedDepgraph, originalToSorted, sortedToOriginal)
      && SearchGraph(sortedDepgraph, todo)
    }

    /** What is left to do, in original positions. */
    ghost function Todo(): set<nat>
      requires Valid()
      reads this
    {
      Image(todo, sortedToOriginal)
    }

    constructor (g: Graph)
      requires WellFormed(g) && Acyclic(g)
      ensures Valid() && original == g && Todo() == g.used
    {
      var order := SortByFeerate(g);
      UsedInRange(g);
      assert forall p :: 0 <= p < |order| ==> order[p] in ToSet(order);
      var inverse := Invert(order, |g.entries|);
      InverseInjective(g, order, inverse);
      var copy := new DepGraph.Remap(g, inverse, |order|);
      var view := copy.View();
      CopySorted(g, view, order, inverse);
      ImageForth(g, view, inverse, order, g.used);
      original := g;
      sortedToOriginal := order;
      originalToSorted := inverse;
      sortedDepgraph := view;
      todo := view.used;
    }

    predicate AllDone()
      reads this
    {
      todo == {}
    }

    /** `FindCandidateSet`: at least as good as the candidate passed in; of the highest feerate
        when fewer than `maxIterations` steps were made, which 2^n steps always are for n
        remaining transactions. */
    method FindCandidateSet(maxIterations: nat, best0: SetInfo) returns (best: SetInfo, iterations: nat)
      requires Valid() && !AllDone()
      requires best0 == SetInfo({}, EMPTY) || ValidBest(original, Todo(), best0)
      ensures ValidBest(original, Todo(), best)
      ensures best0 != SetInfo({}, EMPTY) ==> AtLeast(best.feerate, best0.feerate)
      ensures iterations <= maxIterations && iterations < Pow2(|Todo()|)
      ensures iterations < maxIterations ==> HighestSet(original, Todo(), best.transactions)
    {
      var s := sortedDepgraph;
      ghost var todo0 := Todo();
      ImageBack(original, s, originalToSorted, sortedToOriginal, todo);
      ImageCard(todo, sortedToOriginal);
      var start := best0;
      if best0.transactions != {} {
        ImageTopo(original, s, originalToSorted, todo0, best0.transactions);
        ImageSum(original, s, originalToSorted, best0.transactions);
        ImageNonEmpty(best0.transactions, originalToSorted);
        start := SetInfo(Image(best0.transactions, originalToSorted), best0.feerate);
      }
      var found;
      found, iterations := Search(s, todo, maxIterations, start);
      ImageBack(original, s, originalToSorted, sortedToOriginal, found.transactions);
      ImageSubset(found.transactions, todo, sortedToOriginal);
      best := SetInfo(Image(found.transactions, sortedToOriginal), found.feerate);
      ImageTopo(original, s, originalToSorted, todo0, best.transactions);
      ImageSum(original, s, originalToSorted, best.transactions);
      ImageNonEmpty(found.transactions, sortedToOriginal);
      if iterations < maxIterations {
        ImageHighest(original, s, originalToSorted, todo0, best.transactions);
      }
    }

    method MarkDone(done: set<nat>)
      requires Valid() && done != {} && done <= Todo()
      modifies this
      ensures Valid() && Todo() == old(Todo()) - done
    {
      ImageBack(original, sortedDepgraph, originalToSorted, sortedToOriginal, todo);
      ImageForth(original, sortedDepgraph, originalToSorted, sortedToOriginal, done);
      var doneSorted := Image(done, originalToSorted);
      ImageDifference(original, sortedDepgraph, originalToSorted, sortedToOriginal, todo, doneSorted);
      todo := todo - doneSorted;
    }
  }

  lemma {:induction false} ImageDifference(g: Graph, s: Graph, toSorted: seq<nat>, toOriginal: seq<nat>, a: set<nat>,
                                           b: set<nat>)
    requires Numbering(g, s, toSorted, toOriginal) && a <= s.used && b <= s.used
    ensures Image(a - b, toOriginal) == Image(a, toOriginal) - Image(b, toOriginal)
  {
  }

  lemma {:induction false} ImageSubset(a: set<nat>, b: set<nat>, m: seq<nat>)
    requires a <= b && forall i :: i in b ==> i < |m|
    ensures Image(a, m) <= Image(b, m)
  {
  }

  lemma {:induction false} ImageNonEmpty(a: set<nat>, m: seq<nat>)
    requires a != {} && forall i :: i in a ==> i < |m|
    ensures Image(a, m) != {}
  {
    var i :| i in a;
    assert m[i] in Image(a, m);
  }

  lemma {:induction false} ImageCard(a: set<nat>, m: seq<nat>)
    requires forall i :: i in a ==> i < |m|
    requires forall i, j :: i in a && j in a && i != j ==> m[i] != m[j]
    ensures |Image(a, m)| == |a|
    decreases a
  {
    if a == {} {
      assert Image(a, m) == {};
    } else {
      var i := First(a);
      ImageCard(a - {i}, m);
      assert Image(a, m) == Image(a - {i}, m) + {m[i]};
    }
  }

  lemma {:induction false} InverseInjective(g: Graph, order: seq<nat>, inverse: seq<nat>)
    requires Distinct(order) && ToSet(order) == g.used
    requires forall p :: 0 <= p < |order| ==> order[p] < |inverse| && inverse[order[p]] == p
    ensures Injective(g, inverse) && forall i :: i in g.used ==> inverse[i] < |order|
    ensures if g.used == {} then |order| == 0 else exists i :: i in g.used && inverse[i] == |order| - 1
  {
    forall i | i in g.used ensures i < |inverse| && inverse[i] < |order| && order[inverse[i]] == i {
      assert i in ToSet(order);
      var p :| 0 <= p < |order| && order[p] == i;
    }
    DistinctCard(order);
    if g.used != {} {
      assert order != [];
      var i := order[|order| - 1];
      assert i in ToSet(order);
      assert inverse[i] == |order| - 1;
    }
  }
}
