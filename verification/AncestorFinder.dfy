/** Finding the best remaining ancestor set. */
module AncestorFinder {
  import opened FeeFracs
  import opened Lists
  import opened DepGraphs

  ghost function Remaining(g: Graph, todo: set<nat>, i: nat): set<nat> { g.Anc(i) * todo }

  lemma {:induction false} RemainingTopo(g: Graph, todo: set<nat>, i: nat)
    requires WellFormed(g) && todo <= g.used && i in todo
    ensures TopoSet(g, todo, Remaining(g, todo, i)) && i in Remaining(g, todo, i)
  {
  }

  ghost predicate RatesFor(g: Graph, todo: set<nat>, rates: seq<FeeFrac>, which: set<nat>) {
    forall i :: i in which ==> i < |rates| && rates[i] == SetSum(g, Remaining(g, todo, i))
  }

  lemma {:induction false} NoRates(g: Graph, rates: seq<FeeFrac>)
    ensures RatesFor(g, g.used, rates, {})
  {
  }

  /** The loop of the constructor: positions in increasing order. */
  method InitialRates(g: Graph) returns (rates: seq<FeeFrac>)
    requires WellFormed(g)
    ensures RatesFor(g, g.used, rates, g.used)
  {
    rates := seq(|g.entries|, i => EMPTY);
    var rest := g.used;
    NoRates(g, rates);
    assert g.used - rest == {};
    hide RatesFor;
    while rest != {}
      invariant rest <= g.used && |rates| == |g.entries|
      invariant RatesFor(g, g.used, rates, g.used - rest)
      decreases rest
    {
      var i := First(rest);
      var rate := AncestorRate(g, rates, i, rest);
      UpdateRate(g, g.used, rates, i, rate, g.used - rest);
      rates := rates[i := rate];
      assert g.used - (rest - {i}) == (g.used - rest) + {i};
      rest := rest - {i};
    }
    assert g.used - rest == g.used;
  }

  class AncestorCandidateFinder {
    const depgraph: Graph
    var todo: set<nat>
    /** Aggregate feerates of the remaining ancestors, up to date for positions in `todo`. */
    var ancestorSetFeerates: seq<FeeFrac>

    ghost predicate Valid()
      reads this
    {
      WellFormed(depgraph) && todo <= depgraph.used && RatesFor(depgraph, todo, ancestorSetFeerates, todo)
    }

    constructor (g: Graph)
      requires WellFormed(g)
      ensures Valid() && depgraph == g && todo == g.used
    {
      var rates := InitialRates(g);
      depgraph := g;
      todo := g.used;
      ancestorSetFeerates := rates;
    }

    /** `MarkDone`: subtract the removed transactions from their remaining descendants. */
    method MarkDone(select: set<nat>)
      requires Valid() && select != {} && select <= todo
      modifies this
      ensures Valid() && todo == old(todo) - select
    {
      todo := todo - select;
      assert todo + select == old(todo);
      ancestorSetFeerates := SubtractAll(depgraph, ancestorSetFeerates, select, todo);
    }

    predicate AllDone()
      reads this
    {
      todo == {}
    }

    /** `FindCandidateSet`: the best remaining ancestor set. */
    method FindCandidateSet() returns (r: SetInfo)
      requires Valid() && !AllDone()
      ensures TopoSet(depgraph, todo, r.transactions) && r.transactions != {} && Consistent(depgraph, r)
      ensures exists i :: i in todo && r.transactions == Remaining(depgraph, todo, i)
      ensures forall i :: i in todo ==> !Better(SetSum(depgraph, Remaining(depgraph, todo, i)), r.feerate)
    {
      var best := First(todo);
      var rest := todo - {best};
      BetterOrder(ancestorSetFeerates[best], ancestorSetFeerates[best], ancestorSetFeerates[best]);
      while rest != {}
        invariant best in todo && rest <= todo
        invariant forall i :: i in todo && i !in rest ==> !Better(ancestorSetFeerates[i], ancestorSetFeerates[best])
        decreases rest
      {
        var i := First(rest);
        rest := rest - {i};
        if Better(ancestorSetFeerates[i], ancestorSetFeerates[best]) {
          forall k | k in todo && k !in rest ensures !Better(ancestorSetFeerates[k], ancestorSetFeerates[i]) {
            Overtaken(depgraph, todo, ancestorSetFeerates, best, i, k);
          }
          best := i;
        }
      }
      RemainingTopo(depgraph, todo, best);
      return SetInfo(depgraph.Anc(best) * todo, ancestorSetFeerates[best]);
    }
  }

  /** What was not better than the old best is not better than one that is. */
  lemma {:induction false} Overtaken(g: Graph, todo: set<nat>, rates: seq<FeeFrac>, best: nat, i: nat, k: nat)
    requires WellFormed(g) && todo <= g.used && RatesFor(g, todo, rates, todo) && best in todo && i in todo && k in todo
    requires Better(rates[i], rates[best]) && (k == i || !Better(rates[k], rates[best]))
    ensures !Better(rates[k], rates[i])
  {
    hide SetSum;
    RemainingTopo(g, todo, best);
    RemainingTopo(g, todo, i);
    RemainingTopo(g, todo, k);
    SetSumSize(g, Remaining(g, todo, best));
    SetSumSize(g, Remaining(g, todo, i));
    SetSumSize(g, Remaining(g, todo, k));
    BetterOrder(rates[k], rates[i], rates[best]);
  }

  lemma {:induction false} UpdateRate(g: Graph, todo: set<nat>, rates: seq<FeeFrac>, i: nat, rate: FeeFrac,
                                      which: set<nat>)
    requires RatesFor(g, todo, rates, which) && i < |rates| && rate == SetSum(g, Remaining(g, todo, i))
    ensures RatesFor(g, todo, rates[i := rate], which + {i})
  {
  }

  /** The aggregate feerate of all ancestors of `i`, reusing the one of its first ancestor. */
  method AncestorRate(g: Graph, rates: seq<FeeFrac>, i: nat, ghost rest: set<nat>) returns (rate: FeeFrac)
    requires WellFormed(g) && rest <= g.used && i in rest && |rates| == |g.entries|
    requires forall x :: x in rest ==> i <= x
    requires RatesFor(g, g.used, rates, g.used - rest)
    ensures rate == SetSum(g, Remaining(g, g.used, i))
  {
    var toAdd := g.Anc(i);
    rate := EMPTY;
    var first := First(toAdd);
    if first < i {
      rate := rates[first];
      toAdd := toAdd - g.Anc(first);
      assert g.Anc(first) * g.used == g.Anc(first);
      assert g.Anc(i) * g.Anc(first) == g.Anc(first);
      SetSumSplit(g, g.Anc(i), g.Anc(first));
    } else {
      AddLaws(SetSum(g, g.Anc(i)), EMPTY, EMPTY);
    }
    var extra := FeeRate(g, toAdd);
    rate := rate.Add(extra);
    assert g.Anc(i) * g.used == g.Anc(i);
  }

  /** The loop of `MarkDone` over the removed transactions. */
  method SubtractAll(g: Graph, rates0: seq<FeeFrac>, select: set<nat>, todo: set<nat>) returns (rates: seq<FeeFrac>)
    requires WellFormed(g) && todo <= g.used && select <= g.used && todo !! select
    requires RatesFor(g, todo + select, rates0, todo)
    ensures RatesFor(g, todo, rates, todo)
  {
    hide RatesFor, WellFormed;
    rates := rates0;
    var rest := select;
    while rest != {}
      invariant rest <= select && RatesFor(g, todo + rest, rates, todo)
      decreases rest
    {
      var i := First(rest);
      rates := Subtract(g, rates, i, g.Desc(i) * todo, todo, todo + rest);
      assert todo + rest - {i} == todo + (rest - {i});
      rest := rest - {i};
    }
    assert todo + rest == todo;
  }

  /** Subtract the feerate of `i` from each of `js`, the remaining descendants of `i`. */
  method Subtract(g: Graph, rates0: seq<FeeFrac>, i: nat, js: set<nat>, ghost todo: set<nat>, ghost old_: set<nat>)
    returns (rates: seq<FeeFrac>)
    requires WellFormed(g) && todo <= old_ <= g.used && i in old_ && i !in todo && js == g.Desc(i) * todo
    requires RatesFor(g, old_, rates0, todo)
    ensures RatesFor(g, old_ - {i}, rates, todo)
  {
    rates := rates0;
    var rest := js;
    while rest != {}
      invariant rest <= js && |rates| == |rates0|
      invariant forall j :: j in todo ==>
        rates[j] == if j in js && j !in rest then rates0[j].Sub(g.Rate(i)) else rates0[j]
      decreases rest
    {
      var j := First(rest);
      rates := rates[j := rates[j].Sub(g.Rate(i))];
      rest := rest - {j};
    }
    forall j | j in todo ensures rates[j] == SetSum(g, Remaining(g, old_ - {i}, j)) {
      RemainingWithout(g, old_, i, j);
    }
  }

  lemma {:induction false} RemainingWithout(g: Graph, todo: set<nat>, i: nat, j: nat)
    requires WellFormed(g) && todo <= g.used && i in todo && j in todo
    ensures SetSum(g, Remaining(g, todo - {i}, j)) ==
            if j in g.Desc(i) then SetSum(g, Remaining(g, todo, j)).Sub(g.Rate(i)) else SetSum(g, Remaining(g, todo, j))
  {
    if j in g.Desc(i) {
      SetSumRemove(g, Remaining(g, todo, j), i);
      assert Remaining(g, todo - {i}, j) == Remaining(g, todo, j) - {i};
      hide SetSum, WellFormed;
    } else {
      assert Remaining(g, todo - {i}, j) == Remaining(g, todo, j);
    }
  }
}
