/** Bounded branch-and-bound search for the highest-feerate topologically valid subset.

    Everything here works on a graph whose positions are sorted by decreasing feerate. */
module SearchTheory {
  import opened FeeFracs
  import opened Lists
  import opened DepGraphs
  import opened Diagrams
  import opened Fronts

  datatype WorkItem = WorkItem(inc: SetInfo, und: set<nat>, pot: FeeFrac)

  /** Positions are in order of decreasing individual feerate. */
  ghost predicate SortedByFeerate(g: Graph) {
    forall i, j :: i in g.used && j in g.used && i < j ==> !Higher(g.Rate(j), g.Rate(i))
  }

  ghost predicate Candidate(g: Graph, todo: set<nat>, x: set<nat>) { TopoSet(g, todo, x) && x != {} }

  /** Between the included set and everything not excluded. */
  ghost predicate Fits(inc: set<nat>, und: set<nat>, x: set<nat>) { inc <= x && x <= inc + und }

  /** The transactions of `todo` with a feerate above the best found so far. */
  ghost predicate IsImp(g: Graph, todo: set<nat>, best: FeeFrac, imp: set<nat>) {
    imp == set i | i in todo && Higher(g.Rate(i), best)
  }

  /** No set compatible with the work item has a feerate above both `pot` and `best`. */
  ghost predicate PotBound(g: Graph, inc: set<nat>, und: set<nat>, pot: FeeFrac, best: FeeFrac) {
    forall x :: Fits(inc, und, x) ==> !Higher(SetSum(g, x), pot) || !Higher(SetSum(g, x), best)
  }

  ghost predicate SearchGraph(g: Graph, todo: set<nat>) {
    WellFormed(g) && SortedByFeerate(g) && todo <= g.used
  }

  /** What `split_fn` assumes of an item of the work queue. */
  ghost predicate ItemOk(g: Graph, todo: set<nat>, best: FeeFrac, it: WorkItem) {
    && it.inc.transactions !! it.und && it.und != {}
    && TopoSet(g, todo, it.inc.transactions) && TopoSet(g, todo, it.inc.transactions + it.und)
    && Consistent(g, it.inc)
    && (it.inc.transactions != {} ==>
          && it.pot.size > 0
          && !Higher(it.inc.feerate, best)
          && PotBound(g, it.inc.transactions, it.und, it.pot, best))
  }

  /** The item can still lead to a set at least as good as `x`. */
  ghost predicate Reaches(g: Graph, todo: set<nat>, it: WorkItem, x: set<nat>) {
    exists y :: Candidate(g, todo, y) && Fits(it.inc.transactions, it.und, y) && !Higher(SetSum(g, x), SetSum(g, y))
  }

  /** Every candidate better than `best` is reached from some item of the queue. */
  ghost predicate Alive(g: Graph, todo: set<nat>, best: FeeFrac, queue: seq<WorkItem>) {
    forall x :: Candidate(g, todo, x) && Higher(SetSum(g, x), best) ==> Reachable(g, todo, queue, x)
  }

  ghost predicate Reachable(g: Graph, todo: set<nat>, queue: seq<WorkItem>, x: set<nat>) {
    exists k :: 0 <= k < |queue| && Reaches(g, todo, queue[k], x)
  }

  ghost predicate QueueOk(g: Graph, todo: set<nat>, best: FeeFrac, queue: seq<WorkItem>) {
    forall k :: 0 <= k < |queue| ==> ItemOk(g, todo, best, queue[k])
  }

  lemma {:induction false} CandidateSize(g: Graph, todo: set<nat>, x: set<nat>)
    requires Sized(g) && todo <= g.used && Candidate(g, todo, x)
    ensures SetSum(g, x).size > 0
  {
    SetSumSize(g, x);
  }

  /** Everything known of an item stays true when `best` improves. */
  lemma {:induction false} ItemStaysOk(g: Graph, todo: set<nat>, best: FeeFrac, better: FeeFrac, it: WorkItem)
    requires Sized(g) && todo <= g.used && ItemOk(g, todo, best, it)
    requires best.size > 0 && better.size > 0 && !Higher(best, better)
    ensures ItemOk(g, todo, better, it)
  {
    var inc, und := it.inc.transactions, it.und;
    if inc != {} {
      SetSumSize(g, inc);
      HigherTrans(it.inc.feerate, best, better);
      forall x | Fits(inc, und, x) ensures !Higher(SetSum(g, x), it.pot) || !Higher(SetSum(g, x), better) {
        SetSumSize(g, x);
        HigherTrans(SetSum(g, x), best, better);
      }
    }
  }

  lemma {:induction false} QueueStaysOk(g: Graph, todo: set<nat>, best: FeeFrac, better: FeeFrac, queue: seq<WorkItem>)
    requires Sized(g) && todo <= g.used && QueueOk(g, todo, best, queue)
    requires best.size > 0 && better.size > 0 && !Higher(best, better)
    ensures QueueOk(g, todo, better, queue)
  {
    forall k | 0 <= k < |queue| ensures ItemOk(g, todo, better, queue[k]) {
      hide *;
      assert ItemOk(g, todo, best, queue[k]);
      ItemStaysOk(g, todo, best, better, queue[k]);
    }
  }

  // ---------------------------------------------------------------- weights of sets

  lemma {:induction false} WeightUpper(g: Graph, rate: FeeFrac, s: set<nat>)
    requires forall i :: i in s ==> Excess(rate, g.Rate(i)) <= 0
    ensures SetWeight(g, rate, s) <= 0
  {
    if s != {} {
      var i := First(s);
      SetSumRemove(g, s, i);
      ExcessAdd(rate, g.Rate(i), SetSum(g, s - {i}));
      WeightUpper(g, rate, s - {i});
    }
  }

  lemma {:induction false} WeightLower(g: Graph, rate: FeeFrac, s: set<nat>)
    requires forall i :: i in s ==> Excess(rate, g.Rate(i)) >= 0
    ensures SetWeight(g, rate, s) >= 0
  {
    if s != {} {
      var i := First(s);
      SetSumRemove(g, s, i);
      ExcessAdd(rate, g.Rate(i), SetSum(g, s - {i}));
      WeightLower(g, rate, s - {i});
    }
  }

  /** `pot` outweighs `x` when it gains on what it adds and loses nothing on what it leaves out. */
  lemma {:induction false} WeightExchange(g: Graph, rate: FeeFrac, pot: set<nat>, x: set<nat>)
    requires forall i :: i in x - pot ==> Excess(rate, g.Rate(i)) <= 0
    requires forall i :: i in pot - x ==> Excess(rate, g.Rate(i)) >= 0
    ensures SetWeight(g, rate, x) <= SetWeight(g, rate, pot)
  {
    WeightUpper(g, rate, x - pot);
    WeightLower(g, rate, pot - x);
    SetWeightSplit(g, rate, x, pot);
    SetWeightSplit(g, rate, pot, x);
    assert x * pot == pot * x;
  }

  // ---------------------------------------------------------------- the potential set

  /** `pot` is `inc` with exactly those improving undecided transactions whose feerate is above
      that of `pot`. */
  ghost predicate IsPot(g: Graph, inc: set<nat>, und: set<nat>, imp: set<nat>, pot: SetInfo) {
    && Consistent(g, pot) && inc <= pot.transactions && pot.transactions <= inc + (imp * und)
    && (forall i :: i in pot.transactions - inc ==> Higher(g.Rate(i), pot.feerate))
    && (forall i :: i in imp * und && i !in pot.transactions ==> !Higher(g.Rate(i), pot.feerate))
  }

  lemma {:induction false} PotBoundHolds(g: Graph, todo: set<nat>, best: FeeFrac, imp: set<nat>, inc: set<nat>,
                                         und: set<nat>, pot: SetInfo)
    requires Sized(g) && todo <= g.used && best.size > 0 && IsImp(g, todo, best, imp)
    requires inc != {} && inc + und <= todo && inc !! und && IsPot(g, inc, und, imp, pot)
    ensures pot.feerate.size > 0 && PotBound(g, inc, und, pot.feerate, best)
  {
    assert pot.transactions != {};
    SetSumSize(g, pot.transactions);
    forall x | Fits(inc, und, x) ensures !Higher(SetSum(g, x), pot.feerate) || !Higher(SetSum(g, x), best) {
      PotBoundAt(g, todo, best, imp, inc, und, pot, x);
    }
  }

  lemma {:induction false} PotBoundAt(g: Graph, todo: set<nat>, best: FeeFrac, imp: set<nat>, inc: set<nat>,
                                      und: set<nat>, pot: SetInfo, x: set<nat>)
    requires Sized(g) && todo <= g.used && best.size > 0 && IsImp(g, todo, best, imp)
    requires inc + und <= todo && inc !! und && IsPot(g, inc, und, imp, pot) && pot.feerate.size > 0
    requires Fits(inc, und, x)
    ensures !Higher(SetSum(g, x), pot.feerate) || !Higher(SetSum(g, x), best)
  {
    var p := pot.feerate;
    HigherIsExcess(best, p);
    if Higher(best, p) {
      forall i | i in x - pot.transactions ensures Excess(best, g.Rate(i)) <= 0 {
        if i in imp { HigherTrans(g.Rate(i), best, p); }
      }
      forall i | i in pot.transactions - x ensures Excess(best, g.Rate(i)) >= 0 { assert i in imp; }
      WeightExchange(g, best, pot.transactions, x);
    } else {
      forall i | i in x - pot.transactions ensures Excess(p, g.Rate(i)) <= 0 {
        if i !in imp { HigherTrans(g.Rate(i), best, p); }
      }
      WeightExchange(g, p, pot.transactions, x);
      ExcessSelf(p);
    }
  }

  /** The "jump ahead" step: any part of `pot` can be added to a compatible set without loss. */
  lemma {:induction false} JumpAhead(g: Graph, todo: set<nat>, best: FeeFrac, imp: set<nat>, inc: set<nat>,
                                     und: set<nat>, pot: SetInfo, more: set<nat>, x: set<nat>)
    requires Sized(g) && todo <= g.used && best.size > 0 && IsPot(g, inc, und, imp, pot) && pot.feerate.size > 0
    requires PotBound(g, inc, und, pot.feerate, best) && imp <= todo
    requires inc <= more <= pot.transactions && TopoSet(g, todo, more)
    requires Candidate(g, todo, x) && Fits(inc, und, x) && Higher(SetSum(g, x), best)
    ensures Candidate(g, todo, x + more) && Fits(more, und - more, x + more)
    ensures !Higher(SetSum(g, x), SetSum(g, x + more))
    ensures !Higher(SetSum(g, x), pot.feerate)
  {
    var rate := SetSum(g, x);
    CandidateSize(g, todo, x);
    TopoIntersect(g, todo, x, more);
    forall i | i in more - x ensures Excess(rate, g.Rate(i)) >= 0 {
      assert i in pot.transactions - inc;
      HigherTrans(g.Rate(i), pot.feerate, rate);
    }
    WeightLower(g, rate, more - x);
    SetWeightUnion(g, rate, x, more - x);
    assert x + more == x + (more - x);
    ExcessSelf(rate);
    HigherIsExcess(rate, SetSum(g, x + more));
  }

  /** A subset of the same total size is the whole set. */
  lemma {:induction false} SameSize(g: Graph, a: set<nat>, b: set<nat>)
    requires Sized(g) && b <= g.used && a <= b && SetSum(g, a).size == SetSum(g, b).size
    ensures a == b
  {
    SetSumSize(g, b - a);
    SetSumUnion(g, a, b - a);
    assert a + (b - a) == b;
  }

  // ---------------------------------------------------------------- splitting

  /** Excluding a transaction with its descendants keeps the item well-formed. */
  lemma {:induction false} ExcludeTopo(g: Graph, todo: set<nat>, inc: set<nat>, und: set<nat>, t: nat)
    requires WellFormed(g) && todo <= g.used && TopoSet(g, todo, inc) && TopoSet(g, todo, inc + und)
    requires inc !! und && t in und
    ensures TopoSet(g, todo, inc + (und - g.Desc(t))) && t !in und - g.Desc(t)
  {
    var s := inc + (und - g.Desc(t));
    forall i, j | i in s && j in g.Anc(i) && j in todo ensures j in s {
      assert j in inc + und;
      assert j in g.Desc(t) ==> t in g.Anc(j);
      assert t in g.Anc(j) ==> t in g.Anc(i);
    }
    assert t in g.Desc(t);
  }

  /** Including a transaction with its ancestors keeps the item well-formed. */
  lemma {:induction false} IncludeTopo(g: Graph, todo: set<nat>, inc: set<nat>, und: set<nat>, t: nat)
    requires WellFormed(g) && todo <= g.used && TopoSet(g, todo, inc) && TopoSet(g, todo, inc + und)
    requires inc !! und && t in und
    ensures var anc := g.Anc(t) * todo;
            && TopoSet(g, todo, inc + anc) && anc <= inc + und && t in anc
            && (inc + anc) + (und - anc) == inc + und
  {
    var anc := g.Anc(t) * todo;
    forall j | j in anc ensures j in inc + und { }
  }

  /** A candidate compatible with an item is compatible with one of its two halves. */
  lemma {:induction false} SplitCases(g: Graph, todo: set<nat>, inc: set<nat>, und: set<nat>, t: nat, x: set<nat>)
    requires WellFormed(g) && todo <= g.used && Candidate(g, todo, x) && Fits(inc, und, x) && t in und && t in todo
    ensures t in x ==> Fits(inc + (g.Anc(t) * todo), und - (g.Anc(t) * todo), x)
    ensures t !in x ==> Fits(inc, und - g.Desc(t), x)
  {
    if t !in x {
      forall i | i in x ensures i !in g.Desc(t) || i in inc {
        assert i in g.Desc(t) ==> t in g.Anc(i);
      }
      forall i | i in x ensures i in inc + (und - g.Desc(t)) { }
    }
  }
}

/** The search itself. */
module SearchLoop {
  import opened Powers
  import opened FeeFracs
  import opened Lists
  import opened DepGraphs
  import opened Diagrams
  import opened Fronts
  import opened SearchTheory

  ghost predicate ValidBest(g: Graph, todo: set<nat>, best: SetInfo) {
    Candidate(g, todo, best.transactions) && Consistent(g, best)
  }

  /** Drop from the end of `imp` until its last transaction beats `best`. */
  method TrimImp(g: Graph, todo: set<nat>, imp0: set<nat>, best: FeeFrac) returns (imp: set<nat>)
    requires SearchGraph(g, todo) && imp0 <= todo && best.size > 0
    requires forall i :: i in todo && Higher(g.Rate(i), best) ==> i in imp0
    ensures IsImp(g, todo, best, imp)
  {
    imp := imp0;
    while imp != {} && !Higher(g.Rate(Last(imp)), best)
      invariant imp <= imp0
      invariant forall i :: i in todo && Higher(g.Rate(i), best) ==> i in imp
      decreases imp
    {
      imp := imp - {Last(imp)};
    }
    forall i | i in imp ensures Higher(g.Rate(i), best) {
      if i != Last(imp) { HigherTrans(g.Rate(i), g.Rate(Last(imp)), best); }
    }
  }

  /** Grow `inc` greedily, ignoring topology, by undecided transactions that improve it. */
  method ComputePot(g: Graph, todo: set<nat>, imp: set<nat>, inc: SetInfo, und: set<nat>) returns (pot: SetInfo)
    requires SearchGraph(g, todo) && imp <= todo && und <= todo
    requires inc.transactions != {} && inc.transactions <= todo && inc.transactions !! und && Consistent(g, inc)
    ensures IsPot(g, inc.transactions, und, imp, pot)
  {
    hide WellFormed, SetSum;
    pot := inc;
    var all := imp * und;
    var rest := all;
    assert all - rest == {};
    while rest != {} && Higher(g.Rate(First(rest)), pot.feerate)
      invariant rest <= all && Consistent(g, pot)
      invariant pot.transactions == inc.transactions + (all - rest)
      invariant forall i, j :: i in all - rest && j in rest ==> i < j
      invariant forall i :: i in pot.transactions - inc.transactions ==> Higher(g.Rate(i), pot.feerate)
      decreases rest
    {
      var pos := First(rest);
      PotGrows(g, todo, inc.transactions, pot, pos);
      pot := SetInfo(pot.transactions + {pos}, pot.feerate.Add(g.Rate(pos)));
      rest := rest - {pos};
    }
    forall i | i in all && i !in pot.transactions ensures !Higher(g.Rate(i), pot.feerate) {
      assert i in rest;
      PotStops(g, todo, inc.transactions, pot, First(rest), i);
    }
  }

  lemma {:induction false} PotGrows(g: Graph, todo: set<nat>, inc: set<nat>, pot: SetInfo, pos: nat)
    requires SearchGraph(g, todo) && Consistent(g, pot) && inc != {} && inc <= pot.transactions <= todo
    requires pos in todo && pos !in pot.transactions && Higher(g.Rate(pos), pot.feerate)
    requires forall i :: i in pot.transactions - inc ==> i < pos
    ensures var f := pot.feerate.Add(g.Rate(pos));
            && f == SetSum(g, pot.transactions + {pos})
            && forall i :: i in pot.transactions + {pos} - inc ==> Higher(g.Rate(i), f)
  {
    var f := pot.feerate.Add(g.Rate(pos));
    SetSumUnion(g, pot.transactions, {pos});
    SetSumOne(g, pos);
    SetSumSize(g, pot.transactions);
    Mediant(pot.feerate, g.Rate(pos));
    HigherIsExcess(g.Rate(pos), f);
    hide SetSum;
    forall i | i in pot.transactions + {pos} - inc ensures Higher(g.Rate(i), f) {
      if i != pos {
        assert i in pot.transactions - inc;
        HigherTrans(g.Rate(i), g.Rate(pos), f);
      }
    }
  }

  lemma {:induction false} PotStops(g: Graph, todo: set<nat>, inc: set<nat>, pot: SetInfo, first: nat, i: nat)
    requires SearchGraph(g, todo) && Consistent(g, pot) && inc != {} && inc <= pot.transactions <= todo
    requires first in todo && i in todo && first <= i && !Higher(g.Rate(first), pot.feerate)
    ensures !Higher(g.Rate(i), pot.feerate)
  {
    SetSumSize(g, pot.transactions);
    if first < i { HigherTrans(g.Rate(i), g.Rate(first), pot.feerate); }
  }

  /** Add to `inc` every part of `pot` that is topologically valid. */
  method Jump(g: Graph, todo: set<nat>, inc: set<nat>, pot: set<nat>) returns (more: set<nat>)
    requires WellFormed(g) && pot <= todo <= g.used && inc <= pot && TopoSet(g, todo, inc)
    ensures inc <= more <= pot && TopoSet(g, todo, more)
  {
    more := inc;
    var rest := pot - inc;
    while rest != {}
      invariant inc <= more <= pot && rest <= pot && TopoSet(g, todo, more)
      decreases rest
    {
      var pos := First(rest);
      rest := rest - {pos};
      var anc := g.Anc(pos) * todo;
      if anc <= pot {
        AncTopo(g, todo, pos);
        TopoIntersect(g, todo, more, anc);
        more := more + anc;
      }
    }
  }

  lemma {:induction false} AncTopo(g: Graph, todo: set<nat>, i: nat)
    requires WellFormed(g) && i in todo && todo <= g.used
    ensures TopoSet(g, todo, g.Anc(i) * todo)
  {
  }

  /** Every candidate of the item (inc, und) that beats `best` is reached from the item, if any,
      appended to `before`. */
  ghost predicate Handled(g: Graph, todo: set<nat>, best: FeeFrac, inc: set<nat>, und: set<nat>, before: seq<WorkItem>,
                          after: seq<WorkItem>) {
    forall x :: Candidate(g, todo, x) && Fits(inc, und, x) && Higher(SetSum(g, x), best) ==>
      |after| == |before| + 1 && Reaches(g, todo, after[|before|], x)
  }

  /** Nothing, or one well-formed item with no more undecided transactions, has been appended. */
  ghost predicate Extends(g: Graph, todo: set<nat>, best: FeeFrac, und: set<nat>, before: seq<WorkItem>,
                          after: seq<WorkItem>) {
    || after == before
    || (|after| == |before| + 1 && after[..|before|] == before
        && ItemOk(g, todo, best, after[|before|]) && after[|before|].und <= und)
  }

  ghost predicate ItemSets(g: Graph, todo: set<nat>, inc: SetInfo, und: set<nat>) {
    && TopoSet(g, todo, inc.transactions) && TopoSet(g, todo, inc.transactions + und)
    && inc.transactions !! und && Consistent(g, inc)
  }

  /** `add_fn`: queue the item (inc, und), after extending inc, unless nothing can be gained. */
  method AddItem(g: Graph, todo: set<nat>, capacity: nat, best0: SetInfo, imp0: set<nat>, queue0: seq<WorkItem>,
                 inc: SetInfo, und: set<nat>)
    returns (best: SetInfo, imp: set<nat>, queue: seq<WorkItem>)
    requires SearchGraph(g, todo) && ValidBest(g, todo, best0) && IsImp(g, todo, best0.feerate, imp0)
    requires ItemSets(g, todo, inc, und) && |queue0| + |und| <= capacity
    ensures ValidBest(g, todo, best) && IsImp(g, todo, best.feerate, imp) && AtLeast(best.feerate, best0.feerate)
    ensures Extends(g, todo, best.feerate, und, queue0, queue)
    ensures Handled(g, todo, best.feerate, inc.transactions, und, queue0, queue)
  {
    best, imp, queue := best0, imp0, queue0;
    BetterOrder(best.feerate, best.feerate, best.feerate);
    if inc.transactions != {} {
      best, imp, queue := AddNonEmpty(g, todo, capacity, best, imp, queue, inc, und);
    } else {
      if und == {} { return; }
      var it := WorkItem(inc, und, EMPTY);
      assert |queue| < capacity;
      queue := queue + [it];
      EmptyHandled(g, todo, best.feerate, inc, und, queue0, it);
    }
  }

  lemma {:induction false} EmptyHandled(g: Graph, todo: set<nat>, best: FeeFrac, inc: SetInfo, und: set<nat>,
                                        queue: seq<WorkItem>, it: WorkItem)
    requires it.inc == inc && it.und == und
    ensures Handled(g, todo, best, inc.transactions, und, queue, queue + [it])
  {
    forall x | Candidate(g, todo, x) && Fits(inc.transactions, und, x) ensures Reaches(g, todo, it, x) {
      hide Candidate, Fits, SetSum;
    }
  }

  lemma {:induction false} NotHigherThanSelf(f: FeeFrac)
    ensures !Higher(f, f)
  {
  }

  lemma {:induction false} IncIsBest(g: Graph, todo: set<nat>, inc: SetInfo)
    requires Sized(g) && todo <= g.used && TopoSet(g, todo, inc.transactions) && inc.transactions != {}
      && Consistent(g, inc)
    ensures ValidBest(g, todo, inc) && inc.feerate.size > 0
  {
    CandidateSize(g, todo, inc.transactions);
  }

  /** Trim `imp` after `best` improved. */
  method ImpAfter(g: Graph, todo: set<nat>, best0: SetInfo, best: SetInfo, imp0: set<nat>) returns (imp: set<nat>)
    requires SearchGraph(g, todo) && ValidBest(g, todo, best0) && ValidBest(g, todo, best)
    requires IsImp(g, todo, best0.feerate, imp0) && !Higher(best0.feerate, best.feerate)
    ensures IsImp(g, todo, best.feerate, imp)
  {
    CandidateSize(g, todo, best0.transactions);
    CandidateSize(g, todo, best.transactions);
    forall i | i in todo && Higher(g.Rate(i), best.feerate) ensures i in imp0 {
      HigherTrans(g.Rate(i), best.feerate, best0.feerate);
    }
    imp := TrimImp(g, todo, imp0, best.feerate);
  }

  /** When all of `pot` is included, no candidate of the item beats the updated `best`. */
  lemma {:induction false} NothingLeft(g: Graph, todo: set<nat>, best0: FeeFrac, best: FeeFrac, inc0: set<nat>,
                                       und: set<nat>,
                                       pot: SetInfo, inc: SetInfo, queue: seq<WorkItem>)
    requires Sized(g) && todo <= g.used && best0.size > 0 && best.size > 0
    requires !Higher(best0, best) && !Higher(inc.feerate, best)
    requires PotBound(g, inc0, und, pot.feerate, best0) && Consistent(g, pot) && Consistent(g, inc)
    requires inc.transactions <= pot.transactions <= todo && inc.transactions != {}
    requires pot.feerate.size == inc.feerate.size
    ensures Handled(g, todo, best, inc0, und, queue, queue)
  {
    SameSize(g, inc.transactions, pot.transactions);
    SetSumSize(g, inc.transactions);
    hide SetSum, Sized;
    forall x | Candidate(g, todo, x) && Fits(inc0, und, x) ensures !Higher(SetSum(g, x), best) {
      CandidateSize(g, todo, x);
      HigherTrans(SetSum(g, x), pot.feerate, best);
      HigherTrans(SetSum(g, x), best0, best);
    }
  }

  /** The item built by `add_fn` is well-formed and reaches everything worth reaching. */
  lemma {:induction false} ItemAdded(g: Graph, todo: set<nat>, best0: FeeFrac, best: FeeFrac, imp: set<nat>,
                                     inc0: SetInfo,
                                     und0: set<nat>, pot: SetInfo, it: WorkItem, queue: seq<WorkItem>)
    requires Sized(g) && todo <= g.used && best0.size > 0 && best.size > 0 && imp <= todo
    requires !Higher(best0, best) && !Higher(it.inc.feerate, best)
    requires ItemSets(g, todo, inc0, und0) && inc0.transactions != {}
    requires IsPot(g, inc0.transactions, und0, imp, pot) && pot.feerate.size > 0
    requires PotBound(g, inc0.transactions, und0, pot.feerate, best0)
    requires inc0.transactions <= it.inc.transactions <= pot.transactions && TopoSet(g, todo, it.inc.transactions)
    requires it.und == und0 - it.inc.transactions && it.pot == pot.feerate && Consistent(g, it.inc)
    requires it.inc.feerate.size != pot.feerate.size
    ensures ItemOk(g, todo, best, it) && und0 != {}
    ensures Handled(g, todo, best, inc0.transactions, und0, queue, queue + [it])
  {
    var a, more := inc0.transactions, it.inc.transactions;
    assert more + it.und == a + und0;
    assert it.und != {} by {
      assert pot.transactions != more;
      var z :| z in pot.transactions && z !in more;
      assert z in it.und;
    }
    forall x | Fits(more, it.und, x) ensures !Higher(SetSum(g, x), it.pot) || !Higher(SetSum(g, x), best) {
      SetSumSize(g, x);
      HigherTrans(SetSum(g, x), best0, best);
      assert Fits(a, und0, x);
    }
    forall x | Candidate(g, todo, x) && Fits(a, und0, x) && Higher(SetSum(g, x), best)
      ensures Reaches(g, todo, it, x)
    {
      CandidateSize(g, todo, x);
      HigherTrans(SetSum(g, x), best, best0);
      JumpAhead(g, todo, best0, imp, a, und0, pot, more, x);
    }
  }

  /** The potential set of an item, and its included set after jumping ahead. */
  ghost predicate Extended(g: Graph, todo: set<nat>, best: FeeFrac, imp: set<nat>, inc0: SetInfo, und: set<nat>,
                           pot: SetInfo, inc: SetInfo) {
    && IsPot(g, inc0.transactions, und, imp, pot) && Consistent(g, pot)
    && pot.feerate.size > 0 && pot.transactions <= todo
    && PotBound(g, inc0.transactions, und, pot.feerate, best)
    && inc0.transactions <= inc.transactions <= pot.transactions && inc.transactions != {}
    && TopoSet(g, todo, inc.transactions) && Consistent(g, inc)
  }

  method ExtendInc(g: Graph, todo: set<nat>, best: SetInfo, imp: set<nat>, inc0: SetInfo, und: set<nat>)
    returns (pot: SetInfo, inc: SetInfo)
    requires SearchGraph(g, todo) && ValidBest(g, todo, best) && IsImp(g, todo, best.feerate, imp)
    requires ItemSets(g, todo, inc0, und) && inc0.transactions != {}
    ensures Extended(g, todo, best.feerate, imp, inc0, und, pot, inc)
  {
    assert inc0.transactions + und <= todo && imp <= todo;
    CandidateSize(g, todo, best.transactions);
    assert Sized(g);
    hide WellFormed, Sized, SetSum, PotBound, IsImp, SortedByFeerate, Candidate;
    pot := ComputePot(g, todo, imp, inc0, und);
    PotBoundHolds(g, todo, best.feerate, imp, inc0.transactions, und, pot);
    assert pot.transactions <= todo;
    var more := Jump(g, todo, inc0.transactions, pot.transactions);
    var extra := FeeRate(g, more - inc0.transactions);
    SetSumUnion(g, inc0.transactions, more - inc0.transactions);
    assert inc0.transactions + (more - inc0.transactions) == more;
    inc := SetInfo(more, inc0.feerate.Add(extra));
  }

  /** `best` and `imp` after considering the included set of an item. */
  method UpdateBest(g: Graph, todo: set<nat>, best0: SetInfo, imp0: set<nat>, inc: SetInfo)
    returns (best: SetInfo, imp: set<nat>)
    requires SearchGraph(g, todo) && ValidBest(g, todo, best0) && IsImp(g, todo, best0.feerate, imp0)
    requires ValidBest(g, todo, inc)
    ensures ValidBest(g, todo, best) && IsImp(g, todo, best.feerate, imp)
    ensures AtLeast(best.feerate, best0.feerate)
    ensures !Higher(best0.feerate, best.feerate) && !Higher(inc.feerate, best.feerate)
  {
    hide SearchGraph, ValidBest, IsImp;
    best, imp := best0, imp0;
    BetterOrder(best.feerate, best.feerate, best.feerate);
    BetterIsNotLower(inc.feerate, best.feerate);
    NotHigherThanSelf(inc.feerate);
    NotHigherThanSelf(best.feerate);
    hide Better, Higher;
    if Better(inc.feerate, best.feerate) {
      best := inc;
      imp := ImpAfter(g, todo, best0, best, imp);
    }
  }

  /** The case of `add_fn` where the included set is not empty. */
  method AddNonEmpty(g: Graph, todo: set<nat>, capacity: nat, best0: SetInfo, imp0: set<nat>, queue0: seq<WorkItem>,
                     inc0: SetInfo, und0: set<nat>)
    returns (best: SetInfo, imp: set<nat>, queue: seq<WorkItem>)
    requires SearchGraph(g, todo) && ValidBest(g, todo, best0) && IsImp(g, todo, best0.feerate, imp0)
    requires ItemSets(g, todo, inc0, und0) && inc0.transactions != {} && |queue0| + |und0| <= capacity
    ensures ValidBest(g, todo, best) && IsImp(g, todo, best.feerate, imp) && AtLeast(best.feerate, best0.feerate)
    ensures Extends(g, todo, best.feerate, und0, queue0, queue)
    ensures Handled(g, todo, best.feerate, inc0.transactions, und0, queue0, queue)
  {
    hide WellFormed, SortedByFeerate, SetSum, Higher, Better, PotBound, IsPot, TopoSet, ItemOk, Handled, Extends;
    var pot, inc := ExtendInc(g, todo, best0, imp0, inc0, und0);
    NewBest(g, todo, best0, imp0, inc);
    best, imp := UpdateBest(g, todo, best0, imp0, inc);
    NewBest(g, todo, best, imp, inc);
    queue := queue0;
    hide ValidBest, IsImp, SearchGraph, Sized, ItemSets;
    if pot.feerate.size == inc.feerate.size {
      NothingLeft(g, todo, best0.feerate, best.feerate, inc0.transactions, und0, pot, inc, queue);
      QueueSame(g, todo, best.feerate, und0, queue);
    } else {
      var it := WorkItem(inc, und0 - inc.transactions, pot.feerate);
      ItemAdded(g, todo, best0.feerate, best.feerate, imp0, inc0, und0, pot, it, queue);
      assert |queue| < capacity;
      queue := queue + [it];
      QueueOneMore(g, todo, best.feerate, und0, queue0, it);
    }
  }

  lemma {:induction false} QueueOneMore(g: Graph, todo: set<nat>, best: FeeFrac, und: set<nat>, queue: seq<WorkItem>,
                                        it: WorkItem)
    requires ItemOk(g, todo, best, it) && it.und <= und
    ensures Extends(g, todo, best, und, queue, queue + [it])
  {
    hide ItemOk;
  }

  /** Facts about an extended item and a valid best, gathered for `AddNonEmpty`. */
  lemma {:induction false} NewBest(g: Graph, todo: set<nat>, best: SetInfo, imp: set<nat>, inc: SetInfo)
    requires SearchGraph(g, todo) && ValidBest(g, todo, best) && IsImp(g, todo, best.feerate, imp)
    requires inc.transactions != {} && TopoSet(g, todo, inc.transactions) && Consistent(g, inc)
    ensures ValidBest(g, todo, inc) && imp <= todo && Sized(g) && todo <= g.used && best.feerate.size > 0
  {
    CandidateSize(g, todo, best.transactions);
  }

  lemma {:induction false} QueueSame(g: Graph, todo: set<nat>, best: FeeFrac, und: set<nat>, queue: seq<WorkItem>)
    ensures Extends(g, todo, best, und, queue, queue)
  {
  }

  // ---------------------------------------------------------------- splitting an item

  lemma {:induction false} Pow2Grows(a: nat, b: nat)
    requires a <= b
    ensures 1 <= Pow2(a) <= Pow2(b)
    ensures a < b ==> 2 * Pow2(a) <= Pow2(b)
  {
    if a < b { Pow2Grows(a, b - 1); } else if a > 0 { Pow2Grows(a - 1, a - 1); }
  }

  /** How much is left undecided by including, and by excluding, `t`. */
  function SplitCost(g: Graph, und: set<nat>, t: nat): nat {
    Pow2(|und - g.Anc(t)|) + Pow2(|und - g.Desc(t)|)
  }

  /** Comparing pairs (larger, smaller) lexicographically compares the sums of powers of two. */
  lemma {:induction false} PairOrder(a: nat, b: nat, c: nat, d: nat)
    requires a >= b && c >= d
    ensures a < c || (a == c && b < d) <==> Pow2(a) + Pow2(b) < Pow2(c) + Pow2(d)
  {
    if a < c {
      Pow2Grows(a, c); Pow2Grows(b, a); Pow2Grows(0, d);
    } else if c < a {
      Pow2Grows(c, a); Pow2Grows(d, c); Pow2Grows(0, b);
    } else if b < d {
      Pow2Grows(b, d);
    } else {
      Pow2Grows(d, b);
    }
  }

  /** The split transaction minimises 2^I(t) + 2^E(t), the earliest one among equals. */
  method ChooseSplit(g: Graph, und: set<nat>, select: set<nat>) returns (split: nat)
    requires select != {} && select <= und
    ensures split in select
    ensures forall t :: t in select ==> SplitCost(g, und, split) <= SplitCost(g, und, t)
    ensures forall t :: t in select && SplitCost(g, und, t) == SplitCost(g, und, split) ==> split <= t
  {
    hide Pow2, SplitCost;
    split := First(select);
    var hi, lo := Counts(g, und, split);
    var rest := select - {split};
    while rest != {}
      invariant split in select && rest <= select
      invariant hi >= lo && Pow2(hi) + Pow2(lo) == SplitCost(g, und, split)
      invariant forall t :: t in rest ==> split < t
      invariant forall t :: t in select && t !in rest ==> SplitCost(g, und, split) <= SplitCost(g, und, t)
      invariant forall t :: t in select && t !in rest && SplitCost(g, und, t) == SplitCost(g, und, split) ==> split <= t
      decreases rest
    {
      var t := First(rest);
      rest := rest - {t};
      var h, l := Counts(g, und, t);
      PairOrder(h, l, hi, lo);
      if h < hi || (h == hi && l < lo) {
        split, hi, lo := t, h, l;
      }
    }
  }

  method Counts(g: Graph, und: set<nat>, t: nat) returns (hi: nat, lo: nat)
    ensures hi >= lo && Pow2(hi) + Pow2(lo) == SplitCost(g, und, t)
  {
    hi, lo := |und - g.Anc(t)|, |und - g.Desc(t)|;
    if hi < lo { hi, lo := lo, hi; }
  }

  /** Every candidate better than `best` is reached from the queue or from `elem`. */
  ghost predicate AliveWith(g: Graph, todo: set<nat>, best: FeeFrac, queue: seq<WorkItem>, elem: WorkItem) {
    forall x :: Candidate(g, todo, x) && Higher(SetSum(g, x), best) ==>
      Reachable(g, todo, queue, x) || Reaches(g, todo, elem, x)
  }

  /** Processing the item at index k can add at most |und| - 1 items. */
  ghost predicate Room(capacity: nat, queue: seq<WorkItem>) {
    forall k :: 0 <= k < |queue| ==> k + |queue[k].und| <= capacity
  }

  ghost function Work(queue: seq<WorkItem>): nat {
    if queue == [] then 0 else
    Pow2Grows(0, |queue[|queue| - 1].und|);
    Work(queue[..|queue| - 1]) + (Pow2(|queue[|queue| - 1].und|) - 1)
  }

  /** Nothing compatible with the item beats `best`. */
  ghost predicate Hopeless(g: Graph, todo: set<nat>, best: FeeFrac, elem: WorkItem) {
    forall x :: Candidate(g, todo, x) && Fits(elem.inc.transactions, elem.und, x) ==> !Higher(SetSum(g, x), best)
  }

  /** Discarding a hopeless item loses nothing. */
  lemma {:induction false} DropHopeless(g: Graph, todo: set<nat>, best: FeeFrac, queue: seq<WorkItem>, elem: WorkItem)
    requires Sized(g) && todo <= g.used && best.size > 0
    requires Hopeless(g, todo, best, elem) && AliveWith(g, todo, best, queue, elem)
    ensures Alive(g, todo, best, queue)
  {
    forall x | Candidate(g, todo, x) && Higher(SetSum(g, x), best) ensures Reachable(g, todo, queue, x) {
      if Reaches(g, todo, elem, x) {
        NotReached(g, todo, best, elem, x);
      }
    }
  }

  lemma {:induction false} NotReached(g: Graph, todo: set<nat>, best: FeeFrac, elem: WorkItem, x: set<nat>)
    requires Sized(g) && todo <= g.used && best.size > 0
    requires Hopeless(g, todo, best, elem) && Candidate(g, todo, x) && Reaches(g, todo, elem, x)
    ensures !Higher(SetSum(g, x), best)
  {
    var y :| Candidate(g, todo, y) && Fits(elem.inc.transactions, elem.und, y) && !Higher(SetSum(g, x), SetSum(g, y));
    CandidateSize(g, todo, x);
    CandidateSize(g, todo, y);
    HigherTrans(SetSum(g, x), SetSum(g, y), best);
  }

  /** `split_fn`, first half: may the item be discarded? */
  method Prune(g: Graph, todo: set<nat>, best: SetInfo, imp: set<nat>, elem: WorkItem) returns (drop: bool)
    requires SearchGraph(g, todo) && ValidBest(g, todo, best) && IsImp(g, todo, best.feerate, imp)
    requires ItemOk(g, todo, best.feerate, elem)
    ensures drop ==> Hopeless(g, todo, best.feerate, elem)
  {
    if elem.inc.transactions != {} {
      if elem.und !! imp {
        PruneNoImp(g, todo, best.feerate, imp, elem);
        return true;
      }
      if !Better(elem.pot, best.feerate) {
        PrunePot(g, todo, best, elem);
        return true;
      }
    } else if !Better(g.Rate(First(elem.und)), best.feerate) {
      CandidateSize(g, todo, best.transactions);
      PruneFirst(g, todo, best.feerate, elem);
      return true;
    }
    return false;
  }

  lemma {:induction false} PruneNoImp(g: Graph, todo: set<nat>, best: FeeFrac, imp: set<nat>, elem: WorkItem)
    requires IsImp(g, todo, best, imp) && ItemOk(g, todo, best, elem)
    requires elem.inc.transactions != {} && elem.und !! imp
    ensures Hopeless(g, todo, best, elem)
  {
    var inc := elem.inc.transactions;
    forall i | i in elem.und ensures Excess(best, g.Rate(i)) <= 0 {
      assert i !in imp && i in todo;
    }
    hide SetSum, IsImp;
    forall x | Candidate(g, todo, x) && Fits(inc, elem.und, x) ensures !Higher(SetSum(g, x), best) {
      WeightUpper(g, best, x - inc);
      SetWeightSplit(g, best, x, inc);
      assert x * inc == inc;
    }
  }

  lemma {:induction false} PrunePot(g: Graph, todo: set<nat>, best: SetInfo, elem: WorkItem)
    requires Sized(g) && todo <= g.used && ValidBest(g, todo, best) && ItemOk(g, todo, best.feerate, elem)
    requires elem.inc.transactions != {} && !Better(elem.pot, best.feerate)
    ensures Hopeless(g, todo, best.feerate, elem)
  {
    CandidateSize(g, todo, best.transactions);
    BetterIsNotLower(elem.pot, best.feerate);
    hide SetSum, Sized;
    forall x | Candidate(g, todo, x) && Fits(elem.inc.transactions, elem.und, x)
      ensures !Higher(SetSum(g, x), best.feerate)
    {
      CandidateSize(g, todo, x);
      HigherTrans(SetSum(g, x), elem.pot, best.feerate);
    }
  }

  lemma {:induction false} PruneFirst(g: Graph, todo: set<nat>, best: FeeFrac, elem: WorkItem)
    requires SearchGraph(g, todo) && best.size > 0 && ItemOk(g, todo, best, elem)
    requires elem.inc.transactions == {} && !Better(g.Rate(First(elem.und)), best)
    ensures Hopeless(g, todo, best, elem)
  {
    var first := First(elem.und);
    BetterIsNotLower(g.Rate(first), best);
    assert elem.und <= todo by { assert elem.inc.transactions + elem.und == elem.und; }
    forall i | i in elem.und ensures Excess(best, g.Rate(i)) <= 0 {
      if i != first { HigherTrans(g.Rate(i), g.Rate(first), best); }
    }
    hide SetSum, WellFormed;
    forall x | Candidate(g, todo, x) && Fits({}, elem.und, x) ensures !Higher(SetSum(g, x), best) {
      WeightUpper(g, best, x);
    }
  }

  /** Candidates of an item are handed over to its two halves. */
  lemma {:induction false} SplitAlive(g: Graph, todo: set<nat>, best0: FeeFrac, best1: FeeFrac, best2: FeeFrac,
                                      q0: seq<WorkItem>, q1: seq<WorkItem>, q2: seq<WorkItem>, elem: WorkItem, t: nat)
    requires WellFormed(g) && todo <= g.used && best0.size > 0 && best1.size > 0 && best2.size > 0
    requires !Higher(best0, best1) && !Higher(best1, best2)
    requires ItemOk(g, todo, best0, elem) && t in elem.und && AliveWith(g, todo, best0, q0, elem)
    requires Extends(g, todo, best1, elem.und - g.Desc(t), q0, q1)
    requires Extends(g, todo, best2, elem.und - (g.Anc(t) * todo), q1, q2)
    requires Handled(g, todo, best1, elem.inc.transactions, elem.und - g.Desc(t), q0, q1)
    requires Handled(g, todo, best2, elem.inc.transactions + (g.Anc(t) * todo), elem.und - (g.Anc(t) * todo), q1, q2)
    ensures Alive(g, todo, best2, q2)
  {
    assert Sized(g);
    assert t in elem.inc.transactions + elem.und;
    ExtendsIsPrefix(g, todo, best1, elem.und - g.Desc(t), q0, q1);
    ExtendsIsPrefix(g, todo, best2, elem.und - (g.Anc(t) * todo), q1, q2);
    hide WellFormed, ItemOk, Extends, SetSum, Higher, Sized;
    forall x | Candidate(g, todo, x) && Higher(SetSum(g, x), best2) ensures Reachable(g, todo, q2, x) {
      CandidateSize(g, todo, x);
      HigherTrans(SetSum(g, x), best2, best1);
      HigherTrans(SetSum(g, x), best1, best0);
      if Reachable(g, todo, q0, x) {
        ReachablePrefix(g, todo, q0, q1, x);
        ReachablePrefix(g, todo, q1, q2, x);
      } else {
        hide Handled, Reachable, AliveWith;
        SplitReaches(g, todo, best1, best2, q0, q1, q2, elem, t, x);
      }
    }
  }

  lemma {:induction false} ExtendsIsPrefix(g: Graph, todo: set<nat>, best: FeeFrac, und: set<nat>, q0: seq<WorkItem>,
                                           q1: seq<WorkItem>)
    requires Extends(g, todo, best, und, q0, q1)
    ensures |q0| <= |q1| && q1[..|q0|] == q0
  {
    if q1 == q0 { assert q1[..|q0|] == q0; }
  }

  lemma {:induction false} ReachablePrefix(g: Graph, todo: set<nat>, q0: seq<WorkItem>, q1: seq<WorkItem>, x: set<nat>)
    requires Reachable(g, todo, q0, x) && |q0| <= |q1| && q1[..|q0|] == q0
    ensures Reachable(g, todo, q1, x)
  {
    var k :| 0 <= k < |q0| && Reaches(g, todo, q0[k], x);
    assert q1[k] == q1[..|q0|][k];
  }

  lemma {:induction false} SplitReaches(g: Graph, todo: set<nat>, best1: FeeFrac, best2: FeeFrac,
                                        q0: seq<WorkItem>, q1: seq<WorkItem>, q2: seq<WorkItem>, elem: WorkItem,
                                          t: nat, x: set<nat>)
    requires WellFormed(g) && todo <= g.used && best1.size > 0 && best2.size > 0
    requires t in elem.und && t in todo
    requires |q0| <= |q1| <= |q2| && q2[..|q1|] == q1
    requires !Higher(best1, best2) && Candidate(g, todo, x) && Higher(SetSum(g, x), best2) && Reaches(g, todo, elem, x)
    requires Handled(g, todo, best1, elem.inc.transactions, elem.und - g.Desc(t), q0, q1)
    requires Handled(g, todo, best2, elem.inc.transactions + (g.Anc(t) * todo), elem.und - (g.Anc(t) * todo), q1, q2)
    ensures Reachable(g, todo, q2, x)
  {
    var inc, und := elem.inc.transactions, elem.und;
    var y :| Candidate(g, todo, y) && Fits(inc, und, y) && !Higher(SetSum(g, x), SetSum(g, y));
    CandidateSize(g, todo, x);
    CandidateSize(g, todo, y);
    SplitCases(g, todo, inc, und, t, y);
    HigherTrans(SetSum(g, y), SetSum(g, x), best2);
    HigherTrans(SetSum(g, y), best2, best1);
    hide WellFormed, SetSum, Higher;
    if t in y {
      ReachesTrans(g, todo, q2[|q1|], x, y);
    } else {
      ReachesTrans(g, todo, q1[|q0|], x, y);
      assert q2[|q0|] == q2[..|q1|][|q0|];
    }
  }

  lemma {:induction false} ReachesTrans(g: Graph, todo: set<nat>, it: WorkItem, x: set<nat>, y: set<nat>)
    requires Sized(g) && todo <= g.used && Candidate(g, todo, x) && Candidate(g, todo, y)
    requires !Higher(SetSum(g, x), SetSum(g, y)) && Reaches(g, todo, it, y)
    ensures Reaches(g, todo, it, x)
  {
    var z :| Candidate(g, todo, z) && Fits(it.inc.transactions, it.und, z) && !Higher(SetSum(g, y), SetSum(g, z));
    CandidateSize(g, todo, x);
    CandidateSize(g, todo, y);
    CandidateSize(g, todo, z);
    HigherTrans(SetSum(g, x), SetSum(g, y), SetSum(g, z));
  }

  // ---------------------------------------------------------------- the work queue

  lemma {:induction false} WorkConcat(a: seq<WorkItem>, b: seq<WorkItem>)
    ensures Work(a + b) == Work(a) + Work(b)
  {
    if b == [] {
      assert a + b == a;
    } else {
      assert (a + b)[..|a + b| - 1] == a + b[..|b| - 1];
      WorkConcat(a, b[..|b| - 1]);
    }
  }

  lemma {:induction false} WorkOne(it: WorkItem)
    ensures Work([it]) == Pow2(|it.und|) - 1
    ensures it.und != {} ==> Work([it]) >= 1
  {
    assert [it][..0] == [];
    Pow2Grows(0, |it.und|);
    if it.und != {} { Pow2Grows(0, |it.und|); }
  }

  lemma {:induction false} ExtendWork(g: Graph, todo: set<nat>, best: FeeFrac, und: set<nat>, q0: seq<WorkItem>,
                                      q1: seq<WorkItem>, capacity: nat)
    requires Extends(g, todo, best, und, q0, q1) && Room(capacity, q0) && |q0| + |und| <= capacity
    ensures Work(q1) <= Work(q0) + Pow2(|und|) - 1
    ensures Room(capacity, q1) && |q1| <= |q0| + 1
    ensures forall k :: |q0| <= k < |q1| ==> ItemOk(g, todo, best, q1[k])
  {
    Pow2Grows(0, |und|);
    if q1 != q0 {
      var it := q1[|q0|];
      assert q1 == q0 + [it];
      WorkConcat(q0, [it]);
      WorkOne(it);
      SubsetCard(it.und, und);
      Pow2Grows(|it.und|, |und|);
      hide ItemOk, Work;
      forall k | 0 <= k < |q1| ensures k + |q1[k].und| <= capacity {
        if k < |q0| { assert q1[k] == q0[k]; }
      }
    }
  }

  /** The two halves of a split have strictly fewer undecided transactions. */
  lemma {:induction false} SplitWork(und: set<nat>, a: set<nat>, b: set<nat>)
    requires a < und && b < und
    ensures |a| < |und| && |b| < |und|
    ensures (Pow2(|a|) - 1) + (Pow2(|b|) - 1) + 1 <= Pow2(|und|) - 1
  {
    SubsetCard(a, und);
    SubsetCard(b, und);
    Pow2Grows(|a|, |und|);
    Pow2Grows(|b|, |und|);
  }

  lemma {:induction false} QueueOkAppend(g: Graph, todo: set<nat>, best: FeeFrac, q0: seq<WorkItem>, q1: seq<WorkItem>)
    requires QueueOk(g, todo, best, q0) && |q0| <= |q1| && q1[..|q0|] == q0
    requires forall k :: |q0| <= k < |q1| ==> ItemOk(g, todo, best, q1[k])
    ensures QueueOk(g, todo, best, q1)
  {
    hide ItemOk;
    forall k | 0 <= k < |q1| ensures ItemOk(g, todo, best, q1[k]) {
      if k < |q0| { assert q1[k] == q1[..|q0|][k]; }
    }
  }

  lemma {:induction false} NotHigher(g: Graph, todo: set<nat>, best0: SetInfo, best: SetInfo)
    requires Sized(g) && todo <= g.used && ValidBest(g, todo, best0) && ValidBest(g, todo, best)
    requires AtLeast(best.feerate, best0.feerate)
    ensures !Higher(best0.feerate, best.feerate) && best0.feerate.size > 0 && best.feerate.size > 0
  {
    CandidateSize(g, todo, best0.transactions);
    CandidateSize(g, todo, best.transactions);
    BetterIsNotLower(best0.feerate, best.feerate);
  }

  /** Everything the work loop maintains about best, imp and the queue. */
  ghost predicate State(g: Graph, todo: set<nat>, capacity: nat, best: SetInfo, imp: set<nat>, queue: seq<WorkItem>) {
    && ValidBest(g, todo, best) && IsImp(g, todo, best.feerate, imp)
    && QueueOk(g, todo, best.feerate, queue) && Alive(g, todo, best.feerate, queue)
    && Room(capacity, queue)
  }

  /** The same with one item taken off the queue. */
  ghost predicate StateWith(g: Graph, todo: set<nat>, capacity: nat, best: SetInfo, imp: set<nat>,
                            queue: seq<WorkItem>, elem: WorkItem) {
    && ValidBest(g, todo, best) && IsImp(g, todo, best.feerate, imp)
    && QueueOk(g, todo, best.feerate, queue) && ItemOk(g, todo, best.feerate, elem)
    && AliveWith(g, todo, best.feerate, queue, elem)
    && Room(capacity, queue) && |queue| + |elem.und| <= capacity
  }

  /** `SetInfo::Add`. */
  method IncludeSet(g: Graph, inc: SetInfo, txn: set<nat>) returns (r: SetInfo)
    requires Consistent(g, inc)
    ensures r.transactions == inc.transactions + txn && Consistent(g, r)
  {
    hide SetSum;
    var extra := FeeRate(g, txn - inc.transactions);
    SetSumUnion(g, inc.transactions, txn - inc.transactions);
    assert inc.transactions + (txn - inc.transactions) == inc.transactions + txn;
    r := SetInfo(inc.transactions + txn, inc.feerate.Add(extra));
  }

  lemma {:induction false} ItemConsistent(g: Graph, todo: set<nat>, best: FeeFrac, elem: WorkItem)
    requires ItemOk(g, todo, best, elem)
    ensures Consistent(g, elem.inc)
  {
  }

  lemma {:induction false} HalvesOk(g: Graph, todo: set<nat>, best: FeeFrac, elem: WorkItem, split: nat, incl: SetInfo)
    requires WellFormed(g) && todo <= g.used && ItemOk(g, todo, best, elem) && split in elem.und
    requires incl.transactions == elem.inc.transactions + (g.Anc(split) * todo) && Consistent(g, incl)
    ensures var und := elem.und; var anc := g.Anc(split) * todo; var desc := g.Desc(split);
            && Consistent(g, elem.inc)
            && ItemSets(g, todo, elem.inc, und - desc) && ItemSets(g, todo, incl, und - anc)
            && |und - desc| < |und| && |und - anc| < |und|
            && (Pow2(|und - desc|) - 1) + (Pow2(|und - anc|) - 1) + 1 <= Pow2(|und|) - 1
  {
    var und := elem.und; var anc := g.Anc(split) * todo; var desc := g.Desc(split);
    ExcludeTopo(g, todo, elem.inc.transactions, und, split);
    IncludeTopo(g, todo, elem.inc.transactions, und, split);
    SplitWork(und, und - desc, und - anc);
  }

  /** The two additions made when an item is split. */
  method AddHalves(g: Graph, todo: set<nat>, capacity: nat, best0: SetInfo, imp0: set<nat>, q0: seq<WorkItem>,
                   elem: WorkItem, split: nat)
    returns (best: SetInfo, imp: set<nat>, queue: seq<WorkItem>)
    requires SearchGraph(g, todo) && StateWith(g, todo, capacity, best0, imp0, q0, elem) && split in elem.und
    ensures State(g, todo, capacity, best, imp, queue) && AtLeast(best.feerate, best0.feerate)
    ensures Work(queue) + 1 <= Work(q0) + Pow2(|elem.und|) - 1 && |queue| >= |q0|
  {
    assert Sized(g) && todo <= g.used && WellFormed(g);
    hide SearchGraph, WellFormed, Sized, ValidBest, IsImp, ItemSets, Extends, Handled, ItemOk, Alive, AliveWith,
         QueueOk,
         Room, Work, Pow2, SetSum, AtLeast, Higher, TopoSet, Graph.Anc, Graph.Desc;
    var inc, und := elem.inc, elem.und;
    var anc, desc := g.Anc(split) * todo, g.Desc(split);
    ItemConsistent(g, todo, best0.feerate, elem);
    var incl := IncludeSet(g, inc, anc);
    HalvesOk(g, todo, best0.feerate, elem, split, incl);
    // exclusion of the split transaction
    var best1, imp1, q1 := AddItem(g, todo, capacity, best0, imp0, q0, inc, und - desc);
    NotHigher(g, todo, best0, best1);
    ExtendWork(g, todo, best1.feerate, und - desc, q0, q1, capacity);
    ExtendsIsPrefix(g, todo, best1.feerate, und - desc, q0, q1);
    QueueStaysOk(g, todo, best0.feerate, best1.feerate, q0);
    QueueOkAppend(g, todo, best1.feerate, q0, q1);
    // inclusion of the split transaction
    best, imp, queue := AddItem(g, todo, capacity, best1, imp1, q1, incl, und - anc);
    NotHigher(g, todo, best1, best);
    ExtendWork(g, todo, best.feerate, und - anc, q1, queue, capacity);
    ExtendsIsPrefix(g, todo, best.feerate, und - anc, q1, queue);
    QueueStaysOk(g, todo, best1.feerate, best.feerate, q1);
    QueueOkAppend(g, todo, best.feerate, q1, queue);
    SplitAlive(g, todo, best0.feerate, best1.feerate, best.feerate, q0, q1, queue, elem, split);
    AtLeastTrans(best.feerate, best1.feerate, best0.feerate);
  }

  /** `split_fn`: discard the item, or replace it by its two halves. */
  method SplitItem(g: Graph, todo: set<nat>, capacity: nat, best0: SetInfo, imp0: set<nat>, q0: seq<WorkItem>,
                   elem: WorkItem)
    returns (best: SetInfo, imp: set<nat>, queue: seq<WorkItem>, did: bool)
    requires SearchGraph(g, todo) && StateWith(g, todo, capacity, best0, imp0, q0, elem)
    ensures State(g, todo, capacity, best, imp, queue) && AtLeast(best.feerate, best0.feerate)
    ensures Work(queue) + (if did then 1 else 0) <= Work(q0) + Pow2(|elem.und|) - 1
    ensures Work(queue) < Work(q0) + Pow2(|elem.und|) - 1
    ensures |queue| >= |q0|
  {
    Pow2Grows(0, |elem.und|);
    Pow2Grows(1, |elem.und|);
    var drop := Prune(g, todo, best0, imp0, elem);
    if drop {
      best, imp, queue, did := best0, imp0, q0, false;
      CandidateSize(g, todo, best.transactions);
      DropHopeless(g, todo, best.feerate, queue, elem);
      BetterOrder(best.feerate, best.feerate, best.feerate);
    } else {
      var first := First(elem.und);
      var select := elem.und * g.Anc(first);
      assert first in select by { assert elem.und <= todo by { assert elem.und <= elem.inc.transactions + elem.und; } }
      var split := ChooseSplit(g, elem.und, select);
      best, imp, queue := AddHalves(g, todo, capacity, best0, imp0, q0, elem, split);
      did := true;
    }
  }

  // ---------------------------------------------------------------- the initial queue

  /** `x` is reached from the queue, or the part of it still to be covered is at least as good. */
  ghost predicate Pending(g: Graph, todo: set<nat>, queue: seq<WorkItem>, toCover: set<nat>, x: set<nat>) {
    Reachable(g, todo, queue, x) || (x * toCover != {} && !Higher(SetSum(g, x), SetSum(g, x * toCover)))
  }

  lemma {:induction false} SeparatedTopo(g: Graph, todo: set<nat>, c: set<nat>)
    requires Separated(g, todo, c)
    ensures TopoSet(g, todo, c)
  {
    forall i, j | i in c && j in g.Anc(i) && j in todo ensures j in c { assert Related(g, i, j); }
  }

  lemma {:induction false} SeparatedWithin(g: Graph, todo: set<nat>, toCover: set<nat>, c: set<nat>)
    requires Separated(g, todo, toCover) && Separated(g, toCover, c)
    ensures Separated(g, todo, c) && Separated(g, todo, toCover - c)
  {
    forall a, b | a in toCover - c && b in todo && Related(g, a, b) ensures b in toCover - c {
      assert Related(g, b, a);
    }
  }

  /** Queueing a component: a candidate keeps a good part either in it or in the remainder. */
  lemma {:induction false} PendingStep(g: Graph, todo: set<nat>, queue: seq<WorkItem>, toCover: set<nat>, it: WorkItem,
                                       x: set<nat>)
    requires Sized(g) && todo <= g.used && it.inc.transactions == {} && TopoSet(g, todo, it.und)
      && it.und <= toCover <= todo
    requires Candidate(g, todo, x) && Pending(g, todo, queue, toCover, x)
    ensures Pending(g, todo, queue + [it], toCover - it.und, x)
  {
    var q := queue + [it];
    if Reachable(g, todo, queue, x) {
      assert q[..|queue|] == queue;
      ReachablePrefix(g, todo, queue, q, x);
    } else {
      var y := x * toCover;
      var a, b := y * it.und, y - it.und;
      SetSumSize(g, a); SetSumSize(g, b); SetSumSize(g, y);
      SetSumSplit(g, y, it.und);
      CandidateSize(g, todo, x);
      GoodPart(SetSum(g, a), SetSum(g, b));
      assert b == x * (toCover - it.und);
      assert a == x * it.und;
      TopoIntersect(g, todo, x, it.und);
      if a != {} && !Higher(SetSum(g, y), SetSum(g, a)) {
        HigherTrans(SetSum(g, x), SetSum(g, y), SetSum(g, a));
        assert Reaches(g, todo, it, x) by { assert Candidate(g, todo, a) && Fits({}, it.und, a); }
        assert q[|queue|] == it;
      } else {
        assert b != {} && !Higher(SetSum(g, y), SetSum(g, b)) by { SizeNonEmpty(g, a); SizeNonEmpty(g, b); }
        HigherTrans(SetSum(g, x), SetSum(g, y), SetSum(g, b));
      }
    }
  }

  lemma {:induction false} SizeNonEmpty(g: Graph, s: set<nat>)
    ensures SetSum(g, s).size > 0 ==> s != {}
  {
  }

  lemma {:induction false} Pow2Sum(a: nat, b: nat)
    ensures (Pow2(a) - 1) + (Pow2(b) - 1) <= Pow2(a + b) - 1
  {
    if b == 0 {
    } else {
      Pow2Sum(a, b - 1);
      Pow2Grows(0, a);
    }
  }

  /** What the initial queue guarantees, independently of `best`. */
  ghost predicate Initial(g: Graph, todo: set<nat>, queue: seq<WorkItem>, toCover: set<nat>) {
    && Separated(g, todo, toCover)
    && (forall x :: Candidate(g, todo, x) ==> Pending(g, todo, queue, toCover, x))
    && (forall k :: 0 <= k < |queue| ==>
          queue[k].inc == SetInfo({}, EMPTY) && queue[k].und != {} && TopoSet(g, todo, queue[k].und))
    && |queue| + |toCover| <= |todo|
    && Work(queue) + Pow2(|toCover|) <= Pow2(|todo|)
  }

  lemma {:induction false} InitialStart(g: Graph, todo: set<nat>)
    requires Sized(g) && todo <= g.used
    ensures Initial(g, todo, [], todo)
  {
    hide SetSum;
    forall x | Candidate(g, todo, x) ensures Pending(g, todo, [], todo, x) {
      assert x * todo == x;
      NotHigherThanSelf(SetSum(g, x));
    }
  }

  lemma {:induction false} InitialStep(g: Graph, todo: set<nat>, queue: seq<WorkItem>, toCover: set<nat>,
                                       component: set<nat>)
    requires Sized(g) && todo <= g.used && Initial(g, todo, queue, toCover)
    requires Separated(g, toCover, component) && component != {}
    ensures Initial(g, todo, queue + [WorkItem(SetInfo({}, EMPTY), component, EMPTY)], toCover - component)
    ensures TopoSet(g, todo, component)
  {
    hide TopoSet, Work, Pow2, SetSum, Higher, Sized;
    var it := WorkItem(SetInfo({}, EMPTY), component, EMPTY);
    var q, rest := queue + [it], toCover - component;
    SeparatedWithin(g, todo, toCover, component);
    SeparatedTopo(g, todo, component);
    assert component <= toCover <= todo;
    InitialWork(queue, it, toCover);
    forall x | Candidate(g, todo, x) ensures Pending(g, todo, q, rest, x) {
      hide Candidate, Pending;
      PendingStep(g, todo, queue, toCover, it, x);
    }
  }

  /** One more item uses up as much of the bound as its component takes away. */
  lemma {:induction false} InitialWork(queue: seq<WorkItem>, it: WorkItem, toCover: set<nat>)
    requires it.und != {} && it.und <= toCover
    ensures |toCover - it.und| + 1 <= |toCover|
    ensures Work(queue + [it]) + Pow2(|toCover - it.und|) <= Work(queue) + Pow2(|toCover|)
  {
    hide Work, Pow2;
    var rest := toCover - it.und;
    WorkConcat(queue, [it]);
    WorkOne(it);
    assert toCover == rest + it.und;
    assert |toCover| == |rest| + |it.und|;
    Pow2Sum(|it.und|, |rest|);
    assert |it.und| + |rest| == |toCover|;
  }

  /** The connected components of `todo`, and a first `best` when none was given. */
  method InitQueue(g: Graph, todo: set<nat>, best0: SetInfo) returns (queue: seq<WorkItem>, best: SetInfo)
    requires WellFormed(g) && todo <= g.used && todo != {}
    requires best0 == SetInfo({}, EMPTY) || ValidBest(g, todo, best0)
    ensures ValidBest(g, todo, best) && (best0 != SetInfo({}, EMPTY) ==> best == best0)
    ensures Initial(g, todo, queue, {})
  {
    assert Sized(g);
    best := best0;
    if best0 != SetInfo({}, EMPTY) { CandidateSize(g, todo, best0.transactions); }
    queue := [];
    var toCover := todo;
    InitialStart(g, todo);
    hide Initial, WellFormed, Sized, SetSum;
    while toCover != {}
      invariant toCover <= todo && Initial(g, todo, queue, toCover)
      invariant (toCover == todo && best == best0) || (ValidBest(g, todo, best) && best.feerate.size > 0)
      invariant best0 != SetInfo({}, EMPTY) ==> best == best0 && ValidBest(g, todo, best) && best.feerate.size > 0
      decreases toCover
    {
      var component := FindConnectedComponent(g, toCover);
      InitialStep(g, todo, queue, toCover, component);
      if best.feerate.IsEmpty() {
        var rate := FeeRate(g, component);
        best := SetInfo(component, rate);
        IncIsBest(g, todo, best);
      }
      queue := queue + [WorkItem(SetInfo({}, EMPTY), component, EMPTY)];
      toCover := toCover - component;
    }
  }

  lemma {:induction false} InitialState(g: Graph, todo: set<nat>, capacity: nat, best: SetInfo, imp: set<nat>,
                                        queue: seq<WorkItem>)
    requires Sized(g) && todo <= g.used && Initial(g, todo, queue, {}) && capacity >= 2 * |todo|
    requires ValidBest(g, todo, best) && IsImp(g, todo, best.feerate, imp)
    ensures State(g, todo, capacity, best, imp, queue) && Work(queue) < Pow2(|todo|)
  {
    hide Work, SetSum, IsImp, ValidBest;
    forall k | 0 <= k < |queue|
      ensures ItemOk(g, todo, best.feerate, queue[k]) && k + |queue[k].und| <= capacity
    {
      CoverNothing(g);
      assert queue[k].inc.transactions + queue[k].und == queue[k].und;
      SubsetCard(queue[k].und, todo);
    }
    forall x | Candidate(g, todo, x) && Higher(SetSum(g, x), best.feerate) ensures Reachable(g, todo, queue, x) {
      assert Pending(g, todo, queue, {}, x);
    }
  }

  lemma {:induction false} CoverNothing(g: Graph)
    ensures SetSum(g, {}) == EMPTY
  {
  }

  /** Taking the item at index k off the queue. */
  lemma {:induction false} TakeItem(g: Graph, todo: set<nat>, capacity: nat, best: SetInfo, imp: set<nat>,
                                    queue: seq<WorkItem>, k: nat)
    requires State(g, todo, capacity, best, imp, queue) && k < |queue|
    requires |queue| - 1 + |queue[k].und| <= capacity
    ensures StateWith(g, todo, capacity, best, imp, queue[..k] + queue[k + 1..], queue[k])
    ensures Work(queue) == Work(queue[..k] + queue[k + 1..]) + Pow2(|queue[k].und|) - 1
  {
    hide Work, ItemOk, Candidate, SetSum, Higher, Reaches, IsImp, ValidBest, Pow2;
    TakeWork(queue, k);
    var elem, rest := queue[k], queue[..k] + queue[k + 1..];
    forall i | 0 <= i < |rest| ensures ItemOk(g, todo, best.feerate, rest[i]) && i + |rest[i].und| <= capacity {
      assert rest[i] == if i < k then queue[i] else queue[i + 1];
      var j := if i < k then i else i + 1;
      assert j + |queue[j].und| <= capacity;
    }
    forall x | Candidate(g, todo, x) && Higher(SetSum(g, x), best.feerate)
      ensures Reachable(g, todo, rest, x) || Reaches(g, todo, elem, x)
    {
      assert Reachable(g, todo, queue, x);
      var i :| 0 <= i < |queue| && Reaches(g, todo, queue[i], x);
      if i != k {
        var j := if i < k then i else i - 1;
        assert rest[j] == queue[i];
      }
    }
  }

  lemma {:induction false} TakeWork(queue: seq<WorkItem>, k: nat)
    requires k < |queue|
    ensures Work(queue) == Work(queue[..k] + queue[k + 1..]) + Pow2(|queue[k].und|) - 1
  {
    hide Work, Pow2;
    var elem := queue[k];
    assert queue == queue[..k] + [elem] + queue[k + 1..];
    WorkConcat(queue[..k] + [elem], queue[k + 1..]);
    WorkConcat(queue[..k], [elem]);
    WorkConcat(queue[..k], queue[k + 1..]);
    WorkOne(elem);
  }

  lemma {:induction false} SwapWork(queue: seq<WorkItem>)
    requires |queue| > 1
    ensures Work(queue[0 := queue[1]][1 := queue[0]]) == Work(queue)
  {
    hide Work;
    var a, b, t := [queue[0]], [queue[1]], queue[2..];
    assert queue == a + b + t;
    assert queue[0 := queue[1]][1 := queue[0]] == b + a + t;
    WorkConcat(a + b, t); WorkConcat(a, b); WorkConcat(b + a, t); WorkConcat(b, a);
  }

  /** Exchanging the first two items. */
  lemma {:induction false} SwapItems(g: Graph, todo: set<nat>, capacity: nat, best: SetInfo, imp: set<nat>,
                                     queue: seq<WorkItem>)
    requires State(g, todo, capacity, best, imp, queue) && |queue| > 1 && capacity > |todo|
    ensures State(g, todo, capacity, best, imp, queue[0 := queue[1]][1 := queue[0]])
    ensures Work(queue[0 := queue[1]][1 := queue[0]]) == Work(queue)
  {
    hide Work, ItemOk, Candidate, SetSum, Higher, Reaches, IsImp, ValidBest;
    SwapWork(queue);
    var q := queue[0 := queue[1]][1 := queue[0]];
    assert ItemOk(g, todo, best.feerate, queue[0]);
    UndSize(g, todo, best.feerate, queue[0]);
    forall i | 0 <= i < |q| ensures ItemOk(g, todo, best.feerate, q[i]) && i + |q[i].und| <= capacity {
      var j := if i == 0 then 1 else if i == 1 then 0 else i;
      assert q[i] == queue[j] && j + |queue[j].und| <= capacity;
    }
    forall x | Candidate(g, todo, x) && Higher(SetSum(g, x), best.feerate) ensures Reachable(g, todo, q, x) {
      assert Reachable(g, todo, queue, x);
      var i :| 0 <= i < |queue| && Reaches(g, todo, queue[i], x);
      var j := if i == 0 then 1 else if i == 1 then 0 else i;
      assert q[j] == queue[i];
    }
  }

  lemma {:induction false} UndSize(g: Graph, todo: set<nat>, best: FeeFrac, it: WorkItem)
    requires ItemOk(g, todo, best, it)
    ensures |it.und| <= |todo|
  {
    assert it.und <= it.inc.transactions + it.und;
    SubsetCard(it.und, todo);
  }

  /** Once the queue is empty, `best` has the highest feerate. */
  lemma {:induction false} Exhausted(g: Graph, todo: set<nat>, capacity: nat, best: SetInfo, imp: set<nat>)
    requires State(g, todo, capacity, best, imp, [])
    ensures HighestSet(g, todo, best.transactions)
  {
    hide SetSum;
    forall x | TopoSet(g, todo, x) && x != {} ensures !Higher(SetSum(g, x), best.feerate) {
      assert Candidate(g, todo, x);
      assert !Reachable(g, todo, [], x);
    }
  }

  /** The state before the first iteration. */
  method StartSearch(g: Graph, todo: set<nat>, capacity: nat, best0: SetInfo)
    returns (queue: seq<WorkItem>, best: SetInfo, imp: set<nat>)
    requires SearchGraph(g, todo) && todo != {} && capacity >= 2 * |todo|
    requires best0 == SetInfo({}, EMPTY) || ValidBest(g, todo, best0)
    ensures State(g, todo, capacity, best, imp, queue) && Work(queue) < Pow2(|todo|)
    ensures best.feerate.size > 0 && AtLeast(best.feerate, best.feerate)
    ensures best0 != SetInfo({}, EMPTY) ==> best == best0
  {
    queue, best := InitQueue(g, todo, best0);
    CandidateSize(g, todo, best.transactions);
    imp := TrimImp(g, todo, todo, best.feerate);
    assert Sized(g) && todo <= g.used;
    BetterOrder(best.feerate, best.feerate, best.feerate);
    hide *;
    InitialState(g, todo, capacity, best, imp, queue);
  }

  /** `FindCandidateSet` on a graph with sorted positions.  The order in which the first two items
      are taken is arbitrary. */
  method Search(g: Graph, todo: set<nat>, maxIterations: nat, best0: SetInfo) returns (best: SetInfo, iterations: nat)
    requires SearchGraph(g, todo) && todo != {}
    requires best0 == SetInfo({}, EMPTY) || ValidBest(g, todo, best0)
    ensures ValidBest(g, todo, best)
    ensures best0 != SetInfo({}, EMPTY) ==> AtLeast(best.feerate, best0.feerate)
    ensures iterations <= maxIterations && iterations < Pow2(|todo|)
    ensures iterations < maxIterations ==> HighestSet(g, todo, best.transactions)
  {
    hide SearchGraph, State, StateWith, Work, Pow2, AtLeast, WellFormed, Sized, ValidBest, HighestSet, Initial;
    var capacity := if 2 * |todo| < 256 then 256 else 2 * |todo|;
    var queue, imp;
    queue, best, imp := StartSearch(g, todo, capacity, best0);
    ghost var start := best;
    var iterationsLeft: nat := maxIterations;
    while queue != []
      invariant State(g, todo, capacity, best, imp, queue) && AtLeast(best.feerate, start.feerate)
      invariant iterationsLeft <= maxIterations && maxIterations - iterationsLeft + Work(queue) < Pow2(|todo|)
      invariant start.feerate.size > 0
      decreases Work(queue)
    {
      var swap: bool := *;
      if |queue| > 1 && swap {
        SwapItems(g, todo, capacity, best, imp, queue);
        queue := queue[0 := queue[1]][1 := queue[0]];
      }
      ghost var before := Work(queue);
      // depth-first while there is too little room to process the front item
      while |queue| - 1 + |queue[0].und| > capacity && iterationsLeft > 0
        invariant queue != [] && State(g, todo, capacity, best, imp, queue) && AtLeast(best.feerate, start.feerate)
        invariant iterationsLeft <= maxIterations && maxIterations - iterationsLeft + Work(queue) < Pow2(|todo|)
        invariant Work(queue) <= before
        decreases Work(queue)
      {
        var last := |queue| - 1;
        FrontFits(g, todo, capacity, best, imp, queue);
        best, imp, queue, iterationsLeft := Process(g, todo, capacity, best, imp, queue, last, iterationsLeft, start);
      }
      if iterationsLeft == 0 { break; }
      best, imp, queue, iterationsLeft := Process(g, todo, capacity, best, imp, queue, 0, iterationsLeft, start);
    }
    iterations := maxIterations - iterationsLeft;
    StateBest(g, todo, capacity, best, imp, queue);
    if iterations < maxIterations { Exhausted(g, todo, capacity, best, imp); }
  }

  /** A single item always fits, and the last item always does. */
  lemma {:induction false} FrontFits(g: Graph, todo: set<nat>, capacity: nat, best: SetInfo, imp: set<nat>,
                                     queue: seq<WorkItem>)
    requires State(g, todo, capacity, best, imp, queue) && queue != [] && capacity > |todo|
    ensures |queue| == 1 ==> |queue| - 1 + |queue[0].und| <= capacity
    ensures |queue| - 1 + |queue[|queue| - 1].und| <= capacity
  {
    assert ItemOk(g, todo, best.feerate, queue[0]);
    UndSize(g, todo, best.feerate, queue[0]);
    var k := |queue| - 1;
    assert k + |queue[k].und| <= capacity;
  }

  lemma {:induction false} StateBest(g: Graph, todo: set<nat>, capacity: nat, best: SetInfo, imp: set<nat>,
                                     queue: seq<WorkItem>)
    requires State(g, todo, capacity, best, imp, queue)
    ensures ValidBest(g, todo, best)
  {
  }

  /** Take the item at index k and split it, counting an iteration if it was not discarded. */
  method Process(g: Graph, todo: set<nat>, capacity: nat, best0: SetInfo, imp0: set<nat>, q0: seq<WorkItem>, k: nat,
                 left0: nat, ghost start: SetInfo)
    returns (best: SetInfo, imp: set<nat>, queue: seq<WorkItem>, left: nat)
    requires SearchGraph(g, todo) && State(g, todo, capacity, best0, imp0, q0) && k < |q0|
    requires |q0| - 1 + |q0[k].und| <= capacity && left0 > 0
    requires AtLeast(best0.feerate, start.feerate) && start.feerate.size > 0
    ensures State(g, todo, capacity, best, imp, queue) && AtLeast(best.feerate, start.feerate)
    ensures left <= left0 && (left0 - left) + Work(queue) <= Work(q0) && Work(queue) < Work(q0)
    ensures |q0| > 1 ==> queue != []
  {
    assert Sized(g) && todo <= g.used;
    TakeItem(g, todo, capacity, best0, imp0, q0, k);
    var elem := q0[k];
    StateBest(g, todo, capacity, best0, imp0, q0);
    hide SearchGraph, State, StateWith, Work, Pow2, AtLeast, WellFormed, Sized;
    var did;
    best, imp, queue, did := SplitItem(g, todo, capacity, best0, imp0, q0[..k] + q0[k + 1..], elem);
    left := if did then left0 - 1 else left0;
    StateBest(g, todo, capacity, best, imp, queue);
    CandidateSize(g, todo, best0.transactions);
    CandidateSize(g, todo, best.transactions);
    AtLeastTrans(best.feerate, best0.feerate, start.feerate);
  }
}
