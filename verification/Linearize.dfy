/** `Linearize`: find or improve a linearization. */
module Linearizing {
  import opened Powers
  import opened FeeFracs
  import opened Lists
  import opened DepGraphs
  import opened Diagrams
  import opened Chunks
  import opened Fronts
  import opened Chunkings
  import opened FeerateDiagram
  import opened Merging
  import opened SearchTheory
  import opened SearchLoop
  import opened SearchFinder
  import opened AncestorFinder
  import DepGraphBuild

  // ---------------------------------------------------------------- every linearization has chunks

  lemma {:induction false} ChunkingExists(g: Graph, l: seq<nat>) returns (parts: seq<seq<nat>>)
    requires Sized(g) && ToSet(l) <= g.used
    ensures Chunking(g, l, parts)
  {
    if l == [] {
      parts := [];
    } else {
      var n := |l| - 1;
      PrefixSet(l, n);
      assert l == l[..n] + [l[n]];
      var before := ChunkingExists(g, l[..n]);
      StackStart(g, l[..n], before, l[n]);
      parts := StackFinish(g, l, before, [l[n]]);
    }
  }

  lemma {:induction false} StackFinish(g: Graph, l: seq<nat>, parts0: seq<seq<nat>>, p: seq<nat>)
    returns (parts: seq<seq<nat>>)
    requires Sized(g) && Stack(g, l, parts0, p)
    ensures Chunking(g, l, parts)
    decreases |parts0|
  {
    hide *;
    if parts0 != [] && Higher(SeqSum(g, p), SeqSum(g, parts0[|parts0| - 1])) {
      AbsorbStep(g, l, parts0, p);
      parts := StackFinish(g, l, parts0[..|parts0| - 1], parts0[|parts0| - 1] + p);
    } else {
      PushChunk(g, l, parts0, p);
      parts := parts0 + [p];
    }
  }

  // ---------------------------------------------------------------- what the loop maintains

  /** The output is a valid order of an ancestor-closed set. */
  ghost predicate Output(g: Graph, todo: set<nat>, out: seq<nat>) {
    && TopoList(g, out) && todo <= g.used && ToSet(out) == g.used - todo
    && forall x, y :: x in out && y in todo ==> y !in g.Anc(x)
  }

  lemma {:induction false} OutputStep(g: Graph, todo: set<nat>, out: seq<nat>, b: set<nat>, t: seq<nat>)
    requires Output(g, todo, out) && TopoSet(g, todo, b) && Linearization(g, b, t)
    ensures Output(g, todo - b, out + t)
  {
    forall x, y | x in out && y in t ensures y !in g.Anc(x) { assert y in ToSet(t); }
    TopoConcat(g, out, t);
    ToSetConcat(out, t);
    forall x, y | x in out + t && y in todo - b ensures y !in g.Anc(x) {
      if x !in out { assert x in ToSet(t); }
    }
  }

  /** What is output so far can still be completed to something as good as `m`. */
  ghost predicate Beats(g: Graph, out: seq<nat>, m: seq<nat>) { Progress(g, m, out, Without(m, ToSet(out))) }

  /** As good as any valid order can be. */
  ghost predicate BeatsAll(g: Graph, out: seq<nat>) {
    forall m :: Linearization(g, g.used, m) ==> Beats(g, out, m)
  }

  lemma {:induction false} BeatsStart(g: Graph, m: seq<nat>)
    requires Linearization(g, g.used, m)
    ensures Beats(g, [], m)
  {
    var none: seq<nat> := [];
    assert ToSet(none) == {};
    WithoutNone(m, ToSet(none));
    ProgressStart(g, m);
  }

  lemma {:induction false} BeatsStep(g: Graph, todo: set<nat>, out: seq<nat>, m: seq<nat>, b: set<nat>, t: seq<nat>)
    requires Sized(g) && todo <= g.used && ToSet(out) == g.used - todo && Linearization(g, g.used, m)
    requires Beats(g, out, m) && HighestSet(g, todo, b) && Linearization(g, b, t)
    ensures Beats(g, out + t, m)
  {
    var rem := Without(m, ToSet(out));
    WithoutSet(m, ToSet(out));
    assert g.used - (g.used - todo) == todo;
    SuffixTopo(g, out, rem);
    var parts := ChunkingExists(g, rem);
    OptimalFront(g, todo, rem, parts, b);
    ProgressStep(g, m, out, rem, parts, b, t);
    WithoutTwice(m, ToSet(out), b);
    ToSetConcat(out, t);
  }

  lemma {:induction false} BeatsAllStep(g: Graph, todo: set<nat>, out: seq<nat>, b: set<nat>, t: seq<nat>)
    requires Sized(g) && todo <= g.used && ToSet(out) == g.used - todo
    requires BeatsAll(g, out) && HighestSet(g, todo, b) && Linearization(g, b, t)
    ensures BeatsAll(g, out + t)
  {
    forall m | Linearization(g, g.used, m) ensures Beats(g, out + t, m) {
      assert Beats(g, out, m);
      hide *;
      BeatsStep(g, todo, out, m, b, t);
    }
  }

  lemma {:induction false} BeatsAllEnd(g: Graph, out: seq<nat>)
    requires Sized(g) && BeatsAll(g, out) && ToSet(out) == g.used
    ensures Optimal(g, out)
  {
    forall m | Linearization(g, ToSet(out), m) ensures AsGood(g, out, m) {
      assert Beats(g, out, m);
      WithoutAll(m, ToSet(out));
      assert out + [] == out;
    }
  }

  /** The optional old linearization: absent, or what remains of it is exactly `todo`. */
  ghost predicate OldState(g: Graph, oldLin: seq<nat>, out: seq<nat>, todo: set<nat>, chunking: LinearizationChunking)
    reads chunking
  {
    && chunking.Valid() && chunking.depgraph == g
    && if oldLin == [] then chunking.todo == {}
       else chunking.todo == todo && Progress(g, oldLin, out, chunking.Remaining())
  }

  // ---------------------------------------------------------------- what is chosen

  /** No remaining ancestor set is better. */
  ghost predicate BeatsAncestors(g: Graph, todo: set<nat>, s: set<nat>) {
    forall i :: i in todo ==> !Better(SetSum(g, Remaining(g, todo, i)), SetSum(g, s))
  }

  lemma {:induction false} StillBeats(g: Graph, todo: set<nat>, s: set<nat>, better: set<nat>)
    requires WellFormed(g) && todo <= g.used && BeatsAncestors(g, todo, s)
    requires Candidate(g, todo, s) && Candidate(g, todo, better) && AtLeast(SetSum(g, better), SetSum(g, s))
    ensures BeatsAncestors(g, todo, better)
  {
    hide SetSum, AtLeast, Better;
    assert Sized(g);
    CandidateSize(g, todo, s);
    CandidateSize(g, todo, better);
    forall i | i in todo ensures !Better(SetSum(g, Remaining(g, todo, i)), SetSum(g, better)) {
      RemainingTopo(g, todo, i);
      SetSumSize(g, Remaining(g, todo, i));
      AncestorBelow(SetSum(g, Remaining(g, todo, i)), SetSum(g, s), SetSum(g, better));
    }
  }

  lemma {:induction false} AncestorBelow(a: FeeFrac, b: FeeFrac, c: FeeFrac)
    requires a.size > 0 && b.size > 0 && c.size > 0 && !Better(a, b) && AtLeast(c, b)
    ensures !Better(a, c)
  {
    AtLeastTrans(c, b, a);
  }

  /** One round: `pick` was the best set known, at least as good as every remaining ancestor set; `l` is an order
      of it or, to stay as good as an old linearization, of a part of it. */
  ghost predicate Round(g: Graph, todo: set<nat>, pick: set<nat>, l: seq<nat>, hasOld: bool) {
    && TopoSet(g, todo, pick) && BeatsAncestors(g, todo, pick)
    && l != [] && TopoSet(g, todo, ToSet(l)) && Linearization(g, ToSet(l), l)
    && if hasOld then ToSet(l) <= pick else ToSet(l) == pick
  }

  /** The rounds in order, each on what the earlier ones left. */
  ghost predicate Rounds(g: Graph, lists: seq<seq<nat>>, picks: seq<set<nat>>, hasOld: bool) {
    && |lists| == |picks|
    && forall i :: 0 <= i < |lists| ==> Round(g, g.used - ToSet(Flatten(lists[..i])), picks[i], lists[i], hasOld)
  }

  lemma {:induction false} RoundsNext(g: Graph, lists: seq<seq<nat>>, picks: seq<set<nat>>, pick: set<nat>,
                                      l: seq<nat>, hasOld: bool)
    requires Rounds(g, lists, picks, hasOld) && Round(g, g.used - ToSet(Flatten(lists)), pick, l, hasOld)
    ensures Rounds(g, lists + [l], picks + [pick], hasOld) && Flatten(lists + [l]) == Flatten(lists) + l
  {
    hide Round, ToSet, Flatten;
    FlattenConcat(lists, [l]);
    FlattenOne(l);
    var more := lists + [l];
    forall i | 0 <= i < |more|
      ensures Round(g, g.used - ToSet(Flatten(more[..i])), (picks + [pick])[i], more[i], hasOld)
    {
      assert more[..i] == if i < |lists| then lists[..i] else lists;
    }
  }

  /** No ancestor set has a higher feerate than the first chunk of the result. */
  ghost predicate FirstChunkBeats(g: Graph, parts: seq<seq<nat>>) {
    parts != [] && forall x :: x in g.used ==> !Higher(SetSum(g, g.Anc(x)), SeqSum(g, parts[0]))
  }

  lemma {:induction false} FirstRoundBeats(g: Graph, lists: seq<seq<nat>>, picks: seq<set<nat>>, parts: seq<seq<nat>>)
    requires WellFormed(g) && Rounds(g, lists, picks, false) && ToSet(Flatten(lists)) == g.used != {}
    requires Chunking(g, Flatten(lists), parts)
    ensures FirstChunkBeats(g, parts)
  {
    hide SetSum, SeqSum, Better, Higher, Excess;
    var l := Flatten(lists);
    assert Sized(g) && lists != [] && parts != [];
    var first := lists[0];
    assert lists[..0] == [] && ToSet(Flatten(lists[..0])) == {};
    assert Round(g, g.used, picks[0], first, false) by { assert g.used - {} == g.used; }
    FlattenSplit(lists, 1);
    assert lists[..1] == [first];
    FlattenOne(first);
    assert first == l[..|first|];
    SeqSumIsSetSum(g, first);
    PrefixSet(l, |first|);
    SeqSumSize(g, first);
    FirstPrefix(g, l, parts, |first|);
    forall x | x in g.used ensures !Higher(SetSum(g, g.Anc(x)), SeqSum(g, parts[0])) {
      RemainingTopo(g, g.used, x);
      assert Remaining(g, g.used, x) == g.Anc(x);
      SetSumSize(g, g.Anc(x));
      BelowBoth(SetSum(g, g.Anc(x)), SeqSum(g, first), SeqSum(g, parts[0]));
    }
  }

  lemma {:induction false} FirstPrefix(g: Graph, l: seq<nat>, parts: seq<seq<nat>>, k: nat)
    requires Sized(g) && ToSet(l) <= g.used && Chunking(g, l, parts) && parts != [] && 0 < k <= |l|
    ensures SeqSum(g, parts[0]).size > 0 && Excess(SeqSum(g, parts[0]), SeqSum(g, l[..k])) <= 0
  {
    ChunkingTail(g, l, parts);
    assert Chunky(g, parts[0]);
    PrefixSet(l, |parts[0]|);
    assert l[..|parts[0]|] == parts[0];
    hide SeqSum, Best, Chunking;
    SeqSumSize(g, parts[0]);
    var rate := SeqSum(g, parts[0]);
    BestBelowRate(g, rate, l, parts);
    PrefixBelowBest(g, rate, l, k);
  }

  lemma {:induction false} BelowBoth(a: FeeFrac, b: FeeFrac, c: FeeFrac)
    requires a.size > 0 && b.size > 0 && c.size > 0 && !Better(a, b) && Excess(c, b) <= 0
    ensures !Higher(a, c)
  {
    hide Excess;
    BetterIsNotLower(a, b);
    HigherIsExcess(a, b); HigherIsExcess(a, c); HigherIsExcess(b, c);
    ExcessTransDown(c, b, a);
  }

  // ---------------------------------------------------------------- one round

  /** The best ancestor set, or the first chunk of the old linearization if that is no worse. */
  method StartBest(g: Graph, todo: set<nat>, anc: AncestorCandidateFinder, chunking: LinearizationChunking)
    returns (best: SetInfo)
    requires anc.Valid() && anc.depgraph == g && anc.todo == todo != {}
    requires chunking.Valid() && chunking.depgraph == g && (chunking.todo == {} || chunking.todo == todo)
    requires TopoList(g, chunking.Remaining())
    ensures ValidBest(g, todo, best) && BeatsAncestors(g, todo, best.transactions)
    ensures chunking.parts != [] ==>
      AtLeast(best.feerate, SeqSum(g, chunking.parts[0])) && SeqSum(g, chunking.parts[0]).size > 0
  {
    chunking.ChunkFacts();
    best := anc.FindCandidateSet();
    if chunking.NumChunksLeft() > 0 {
      FirstChunk(g, chunking.Remaining(), chunking.parts);
      var prefix := chunking.GetChunk(0);
      BetterOrder(prefix.feerate, prefix.feerate, prefix.feerate);
      BetterIsNotLower(best.feerate, prefix.feerate);
      if AtLeast(prefix.feerate, best.feerate) {
        StillBeats(g, todo, best.transactions, prefix.transactions);
        best := prefix;
      }
    }
  }

  /** Run the bounded search if there are iterations for it; `proven` means that the result has the
      highest feerate. */
  method SearchBest(g: Graph, todo: set<nat>, src: SearchCandidateFinder?, best0: SetInfo, left0: nat)
    returns (best: SetInfo, left: nat, proven: bool)
    requires src != null ==> src.Valid() && src.original == g && src.Todo() == todo
    requires ValidBest(g, todo, best0) && WellFormed(g) && todo <= g.used && BeatsAncestors(g, todo, best0.transactions)
    ensures ValidBest(g, todo, best) && AtLeast(best.feerate, best0.feerate) && left <= left0
    ensures BeatsAncestors(g, todo, best.transactions)
    ensures proven ==> HighestSet(g, todo, best.transactions)
    ensures src != null && left0 >= Budget(|todo|) ==> proven && left >= 2 * Pow2(|todo|)
  {
    hide Budget, Pow2, BeatsAncestors;
    BudgetCovers(|todo|);
    best, left := best0, left0;
    BetterOrder(best.feerate, best.feerate, best.feerate);
    var doneNow, maxNow := 0, 0;
    if src != null {
      var baseIterations := (|todo| + 3) / 4;
      if left > baseIterations {
        left := left - baseIterations;
        maxNow := (left + 1) / 2;
        SearchTodo(g, src, best);
        best, doneNow := src.FindCandidateSet(maxNow, best);
        left := left - doneNow;
        StillBeats(g, todo, best0.transactions, best.transactions);
      }
    }
    proven := doneNow != maxNow;
  }

  lemma {:induction false} SearchTodo(g: Graph, src: SearchCandidateFinder, best: SetInfo)
    requires src.Valid() && src.original == g && ValidBest(g, src.Todo(), best)
    ensures !src.AllDone() && best != SetInfo({}, EMPTY)
  {
  }

  /** The set to output next, and whether it is known to have the highest feerate. */
  method ChooseBest(g: Graph, todo: set<nat>, anc: AncestorCandidateFinder, src: SearchCandidateFinder?,
                    chunking: LinearizationChunking, left0: nat)
    returns (best: SetInfo, left: nat, proven: bool, ghost pick: set<nat>)
    requires anc.Valid() && anc.depgraph == g && anc.todo == todo != {}
    requires src != null ==> src.Valid() && src.original == g && src.Todo() == todo
    requires chunking.Valid() && chunking.depgraph == g && (chunking.todo == {} || chunking.todo == todo)
    requires TopoList(g, chunking.Remaining())
    ensures TopoSet(g, todo, best.transactions) && best.transactions != {} && left <= left0
    ensures TopoSet(g, todo, pick) && BeatsAncestors(g, todo, pick) && best.transactions <= pick
    ensures chunking.parts == [] ==> best.transactions == pick
    ensures chunking.parts != [] ==> KeepsDiagram(g, chunking.parts, best.transactions)
    ensures proven ==> HighestSet(g, todo, best.transactions)
    ensures src != null && left0 >= Budget(|todo|) ==> proven && left >= 2 * Pow2(|todo|)
  {
    hide Budget, Pow2, BeatsAncestors;
    assert Sized(g) && todo <= g.used;
    chunking.ChunkFacts();
    var start := StartBest(g, todo, anc, chunking);
    best, left, proven := SearchBest(g, todo, src, start, left0);
    pick := best.transactions;
    if chunking.NumChunksLeft() > 0 {
      if proven {
        OptimalFront(g, todo, chunking.Remaining(), chunking.parts, best.transactions);
      } else {
        StillAtLeast(g, todo, start, best, SeqSum(g, chunking.parts[0]));
        ghost var s := best.transactions;
        ghost var j;
        best, j := chunking.IntersectPrefixes(best);
        IntersectFront(g, chunking.Remaining(), chunking.parts, s, j);
        CoverFacts(g, chunking.Remaining(), chunking.parts, j);
        TopoIntersect(g, todo, s, Cover(chunking.parts, j));
      }
    }
  }

  lemma {:induction false} StillAtLeast(g: Graph, todo: set<nat>, start: SetInfo, best: SetInfo, first: FeeFrac)
    requires Sized(g) && todo <= g.used && ValidBest(g, todo, start) && ValidBest(g, todo, best) && first.size > 0
    requires AtLeast(best.feerate, start.feerate) && AtLeast(start.feerate, first)
    ensures !Lower(best.feerate, first)
  {
    CandidateSize(g, todo, start.transactions);
    CandidateSize(g, todo, best.transactions);
    AtLeastTrans(best.feerate, start.feerate, first);
    BetterIsNotLower(first, best.feerate);
    HigherIsExcess(first, best.feerate);
  }

  lemma {:induction false} OldTopo(g: Graph, oldLin: seq<nat>, out: seq<nat>, todo: set<nat>,
                                   chunking: LinearizationChunking)
    requires OldState(g, oldLin, out, todo, chunking)
    ensures TopoList(g, chunking.Remaining()) && (chunking.todo == {} || chunking.todo == todo)
    ensures oldLin == [] ==> chunking.parts == []
    ensures ToSet(chunking.Remaining()) == chunking.todo
  {
    chunking.ChunkFacts();
    if oldLin != [] {
      SuffixTopo(g, out, chunking.Remaining());
    } else {
      EmptyList(chunking.Remaining());
    }
  }

  /** What must hold of the old linearization after the set `b`, ordered as `t`, was output. */
  lemma {:induction false} OldStep(g: Graph, oldLin: seq<nat>, out: seq<nat>, todo: set<nat>,
                                   chunking: LinearizationChunking, b: set<nat>, t: seq<nat>)
    requires OldState(g, oldLin, out, todo, chunking) && todo <= g.used && oldLin != []
    requires TopoSet(g, todo, b) && b != {} && Linearization(g, b, t)
    requires chunking.parts != [] ==> KeepsDiagram(g, chunking.parts, b)
    ensures chunking.parts != [] && b <= chunking.todo
    ensures Progress(g, oldLin, out + t, Without(chunking.Remaining(), b))
  {
    chunking.ChunkFacts();
    assert todo != {};
    hide Chunks.Chunky, Decreasing, SetsAre, Linearization, KeepsDiagram, SeqSum;
    ProgressStep(g, oldLin, out, chunking.Remaining(), chunking.parts, b, t);
  }

  /** What the loop maintains about the finders, as long as anything is left to do. */
  ghost predicate Finders(g: Graph, oldLin: seq<nat>, out: seq<nat>, anc: AncestorCandidateFinder,
                          src: SearchCandidateFinder?, chunking: LinearizationChunking)
    reads anc, src, chunking
  {
    && anc.Valid() && anc.depgraph == g && anc.todo != {}
    && (src != null ==> src.Valid() && src.original == g && src.Todo() == anc.todo)
    && OldState(g, oldLin, out, anc.todo, chunking)
  }

  /** One round, first half: choose a set and append it to the output. */
  method Extend(g: Graph, ghost oldLin: seq<nat>, out0: seq<nat>, optimal0: bool, left0: nat,
                anc: AncestorCandidateFinder, src: SearchCandidateFinder?, chunking: LinearizationChunking)
    returns (out: seq<nat>, optimal: bool, left: nat, b: set<nat>, ghost pick: set<nat>, ghost t: seq<nat>)
    requires WellFormed(g) && Acyclic(g) && Finders(g, oldLin, out0, anc, src, chunking)
    requires Output(g, anc.todo, out0) && (optimal0 ==> BeatsAll(g, out0))
    ensures b != {} && b <= anc.todo && Output(g, anc.todo - b, out) && (optimal ==> BeatsAll(g, out))
    ensures out == out0 + t && Round(g, anc.todo, pick, t, oldLin != [])
    ensures oldLin != [] ==> Progress(g, oldLin, out, Without(chunking.Remaining(), b)) && b <= chunking.todo
    ensures src != null && left0 >= Budget(|anc.todo|) ==> (optimal <==> optimal0) && left >= Budget(|anc.todo - b|)
  {
    hide Budget, Pow2;
    var todo := anc.todo;
    OldTopo(g, oldLin, out0, todo, chunking);
    assert Sized(g) && todo <= g.used && ToSet(out0) == g.used - todo;
    hide WellFormed, Sized, Acyclic, BeatsAll, Output, Progress, HighestSet, KeepsDiagram, Linearization, TopoSet,
         ToSet, Without,
         TopoList, Kept;
    var best, proven;
    best, left, proven, pick := ChooseBest(g, todo, anc, src, chunking, left0);
    b := best.transactions;
    optimal := optimal0 && proven;
    TopoSubset(g, todo, b);
    BudgetShrinks(todo, b);
    out, t := AppendTopo(g, out0, b);
    OutputStep(g, todo, out0, b, t);
    IsRound(g, todo, pick, b, t, oldLin != []);
    if optimal { BeatsAllStep(g, todo, out0, b, t); }
    if oldLin != [] { OldStep(g, oldLin, out0, todo, chunking, b, t); }
  }

  lemma {:induction false} IsRound(g: Graph, todo: set<nat>, pick: set<nat>, b: set<nat>, t: seq<nat>, hasOld: bool)
    requires TopoSet(g, todo, pick) && BeatsAncestors(g, todo, pick) && TopoSet(g, todo, b) && b != {}
    requires Linearization(g, b, t) && b <= pick && (!hasOld ==> b == pick)
    ensures Round(g, todo, pick, t, hasOld)
  {
    hide BeatsAncestors, TopoSet, TopoList;
    if t == [] { EmptyList(t); }
  }

  /** One round, second half: mark the chosen set as done everywhere. */
  method MarkAll(g: Graph, ghost oldLin: seq<nat>, ghost out0: seq<nat>, ghost out: seq<nat>, b: set<nat>,
                 anc: AncestorCandidateFinder, src: SearchCandidateFinder?, chunking: LinearizationChunking)
    requires Finders(g, oldLin, out0, anc, src, chunking) && b != {} && b <= anc.todo
    requires oldLin != [] ==> Progress(g, oldLin, out, Without(chunking.Remaining(), b)) && b <= chunking.todo
    modifies anc, chunking, src
    ensures anc.Valid() && anc.todo == old(anc.todo) - b
    ensures anc.todo != {} ==> Finders(g, oldLin, out, anc, src, chunking)
    ensures anc.todo == {} && oldLin != [] ==> Progress(g, oldLin, out, [])
  {
    hide WellFormed, Progress, ToSet, Without, Numbering, SearchGraph, RatesFor, SetsAre, Chunking, Distinct, Kept,
         DepGraphBuild.Image, Sized;
    chunking.ChunkFacts();
    WithoutRest(chunking.Remaining(), b);
    anc.MarkDone(b);
    if !anc.AllDone() {
      if src != null { src.MarkDone(b); }
      if chunking.NumChunksLeft() > 0 { chunking.MarkDone(b); }
    }
  }

  /** Iterations that are always enough to prove every set of a round with `n` transactions left. */
  ghost function Budget(n: nat): nat { 4 * Pow2(n) }

  lemma {:induction false} BudgetCovers(n: nat)
    ensures (n + 3) / 4 <= Pow2(n) && Budget(n) == 4 * Pow2(n) && Pow2(n) > 0
  {
    if n > 0 { BudgetCovers(n - 1); }
  }

  lemma {:induction false} BudgetShrinks(todo: set<nat>, b: set<nat>)
    requires b != {} && b <= todo
    ensures Budget(|todo - b|) <= 2 * Pow2(|todo|)
  {
    hide Pow2;
    var i :| i in b;
    assert todo - b <= todo - {i};
    SubsetCard(todo - b, todo - {i});
    Pow2Grows(|todo - b|, |todo|);
    BudgetCovers(|todo - b|);
  }

  lemma {:induction false} TopoSubset(g: Graph, todo: set<nat>, b: set<nat>)
    requires TopoSet(g, todo, b)
    ensures b <= todo
  {
  }

  /** `Linearize`: a valid order, at least as good as the old one if there is one, and optimal if it says so.
      Whatever the budget, it is put together in rounds, and without an old one no ancestor set has a higher
      feerate than the first chunk. */
  method Linearize(g: Graph, maxIterations: nat, oldLin: seq<nat>)
    returns (linearization: seq<nat>, optimal: bool, ghost lists: seq<seq<nat>>, ghost picks: seq<set<nat>>)
    requires WellFormed(g) && Acyclic(g)
    requires oldLin == [] || Linearization(g, g.used, oldLin)
    ensures Linearization(g, g.used, linearization)
    ensures oldLin != [] ==> AsGood(g, linearization, oldLin) && DiagramAbove(g, linearization, oldLin)
    ensures optimal ==> Optimal(g, linearization)
    ensures maxIterations >= StartIterations(|g.used|) + Budget(|g.used|) ==> optimal
    ensures linearization == Flatten(lists) && Rounds(g, lists, picks, oldLin != [])
    ensures oldLin == [] && g.used != {} ==>
      forall parts :: Chunking(g, linearization, parts) ==> FirstChunkBeats(g, parts)
  {
    hide Budget, StartIterations, Chunking, FirstChunkBeats;
    linearization, optimal, lists, picks := [], true, [], [];
    OutputStart(g);
    AllStart(g);
    assert Sized(g);
    if g.used == {} {
      BeatsAllEnd(g, []);
      if oldLin != [] { EmptyList(oldLin); }
      return;
    }
    linearization, optimal, lists, picks := Run(g, maxIterations, oldLin);
    OutputEnd(g, linearization);
    if oldLin == [] {
      forall parts | Chunking(g, linearization, parts) ensures FirstChunkBeats(g, parts) {
        FirstRoundBeats(g, lists, picks, parts);
      }
    }
    if oldLin != [] { ProgressEnd(g, oldLin, linearization); }
    if optimal { BeatsAllEnd(g, linearization); }
  }

  /** The main loop. */
  method Run(g: Graph, maxIterations: nat, oldLin: seq<nat>)
    returns (linearization: seq<nat>, optimal: bool, ghost lists: seq<seq<nat>>, ghost picks: seq<set<nat>>)
    requires WellFormed(g) && Acyclic(g) && g.used != {}
    requires oldLin == [] || Linearization(g, g.used, oldLin)
    ensures Output(g, {}, linearization)
    ensures oldLin != [] ==> Progress(g, oldLin, linearization, [])
    ensures optimal ==> BeatsAll(g, linearization)
    ensures maxIterations >= StartIterations(|g.used|) + Budget(|g.used|) ==> optimal
    ensures linearization == Flatten(lists) && Rounds(g, lists, picks, oldLin != [])
  {
    linearization, optimal, lists, picks := [], true, [], [];
    OutputStart(g);
    AllStart(g);
    hide Budget, StartIterations, WellFormed, Sized, Acyclic, BeatsAll, Output, Progress, Linearization, ToSet, Finders,
         Round;
    var left: nat := maxIterations;
    var anc, src, chunking;
    anc, src, chunking, left := MakeFinders(g, left, oldLin);
    BudgetCovers(|g.used|);
    while anc.todo != {}
      invariant fresh(anc) && (src != null ==> fresh(src)) && fresh(chunking)
      invariant Output(g, anc.todo, linearization)
      invariant anc.todo != {} ==> Finders(g, oldLin, linearization, anc, src, chunking)
      invariant anc.todo == {} && oldLin != [] ==> Progress(g, oldLin, linearization, [])
      invariant optimal ==> BeatsAll(g, linearization)
      invariant linearization == Flatten(lists) && Rounds(g, lists, picks, oldLin != [])
      invariant maxIterations >= StartIterations(|g.used|) + Budget(|g.used|) ==>
        optimal && src != null && left >= Budget(|anc.todo|)
      decreases |anc.todo|
    {
      var b;
      ghost var before, todo, pick, t := linearization, anc.todo, {}, [];
      LeftOver(g, todo, before);
      linearization, optimal, left, b, pick, t := Extend(g, oldLin, linearization, optimal, left, anc, src, chunking);
      RoundsNext(g, lists, picks, pick, t, oldLin != []);
      lists, picks := lists + [t], picks + [pick];
      MarkAll(g, oldLin, before, linearization, b, anc, src, chunking);
      SubsetCard(todo - b, todo);
    }
  }

  /** The finders and the chunking of the old linearization; the search finder only if there are
      iterations to pay for it. */
  method MakeFinders(g: Graph, left0: nat, oldLin: seq<nat>)
    returns (anc: AncestorCandidateFinder, src: SearchCandidateFinder?, chunking: LinearizationChunking, left: nat)
    requires WellFormed(g) && Acyclic(g) && g.used != {} && (oldLin == [] || Linearization(g, g.used, oldLin))
    ensures fresh(anc) && (src != null ==> fresh(src)) && fresh(chunking) && left <= left0
    ensures Finders(g, oldLin, [], anc, src, chunking) && anc.todo == g.used
    ensures left0 > StartIterations(|g.used|) ==> src != null && left == left0 - StartIterations(|g.used|)
  {
    hide WellFormed, Sized, Acyclic, Progress, Linearization, ToSet, Numbering, SearchGraph, RatesFor, SetsAre,
         Chunking,
         Distinct, DepGraphBuild.Image, Without, StartIterations;
    SizedGraph(g);
    NoneOrAll(g, oldLin);
    if oldLin != [] { ProgressStart(g, oldLin); }
    anc := new AncestorCandidateFinder(g);
    src, left := MakeSearch(g, left0);
    chunking := new LinearizationChunking(g, oldLin);
  }

  lemma {:induction false} SizedGraph(g: Graph)
    requires WellFormed(g)
    ensures Sized(g)
  {
  }

  method MakeSearch(g: Graph, left0: nat) returns (src: SearchCandidateFinder?, left: nat)
    requires WellFormed(g) && Acyclic(g)
    ensures src != null ==> fresh(src) && src.Valid() && src.original == g && src.Todo() == g.used
    ensures left <= left0 && (left0 > StartIterations(|g.used|) ==>
      src != null && left == left0 - StartIterations(|g.used|))
  {
    left := left0;
    src := null;
    var startIterations := StartIterations(|g.used|);
    if left > startIterations {
      left := left - startIterations;
      src := new SearchCandidateFinder(g);
    }
  }

  /** What starting the search finder is taken to cost. */
  function StartIterations(n: nat): nat { (n * n + 63) / 64 }

  lemma {:induction false} LeftOver(g: Graph, todo: set<nat>, out: seq<nat>)
    requires Output(g, todo, out)
    ensures todo == g.used - ToSet(out)
  {
    hide TopoList, ToSet;
  }

  lemma {:induction false} OutputStart(g: Graph)
    ensures Output(g, g.used, [])
  {
    var none: seq<nat> := [];
    assert ToSet(none) == {};
  }

  lemma {:induction false} AllStart(g: Graph)
    ensures BeatsAll(g, [])
  {
    forall m | Linearization(g, g.used, m) ensures Beats(g, [], m) {
      BeatsStart(g, m);
    }
  }

  lemma {:induction false} NoneOrAll(g: Graph, l: seq<nat>)
    requires l == [] || Linearization(g, g.used, l)
    ensures Distinct(l) && ToSet(l) <= g.used && (if l == [] then ToSet(l) == {} else ToSet(l) == g.used)
  {
  }

  lemma {:induction false} OutputEnd(g: Graph, out: seq<nat>)
    requires Output(g, {}, out)
    ensures Linearization(g, g.used, out) && ToSet(out) == g.used
  {
    assert g.used - {} == g.used;
  }
}
