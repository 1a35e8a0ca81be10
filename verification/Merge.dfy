/** Building an output linearization by repeatedly moving a set of transactions from what remains
    of an input linearization to the output; merging two linearizations that way. */
module Merging {
  import opened FeeFracs
  import opened Lists
  import opened DepGraphs
  import opened Diagrams
  import opened Chunks
  import opened Fronts
  import opened Chunkings
  import opened FeerateDiagram

  /** The output so far followed by what remains is a valid order of everything, and at least as
      good as `lin`. */
  ghost predicate Progress(g: Graph, lin: seq<nat>, out: seq<nat>, rem: seq<nat>) {
    Linearization(g, g.used, out + rem) && AsGood(g, out + rem, lin)
  }

  lemma {:induction false} ProgressStart(g: Graph, lin: seq<nat>)
    requires Linearization(g, g.used, lin)
    ensures Progress(g, lin, [], lin)
  {
    assert [] + lin == lin;
  }

  /** What remains is itself a topologically valid order. */
  lemma {:induction false} SuffixTopo(g: Graph, out: seq<nat>, rem: seq<nat>)
    requires TopoList(g, out + rem)
    ensures TopoList(g, rem) && TopoList(g, out) && ToSet(out) !! ToSet(rem)
    ensures forall x, y :: x in out && y in rem ==> y !in g.Anc(x)
  {
    var l := out + rem;
    DistinctConcat(out, rem);
    forall p, q | 0 <= p < q < |rem| ensures rem[q] !in g.Anc(rem[p]) {
      assert l[|out| + p] == rem[p] && l[|out| + q] == rem[q];
    }
    forall p, q | 0 <= p < q < |out| ensures out[q] !in g.Anc(out[p]) {
      assert l[p] == out[p] && l[q] == out[q];
    }
    forall x, y | x in out && y in rem ensures y !in g.Anc(x) {
      var p :| 0 <= p < |out| && out[p] == x;
      var q :| 0 <= q < |rem| && rem[q] == y;
      assert l[p] == x && l[|out| + q] == y;
    }
  }

  /** Moving a topologically valid set to the front of what remains keeps the order valid. */
  lemma {:induction false} FrontTopo(g: Graph, out: seq<nat>, rem: seq<nat>, b: set<nat>, t: seq<nat>)
    requires TopoList(g, out + rem) && TopoSet(g, ToSet(rem), b) && Linearization(g, b, t)
    ensures TopoList(g, out + t + Without(rem, b))
    ensures ToSet(out + t + Without(rem, b)) == ToSet(out + rem)
  {
    SuffixTopo(g, out, rem);
    var w := Without(rem, b);
    WithoutSet(rem, b);
    WithoutTopo(g, rem, b);
    forall x, y | x in out && y in t ensures y !in g.Anc(x) { assert y in ToSet(t) && y in ToSet(rem); }
    TopoConcat(g, out, t);
    ToSetConcat(out, t);
    forall x, y | x in out + t && y in w ensures y !in g.Anc(x) {
      assert y in ToSet(w) && y in ToSet(rem) && y !in b;
      if x !in out { assert x in ToSet(t); }
    }
    TopoConcat(g, out + t, w);
    ToSetConcat(out + t, w);
    ToSetConcat(out, rem);
  }

  lemma {:induction false} ProgressStep(g: Graph, lin: seq<nat>, out: seq<nat>, rem: seq<nat>, parts: seq<seq<nat>>,
                                        b: set<nat>, t: seq<nat>)
    requires Sized(g) && Progress(g, lin, out, rem) && Chunking(g, rem, parts)
    requires KeepsDiagram(g, parts, b) && TopoSet(g, ToSet(rem), b) && Linearization(g, b, t)
    ensures Progress(g, lin, out + t, Without(rem, b))
  {
    FrontTopo(g, out, rem, b, t);
    SuffixTopo(g, out, rem);
    ToSetConcat(out, rem);
    ExtendOutput(g, out, rem, parts, b, t);
    AsGoodTrans(g, out + t + Without(rem, b), out + rem, lin);
  }

  /** A topologically valid order of all transactions exists only in an acyclic graph. */
  lemma {:induction false} OrderedIsAcyclic(g: Graph, l: seq<nat>)
    requires Linearization(g, g.used, l)
    ensures Acyclic(g)
  {
    forall i, j | i in g.used && j in g.used && j in g.Anc(i) && i in g.Anc(j) ensures i == j {
      assert i in ToSet(l) && j in ToSet(l);
      var p :| 0 <= p < |l| && l[p] == i;
      var q :| 0 <= q < |l| && l[q] == j;
    }
  }

  /** The part of the better first chunk chosen by intersecting it with the other chunking may be
      moved to the front of both linearizations. */
  lemma {:induction false} MergeChoice(g: Graph, rem: seq<nat>, parts: seq<seq<nat>>, other: seq<nat>,
                                       otherParts: seq<seq<nat>>, j: nat)
    requires Sized(g) && TopoList(g, rem) && TopoList(g, other) && ToSet(rem) == ToSet(other) <= g.used
    requires Chunking(g, rem, parts) && Chunking(g, other, otherParts) && parts != [] && otherParts != []
    requires !Higher(SeqSum(g, otherParts[0]), SeqSum(g, parts[0]))
    requires ShortestGood(g, otherParts, ToSet(parts[0]), j)
    ensures var b := ToSet(parts[0]) * Cover(otherParts, j);
            && KeepsDiagram(g, parts, b) && KeepsDiagram(g, otherParts, b)
            && TopoSet(g, ToSet(rem), b) && b != {}
  {
    var s := ToSet(parts[0]);
    FirstChunk(g, rem, parts);
    CoverFacts(g, other, otherParts, j);
    TopoIntersect(g, ToSet(rem), s, Cover(otherParts, j));
    hide Cover, Chunky, Decreasing;
    SubsetFront(g, rem, parts, s * Cover(otherParts, j));
    IntersectFront(g, other, otherParts, s, j);
  }

  /** The set to output next: the better first chunk, intersected with the other chunking. */
  method MergeBest(g: Graph, c1: LinearizationChunking, c2: LinearizationChunking) returns (best: SetInfo)
    requires c1.Valid() && c2.Valid() && c1.depgraph == g == c2.depgraph
    requires c1.todo == c2.todo != {} && TopoList(g, c1.Remaining()) && TopoList(g, c2.Remaining())
    ensures KeepsDiagram(g, c1.parts, best.transactions) && KeepsDiagram(g, c2.parts, best.transactions)
    ensures TopoSet(g, c1.todo, best.transactions) && best.transactions != {}
  {
    c1.ChunkFacts();
    c2.ChunkFacts();
    assert ToSet(c1.Remaining()) <= g.used;
    hide Chunking, TopoList, ToSet, KeepsDiagram, SetsAre, SeqSum, Distinct, Sized, TopoSet, Kept, ShortestGood,
         SetSum, TooLow;
    var first1, first2 := c1.GetChunk(0), c2.GetChunk(0);
    ghost var j;
    if Higher(first2.feerate, first1.feerate) {
      best, j := c1.IntersectPrefixes(first2);
      MergeChoice(g, c2.Remaining(), c2.parts, c1.Remaining(), c1.parts, j);
    } else {
      best, j := c2.IntersectPrefixes(first1);
      MergeChoice(g, c1.Remaining(), c1.parts, c2.Remaining(), c2.parts, j);
    }
  }

  /** One round of the merge loop. */
  method MergeRound(g: Graph, ghost lin1: seq<nat>, ghost lin2: seq<nat>, ret0: seq<nat>, c1: LinearizationChunking,
                    c2: LinearizationChunking)
    returns (ret: seq<nat>, done: bool)
    requires WellFormed(g) && Acyclic(g)
    requires c1.Valid() && c2.Valid() && c1.depgraph == g == c2.depgraph && c1 != c2
    requires c1.todo == c2.todo != {}
    requires Progress(g, lin1, ret0, c1.Remaining()) && Progress(g, lin2, ret0, c2.Remaining())
    modifies c1, c2
    ensures c1.Valid() && c2.Valid()
    ensures Progress(g, lin1, ret, c1.Remaining()) && |c1.todo| < old(|c1.todo|)
    ensures !done ==> c1.todo == c2.todo != {} && Progress(g, lin2, ret, c2.Remaining())
    ensures done ==> c1.Remaining() == [] && Progress(g, lin2, ret, [])
  {
    SuffixTopo(g, ret0, c1.Remaining());
    SuffixTopo(g, ret0, c2.Remaining());
    var best := MergeBest(g, c1, c2);
    c1.ChunkFacts();
    c2.ChunkFacts();
    ghost var t;
    assert best.transactions <= c1.todo;
    assert c1.todo <= g.used && Sized(g);
    assert Chunking(g, c1.Remaining(), c1.parts) && Chunking(g, c2.Remaining(), c2.parts);
    hide Chunking, TopoList, ToSet, KeepsDiagram, SetsAre, SeqSum, Distinct, Sized, TopoSet, Kept, Linearization,
         Progress, Acyclic;
    ret, t := AppendTopo(g, ret0, best.transactions);
    ProgressStep(g, lin1, ret0, c1.Remaining(), c1.parts, best.transactions, t);
    ProgressStep(g, lin2, ret0, c2.Remaining(), c2.parts, best.transactions, t);
    SubsetCard(c1.todo - best.transactions, c1.todo);
    WithoutRest(c2.Remaining(), best.transactions);
    c1.MarkDone(best.transactions);
    c1.ChunkFacts();
    done := c1.NumChunksLeft() == 0;
    if done {
      EmptyList(c1.Remaining());
    } else {
      c2.MarkDone(best.transactions);
    }
  }

  lemma {:induction false} WithoutRest(l: seq<nat>, b: set<nat>)
    ensures ToSet(l) - b == {} ==> Without(l, b) == []
  {
    if ToSet(l) - b == {} {
      assert forall x :: x in ToSet(l) ==> x in b || x in ToSet(l) - b;
      WithoutAll(l, b);
    }
  }

  lemma {:induction false} EmptyList(l: seq<nat>)
    requires ToSet(l) == {}
    ensures l == []
  {
    WithoutAll(l, {});
    WithoutNone(l, {});
  }

  lemma {:induction false} ProgressEnd(g: Graph, lin: seq<nat>, ret: seq<nat>)
    requires Sized(g) && Linearization(g, g.used, lin) && Progress(g, lin, ret, [])
    ensures Linearization(g, g.used, ret) && AsGood(g, ret, lin) && DiagramAbove(g, ret, lin)
  {
    assert ret + [] == ret;
    AsGoodDiagram(g, ret, lin);
  }

  /** `MergeLinearizations`: a valid order whose diagram is nowhere below those of both inputs. */
  method MergeLinearizations(g: Graph, lin1: seq<nat>, lin2: seq<nat>) returns (ret: seq<nat>)
    requires WellFormed(g) && Linearization(g, g.used, lin1) && Linearization(g, g.used, lin2)
    ensures Linearization(g, g.used, ret)
    ensures AsGood(g, ret, lin1) && AsGood(g, ret, lin2)
    ensures DiagramAbove(g, ret, lin1) && DiagramAbove(g, ret, lin2)
  {
    OrderedIsAcyclic(g, lin1);
    ProgressStart(g, lin1);
    ProgressStart(g, lin2);
    ret := [];
    if g.used == {} {
      EmptyList(lin1);
      EmptyList(lin2);
    } else {
      var chunking1 := new LinearizationChunking(g, lin1);
      var chunking2 := new LinearizationChunking(g, lin2);
      hide Linearization, TopoList, AsGood, Distinct, Progress, ToSet, Chunking, SetsAre;
      var done := false;
      while !done
        invariant chunking1.Valid() && chunking1.depgraph == g && fresh(chunking1)
        invariant chunking2.Valid() && chunking2.depgraph == g && fresh(chunking2) && chunking1 != chunking2
        invariant Progress(g, lin1, ret, chunking1.Remaining())
        invariant !done ==> chunking1.todo == chunking2.todo != {} && Progress(g, lin2, ret, chunking2.Remaining())
        invariant done ==> chunking1.Remaining() == [] && Progress(g, lin2, ret, [])
        decreases |chunking1.todo|, !done
      {
        ret, done := MergeRound(g, lin1, lin2, ret, chunking1, chunking2);
      }
    }
    ProgressEnd(g, lin1, ret);
    ProgressEnd(g, lin2, ret);
  }
}
