/** One pass of `PostLinearize`, as a function on lists of groups, and what it guarantees.

    A pass takes the transactions one by one, appends each as a group of its own, and lets that
    group sift towards the front: past a group of lower feerate it moves, unless it depends on it,
    in which case it absorbs it. */
module PostTheory {
  import opened FeeFracs
  import opened Lists
  import opened DepGraphs
  import opened Diagrams
  import opened Chunks
  import opened Fronts

  /** The dependencies of a group. */
  function Deps(g: Graph, c: seq<nat>): set<nat> {
    if c == [] then {} else g.Anc(c[0]) + Deps(g, c[1..])
  }

  predicate DependsOn(g: Graph, c: seq<nat>, p: seq<nat>) { Deps(g, c) * ToSet(p) != {} }

  predicate Lifts(g: Graph, front: seq<seq<nat>>, c: seq<nat>) {
    front != [] && Higher(SeqSum(g, c), SeqSum(g, front[|front| - 1]))
  }

  /** The merge/swap cycle: `c` stands between `front` and `back`. */
  function Sift(g: Graph, front: seq<seq<nat>>, c: seq<nat>, back: seq<seq<nat>>): seq<seq<nat>>
    decreases |front|
  {
    if !Lifts(g, front, c) then front + [c] + back
    else
      var p, rest := front[|front| - 1], front[..|front| - 1];
      if DependsOn(g, c, p) then Sift(g, rest, p + c, back) else Sift(g, rest, c, [p] + back)
  }

  /** The group that `c` ends up as. */
  function SiftGroup(g: Graph, front: seq<seq<nat>>, c: seq<nat>): seq<nat>
    decreases |front|
  {
    if !Lifts(g, front, c) then c
    else
      var p, rest := front[|front| - 1], front[..|front| - 1];
      SiftGroup(g, rest, if DependsOn(g, c, p) then p + c else c)
  }

  function PassGroups(g: Graph, input: seq<nat>): seq<seq<nat>> {
    if input == [] then []
    else Sift(g, PassGroups(g, input[..|input| - 1]), [input[|input| - 1]], [])
  }

  // ---------------------------------------------------------------- an invariant rule for sifting

  lemma {:induction false} DepsMember(g: Graph, c: seq<nat>, x: nat)
    ensures x in Deps(g, c) <==> exists y :: y in c && x in g.Anc(y)
  {
    if c != [] {
      DepsMember(g, c[1..], x);
      assert c == [c[0]] + c[1..];
    }
  }

  lemma {:induction false} DepsConcat(g: Graph, a: seq<nat>, b: seq<nat>)
    ensures Deps(g, a + b) == Deps(g, a) + Deps(g, b)
  {
    if a == [] {
      assert a + b == b;
    } else {
      assert (a + b)[1..] == a[1..] + b;
      DepsConcat(g, a[1..], b);
    }
  }

  lemma {:induction false} FlattenThree(front: seq<seq<nat>>, c: seq<nat>, back: seq<seq<nat>>)
    ensures Flatten(front + [c] + back) == Flatten(front) + c + Flatten(back)
  {
    FlattenConcat(front + [c], back);
    FlattenConcat(front, [c]);
    FlattenOne(c);
  }

  lemma {:induction false} FlattenCons(p: seq<nat>, back: seq<seq<nat>>)
    ensures Flatten([p] + back) == p + Flatten(back)
  {
    assert ([p] + back)[1..] == back;
  }

  lemma {:induction false} FlattenLast(front: seq<seq<nat>>)
    requires front != []
    ensures Flatten(front) == Flatten(front[..|front| - 1]) + front[|front| - 1]
  {
    var n := |front| - 1;
    FlattenSplit(front, n);
    assert front[n..] == [front[n]];
    FlattenOne(front[n]);
  }

  // ---------------------------------------------------------------- a permutation, in valid order

  /** Sifting only rearranges, and keeps a topologically valid order. */
  lemma {:induction false} SiftOrder(g: Graph, front: seq<seq<nat>>, c: seq<nat>, back: seq<seq<nat>>)
    requires TopoList(g, Flatten(front) + c + Flatten(back))
    ensures TopoList(g, Flatten(Sift(g, front, c, back)))
    ensures ToSet(Flatten(Sift(g, front, c, back))) == ToSet(Flatten(front) + c + Flatten(back))
    decreases |front|
  {
    hide TopoList, ToSet, DependsOn, Flatten;
    if !Lifts(g, front, c) {
      FlattenThree(front, c, back);
    } else {
      var n := |front| - 1;
      var p, rest := front[n], front[..n];
      FlattenLast(front);
      FlattenCons(p, back);
      if DependsOn(g, c, p) {
        assert Flatten(rest) + (p + c) + Flatten(back) == Flatten(front) + c + Flatten(back);
        SiftOrder(g, rest, p + c, back);
      } else {
        SwapTopo(g, Flatten(rest), p, c, Flatten(back));
        assert Flatten(front) + c + Flatten(back) == Flatten(rest) + p + c + Flatten(back);
        assert Flatten(rest) + c + Flatten([p] + back) == Flatten(rest) + c + p + Flatten(back);
        SiftOrder(g, rest, c, [p] + back);
      }
    }
  }

  /** Exchanging neighbouring blocks without a dependency between them. */
  lemma {:induction false} SwapTopo(g: Graph, a: seq<nat>, p: seq<nat>, c: seq<nat>, b: seq<nat>)
    requires TopoList(g, a + p + c + b) && !DependsOn(g, c, p)
    ensures TopoList(g, a + c + p + b)
    ensures ToSet(a + c + p + b) == ToSet(a + p + c + b)
  {
    var l := a + p + c + b;
    Blocks(g, a, p, c, b);
    forall x, y | x in c && y in p ensures y !in g.Anc(x) {
      DepsMember(g, c, y);
      assert y in ToSet(p) && y !in Deps(g, c) * ToSet(p);
    }
    hide Deps;
    TopoConcat(g, a, c);
    ToSetConcat(a, c);
    TopoConcat(g, a + c, p);
    ToSetConcat(a + c, p);
    TopoConcat(g, a + c + p, b);
    ToSetConcat(a + c + p, b);
    ToSetConcat(a, p); ToSetConcat(a + p, c); ToSetConcat(a + p + c, b);
  }

  /** The blocks of a valid order are valid, disjoint, and never depend on a later block. */
  lemma {:induction false} Blocks(g: Graph, a: seq<nat>, p: seq<nat>, c: seq<nat>, b: seq<nat>)
    requires TopoList(g, a + p + c + b)
    ensures TopoList(g, a) && TopoList(g, p) && TopoList(g, c) && TopoList(g, b)
    ensures ToSet(a) !! ToSet(p) && ToSet(a) !! ToSet(c) && ToSet(p) !! ToSet(c)
    ensures ToSet(a) !! ToSet(b) && ToSet(p) !! ToSet(b) && ToSet(c) !! ToSet(b)
    ensures forall x, y :: x in a && (y in p || y in c || y in b) ==> y !in g.Anc(x)
    ensures forall x, y :: x in p && (y in c || y in b) ==> y !in g.Anc(x)
    ensures forall x, y :: x in c && y in b ==> y !in g.Anc(x)
  {
    TwoBlocks(g, a + p + c, b);
    TwoBlocks(g, a + p, c);
    TwoBlocks(g, a, p);
    ToSetConcat(a + p, c);
    ToSetConcat(a, p);
  }

  lemma {:induction false} TwoBlocks(g: Graph, a: seq<nat>, b: seq<nat>)
    requires TopoList(g, a + b)
    ensures TopoList(g, a) && TopoList(g, b) && ToSet(a) !! ToSet(b)
    ensures forall x, y :: x in a && y in b ==> y !in g.Anc(x)
  {
    var l := a + b;
    DistinctConcat(a, b);
    forall p, q | 0 <= p < q < |b| ensures b[q] !in g.Anc(b[p]) {
      assert l[|a| + p] == b[p] && l[|a| + q] == b[q];
    }
    forall p, q | 0 <= p < q < |a| ensures a[q] !in g.Anc(a[p]) {
      assert l[p] == a[p] && l[q] == a[q];
    }
    forall x, y | x in a && y in b ensures y !in g.Anc(x) {
      var p :| 0 <= p < |a| && a[p] == x;
      var q :| 0 <= q < |b| && b[q] == y;
      assert l[p] == x && l[|a| + q] == y;
    }
  }

  lemma {:induction false} PassOrder(g: Graph, input: seq<nat>)
    requires TopoList(g, input)
    ensures TopoList(g, Flatten(PassGroups(g, input)))
    ensures ToSet(Flatten(PassGroups(g, input))) == ToSet(input)
  {
    if input != [] {
      var n := |input| - 1;
      var init, idx := input[..n], input[n];
      assert input == init + [idx];
      TwoBlocks(g, init, [idx]);
      PassOrder(g, init);
      var groups := PassGroups(g, init);
      var out := Flatten(groups);
      forall x, y | x in out && y in [idx] ensures y !in g.Anc(x) { assert x in ToSet(out) && x in ToSet(init); }
      TopoConcat(g, out, [idx]);
      ToSetConcat(out, [idx]);
      ToSetConcat(init, [idx]);
      assert out + [idx] + Flatten<nat>([]) == out + [idx];
      SiftOrder(g, groups, [idx], []);
    }
  }

  // ---------------------------------------------------------------- groups are chunks

  /** Non-empty groups of used positions, each a chunk. */
  ghost predicate ChunkGroups(g: Graph, groups: seq<seq<nat>>) {
    forall k :: 0 <= k < |groups| ==> ChunkGroup(g, groups[k])
  }

  ghost predicate ChunkGroup(g: Graph, c: seq<nat>) { Chunky(g, c) && ToSet(c) <= g.used }

  lemma {:induction false} GroupSize(g: Graph, c: seq<nat>)
    requires Sized(g) && ChunkGroup(g, c)
    ensures SeqSum(g, c).size > 0
  {
    SeqSumSize(g, c);
  }

  /** What holds of the groups while `c` is sifting: the others are in order, and `c` has already
      passed those of lower feerate. */
  ghost predicate Sifting(g: Graph, front: seq<seq<nat>>, c: seq<nat>, back: seq<seq<nat>>) {
    && ChunkGroups(g, front + back) && Decreasing(g, front + back) && ChunkGroup(g, c)
    && (back != [] ==> Higher(SeqSum(g, c), SeqSum(g, back[0])))
  }

  lemma {:induction false} SiftChunks(g: Graph, front: seq<seq<nat>>, c: seq<nat>, back: seq<seq<nat>>)
    requires Sized(g) && Sifting(g, front, c, back)
    ensures ChunkGroups(g, Sift(g, front, c, back)) && Decreasing(g, Sift(g, front, c, back))
    decreases |front|
  {
    if !Lifts(g, front, c) {
      SiftStops(g, front, c, back);
    } else {
      var n := |front| - 1;
      var p, rest := front[n], front[..n];
      if DependsOn(g, c, p) {
        hide Sifting, Sized, DependsOn, SeqSum;
        MergeSifting(g, front, c, back);
        SiftChunks(g, rest, p + c, back);
      } else {
        assert rest + ([p] + back) == front + back;
        hide ChunkGroups, ChunkGroup, Decreasing, Sized, DependsOn, SeqSum;
        SiftChunks(g, rest, c, [p] + back);
      }
    }
  }

  lemma {:induction false} SiftStops(g: Graph, front: seq<seq<nat>>, c: seq<nat>, back: seq<seq<nat>>)
    requires Sifting(g, front, c, back) && !Lifts(g, front, c)
    ensures ChunkGroups(g, front + [c] + back) && Decreasing(g, front + [c] + back)
  {
    hide ChunkGroup, SeqSum;
    var all, r := front + back, front + [c] + back;
    var n := |front|;
    forall i | 0 <= i < |r| ensures ChunkGroup(g, r[i]) {
      if i < n { assert r[i] == all[i]; } else if i > n { assert r[i] == all[i - 1]; }
    }
    forall i | 0 <= i < |r| - 1 ensures !Higher(SeqSum(g, r[i + 1]), SeqSum(g, r[i])) {
      if i + 1 < n {
        assert r[i] == all[i] && r[i + 1] == all[i + 1];
      } else if i + 1 == n {
        assert r[i] == front[n - 1] && r[i + 1] == c;
      } else if i == n {
        assert r[i] == c && r[i + 1] == back[0];
        HigherIsExcess(SeqSum(g, c), SeqSum(g, back[0]));
      } else {
        assert r[i] == all[i - 1] && r[i + 1] == all[(i - 1) + 1];
      }
    }
  }

  /** Removing one group from a list of non-increasing feerates. */
  lemma {:induction false} RemoveDecreasing(g: Graph, all: seq<seq<nat>>, n: nat)
    requires Sized(g) && ChunkGroups(g, all) && Decreasing(g, all) && n < |all|
    ensures ChunkGroups(g, all[..n] + all[n + 1..]) && Decreasing(g, all[..n] + all[n + 1..])
  {
    var fewer := all[..n] + all[n + 1..];
    hide ChunkGroup, SeqSum, Sized;
    forall i | 0 <= i < |fewer| ensures ChunkGroup(g, fewer[i]) {
      assert fewer[i] == if i < n then all[i] else all[i + 1];
    }
    forall i | 0 <= i < |fewer| - 1 ensures !Higher(SeqSum(g, fewer[i + 1]), SeqSum(g, fewer[i])) {
      if i + 1 < n {
        assert fewer[i] == all[i] && fewer[i + 1] == all[i + 1];
      } else if i + 1 == n {
        assert fewer[i] == all[i] && fewer[i + 1] == all[(i + 1) + 1];
        GroupSize(g, all[i]); GroupSize(g, all[i + 1]); GroupSize(g, all[i + 2]);
        HigherTrans(SeqSum(g, all[i + 2]), SeqSum(g, all[i + 1]), SeqSum(g, all[i]));
      } else {
        assert fewer[i] == all[i + 1] && fewer[i + 1] == all[(i + 1) + 1];
      }
    }
  }

  lemma {:induction false} MergeGroup(g: Graph, p: seq<nat>, c: seq<nat>)
    requires Sized(g) && ChunkGroup(g, p) && ChunkGroup(g, c) && Higher(SeqSum(g, c), SeqSum(g, p))
    ensures ChunkGroup(g, p + c)
    ensures Excess(SeqSum(g, p + c), SeqSum(g, p)) < 0
    ensures SeqSum(g, p).size > 0 && SeqSum(g, c).size > 0 && SeqSum(g, p + c).size > 0
  {
    ToSetConcat(p, c);
    ChunkyMerge(g, p, c);
    SeqSumSize(g, p); SeqSumSize(g, c);
    SeqSumConcat(g, p, c);
    Mediant(SeqSum(g, p), SeqSum(g, c));
  }

  lemma {:induction false} MergeSifting(g: Graph, front: seq<seq<nat>>, c: seq<nat>, back: seq<seq<nat>>)
    requires Sized(g) && Sifting(g, front, c, back) && Lifts(g, front, c)
    ensures Sifting(g, front[..|front| - 1], front[|front| - 1] + c, back)
  {
    var n := |front| - 1;
    var p, rest, all := front[n], front[..n], front + back;
    hide Chunky, SeqSum, Sized;
    RemoveDecreasing(g, all, n);
    assert all[..n] + all[n + 1..] == rest + back;
    assert all[n] == p;
    MergeGroup(g, p, c);
    if back != [] {
      assert all[n + 1] == back[0];
      GroupSize(g, all[n + 1]);
      var m := SeqSum(g, p + c);
      HigherIsExcess(m, SeqSum(g, p));
      HigherTrans(m, SeqSum(g, p), SeqSum(g, back[0]));
    }
  }

  lemma {:induction false} PassChunks(g: Graph, input: seq<nat>)
    requires Sized(g) && ToSet(input) <= g.used
    ensures ChunkGroups(g, PassGroups(g, input)) && Decreasing(g, PassGroups(g, input))
  {
    if input != [] {
      var n := |input| - 1;
      var init, idx := input[..n], input[n];
      assert idx in ToSet(input);
      PrefixSet(input, n);
      PassChunks(g, init);
      var groups := PassGroups(g, init);
      assert groups + [] == groups;
      assert ToSet([idx]) == {idx};
      SiftChunks(g, groups, [idx], []);
    }
  }

  /** The groups of a pass are exactly the chunks of its output. */
  lemma {:induction false} PassChunking(g: Graph, input: seq<nat>)
    requires Sized(g) && ToSet(input) <= g.used
    ensures Chunking(g, Flatten(PassGroups(g, input)), PassGroups(g, input))
  {
    PassChunks(g, input);
    var groups := PassGroups(g, input);
    forall i | 0 <= i < |groups| ensures Chunky(g, groups[i]) { assert ChunkGroup(g, groups[i]); }
  }

  // ---------------------------------------------------------------- groups are connected

  ghost predicate AllConnected(g: Graph, groups: seq<seq<nat>>) {
    forall k :: 0 <= k < |groups| ==> Connected(g, ToSet(groups[k]))
  }

  lemma {:induction false} SiftConnected(g: Graph, front: seq<seq<nat>>, c: seq<nat>, back: seq<seq<nat>>)
    requires AllConnected(g, front) && AllConnected(g, back) && Connected(g, ToSet(c))
    ensures AllConnected(g, Sift(g, front, c, back))
    decreases |front|
  {
    hide Connected, SeqSum;
    if !Lifts(g, front, c) {
      var r := front + [c] + back;
      forall k | 0 <= k < |r| ensures Connected(g, ToSet(r[k])) {
        if k < |front| { assert r[k] == front[k]; } else if k > |front| { assert r[k] == back[k - |front| - 1]; }
      }
    } else {
      var n := |front| - 1;
      var p, rest := front[n], front[..n];
      assert Connected(g, ToSet(p));
      if DependsOn(g, c, p) {
        MergeConnected(g, p, c);
        SiftConnected(g, rest, p + c, back);
      } else {
        var back' := [p] + back;
        forall k | 0 <= k < |back'| ensures Connected(g, ToSet(back'[k])) {
          if k > 0 { assert back'[k] == back[k - 1]; }
        }
        SiftConnected(g, rest, c, back');
      }
    }
  }

  lemma {:induction false} MergeConnected(g: Graph, p: seq<nat>, c: seq<nat>)
    requires Connected(g, ToSet(p)) && Connected(g, ToSet(c)) && DependsOn(g, c, p)
    ensures Connected(g, ToSet(p + c))
  {
    var x :| x in Deps(g, c) * ToSet(p);
    DepsMember(g, c, x);
    var y :| y in c && x in g.Anc(y);
    assert y in ToSet(c) && x in ToSet(p) && Related(g, x, y);
    hide Connected;
    ConnectedUnion(g, ToSet(p), ToSet(c), x, y);
    ToSetConcat(p, c);
  }

  lemma {:induction false} PassConnected(g: Graph, input: seq<nat>)
    ensures AllConnected(g, PassGroups(g, input))
  {
    if input != [] {
      var n := |input| - 1;
      PassConnected(g, input[..n]);
      SingleConnected(g, input[n]);
      SiftConnected(g, PassGroups(g, input[..n]), [input[n]], []);
    }
  }

  lemma {:induction false} SingleConnected(g: Graph, i: nat)
    ensures Connected(g, ToSet([i]))
  {
    forall c | c != {} && Separated(g, ToSet([i]), c) ensures c == ToSet([i]) {
      assert forall x :: x in c ==> x == i;
      assert c == {i};
    }
  }

  // ---------------------------------------------------------------- no set of a family is better

  /** The part of `x` inside the group has no higher feerate than the group. */
  ghost predicate NoBetterPart(g: Graph, x: set<nat>, c: seq<nat>) {
    Excess(SeqSum(g, c), SetSum(g, x * ToSet(c))) <= 0
  }

  ghost predicate Tame(g: Graph, x: set<nat>, groups: seq<seq<nat>>) {
    forall k :: 0 <= k < |groups| ==> NoBetterPart(g, x, groups[k])
  }

  lemma {:induction false} TameThree(g: Graph, x: set<nat>, front: seq<seq<nat>>, c: seq<nat>, back: seq<seq<nat>>)
    requires Tame(g, x, front) && Tame(g, x, back) && NoBetterPart(g, x, c)
    ensures Tame(g, x, front + [c] + back) && Tame(g, x, [c] + back)
  {
    hide NoBetterPart;
    var r, t := front + [c] + back, [c] + back;
    forall k | 0 <= k < |r| ensures NoBetterPart(g, x, r[k]) {
      if k < |front| { assert r[k] == front[k]; } else if k > |front| { assert r[k] == back[k - |front| - 1]; }
    }
    forall k | 0 <= k < |t| ensures NoBetterPart(g, x, t[k]) { if k > 0 { assert t[k] == back[k - 1]; } }
  }

  lemma {:induction false} WholeIsNoBetter(g: Graph, x: set<nat>, c: seq<nat>)
    requires Distinct(c) && ToSet(c) <= x
    ensures NoBetterPart(g, x, c)
  {
    SeqSumIsSetSum(g, c);
    assert x * ToSet(c) == ToSet(c);
    ExcessSelf(SeqSum(g, c));
  }

  lemma {:induction false} DistinctParts(front: seq<seq<nat>>, c: seq<nat>)
    requires front != [] && Distinct(Flatten(front) + c)
    ensures var p := front[|front| - 1]; var rest := front[..|front| - 1];
            && Distinct(c) && Distinct(p) && ToSet(p) !! ToSet(c) && Distinct(p + c)
            && Distinct(Flatten(rest) + (p + c)) && Distinct(Flatten(rest) + c)
  {
    hide Distinct, ToSet, Flatten;
    var p, rest := front[|front| - 1], front[..|front| - 1];
    FlattenLast(front);
    assert Flatten(rest) + (p + c) == Flatten(front) + c;
    DistinctConcat(Flatten(rest), p + c);
    DistinctConcat(p, c);
    ToSetConcat(p, c);
    DistinctConcat(Flatten(rest), c);
  }

  /** Sifting when `x` contains everything the sifted group ends up with. */
  lemma {:induction false} SiftTameAll(g: Graph, x: set<nat>, front: seq<seq<nat>>, c: seq<nat>, back: seq<seq<nat>>)
    requires Distinct(Flatten(front) + c) && ToSet(SiftGroup(g, front, c)) <= x
    requires Tame(g, x, front) && Tame(g, x, back)
    ensures Tame(g, x, Sift(g, front, c, back))
    decreases |front|
  {
    hide Tame, Flatten, ToSet, Distinct, SeqSum;
    if !Lifts(g, front, c) {
      DistinctConcat(Flatten(front), c);
      WholeIsNoBetter(g, x, c);
      TameThree(g, x, front, c, back);
    } else {
      var n := |front| - 1;
      var p, rest := front[n], front[..n];
      DistinctParts(front, c);
      TameInit(g, x, front);
      if DependsOn(g, c, p) {
        SiftTameAll(g, x, rest, p + c, back);
      } else {
        TameThree(g, x, [], p, back);
        SiftTameAll(g, x, rest, c, [p] + back);
      }
    }
  }

  lemma {:induction false} TameInit(g: Graph, x: set<nat>, front: seq<seq<nat>>)
    requires Tame(g, x, front) && front != []
    ensures Tame(g, x, front[..|front| - 1]) && NoBetterPart(g, x, front[|front| - 1]) && Tame(g, x, [])
  {
    hide NoBetterPart;
    var rest := front[..|front| - 1];
    forall k | 0 <= k < |rest| ensures NoBetterPart(g, x, rest[k]) { assert rest[k] == front[k]; }
  }

  /** The part of `x` inside `c` has no higher feerate than any group in front of `c`. */
  ghost predicate BelowAll(g: Graph, x: set<nat>, front: seq<seq<nat>>, c: seq<nat>) {
    forall k :: 0 <= k < |front| ==> Excess(SeqSum(g, front[k]), SetSum(g, x * ToSet(c))) <= 0
  }

  /** Sifting when `x` does not contain the transaction being inserted. */
  lemma {:induction false} SiftTameNone(g: Graph, x: set<nat>, front: seq<seq<nat>>, c: seq<nat>, back: seq<seq<nat>>)
    requires Sized(g) && Sifting(g, front, c, back) && Distinct(Flatten(front) + c)
    requires Tame(g, x, front) && Tame(g, x, back)
    requires NoBetterPart(g, x, c) && BelowAll(g, x, front, c)
    ensures Tame(g, x, Sift(g, front, c, back))
    decreases |front|
  {
    if !Lifts(g, front, c) {
      TameThree(g, x, front, c, back);
    } else {
      var n := |front| - 1;
      var p, rest := front[n], front[..n];
      DistinctParts(front, c);
      TameInit(g, x, front);
      if DependsOn(g, c, p) {
        MergeTame(g, x, front, c, back);
        MergeSifting(g, front, c, back);
        hide *;
        SiftTameNone(g, x, rest, p + c, back);
      } else {
        assert rest + ([p] + back) == front + back;
        assert BelowAll(g, x, rest, c);
        hide NoBetterPart, Tame, Distinct, Flatten, ToSet, Chunky, SeqSum, ChunkGroup, BelowAll, Sized;
        TameThree(g, x, [], p, back);
        SiftTameNone(g, x, rest, c, [p] + back);
      }
    }
  }

  lemma {:induction false} MergeTame(g: Graph, x: set<nat>, front: seq<seq<nat>>, c: seq<nat>, back: seq<seq<nat>>)
    requires Sized(g) && Sifting(g, front, c, back) && Lifts(g, front, c)
    requires Distinct(front[|front| - 1] + c) && ToSet(front[|front| - 1]) !! ToSet(c)
    requires NoBetterPart(g, x, front[|front| - 1]) && NoBetterPart(g, x, c) && BelowAll(g, x, front, c)
    ensures NoBetterPart(g, x, front[|front| - 1] + c)
    ensures BelowAll(g, x, front[..|front| - 1], front[|front| - 1] + c)
  {
    hide ToSet, SetSum, SeqSum, Sized, Distinct, Excess, Decreasing, ChunkGroup;
    var n := |front| - 1;
    var p := front[n];
    assert (front + back)[n] == p;
    var xp, xc := SetSum(g, x * ToSet(p)), SetSum(g, x * ToSet(c));
    PartsAdd(g, x, p, c);
    MergeGroup(g, p, c);
    var m := SeqSum(g, p + c);
    ExcessAdd(m, xp, xc);
    ExcessTransDown(m, SeqSum(g, p), xp);
    ExcessTransDown(m, SeqSum(g, p), xc);
    forall k | 0 <= k < n ensures Excess(SeqSum(g, front[k]), xp.Add(xc)) <= 0 {
      FrontHigher(g, front, back, k);
      ExcessAdd(SeqSum(g, front[k]), xp, xc);
      ExcessTransDown(SeqSum(g, front[k]), SeqSum(g, p), xp);
    }
  }

  /** The part of `x` in two joined groups. */
  lemma {:induction false} PartsAdd(g: Graph, x: set<nat>, p: seq<nat>, c: seq<nat>)
    requires Sized(g) && ChunkGroup(g, p) && ChunkGroup(g, c) && ToSet(p) !! ToSet(c)
    ensures SetSum(g, x * ToSet(p)).Valid() && SetSum(g, x * ToSet(c)).Valid()
    ensures SetSum(g, x * ToSet(p + c)) == SetSum(g, x * ToSet(p)).Add(SetSum(g, x * ToSet(c)))
  {
    hide ToSet, SetSum, SeqSum, Sized, Chunky;
    var xp, xc := x * ToSet(p), x * ToSet(c);
    ToSetConcat(p, c);
    assert x * ToSet(p + c) == xp + xc;
    SetSumUnion(g, xp, xc);
    SetSumSize(g, xp);
    SetSumSize(g, xc);
  }

  /** Every group in front has at least the feerate of the last one in front. */
  lemma {:induction false} FrontHigher(g: Graph, front: seq<seq<nat>>, back: seq<seq<nat>>, k: nat)
    requires Sized(g) && ChunkGroups(g, front + back) && Decreasing(g, front + back) && k < |front|
    ensures Excess(SeqSum(g, front[k]), SeqSum(g, front[|front| - 1])) <= 0 && SeqSum(g, front[k]).size > 0
    decreases |front| - k
  {
    var all, n := front + back, |front| - 1;
    hide ChunkGroup, SeqSum, Sized;
    assert all[k] == front[k] && all[n] == front[n];
    GroupSize(g, all[k]);
    GroupSize(g, all[n]);
    if k == n {
      ExcessSelf(SeqSum(g, front[k]));
    } else {
      FrontHigher(g, front, back, k + 1);
      assert all[k + 1] == front[k + 1];
      assert !Higher(SeqSum(g, all[k + 1]), SeqSum(g, all[k]));
      HigherIsExcess(SeqSum(g, all[k + 1]), SeqSum(g, all[k]));
      ExcessTransDown(SeqSum(g, front[k]), SeqSum(g, front[k + 1]), SeqSum(g, front[n]));
    }
  }

  /** Whenever `x` contains a transaction, it contains all of the group this transaction is in
      right after it has been inserted. */
  ghost predicate Absorbs(g: Graph, input: seq<nat>, x: set<nat>) {
    forall n :: 0 <= n < |input| && input[n] in x ==>
      ToSet(SiftGroup(g, PassGroups(g, input[..n]), [input[n]])) <= x
  }

  lemma {:induction false} PassTame(g: Graph, input: seq<nat>, x: set<nat>)
    requires Sized(g) && ToSet(input) <= g.used && TopoList(g, input) && Absorbs(g, input, x)
    ensures Tame(g, x, PassGroups(g, input))
  {
    if input != [] {
      var n := |input| - 1;
      var init, idx := input[..n], input[n];
      assert input == init + [idx];
      assert idx in ToSet(input);
      PrefixSet(input, n);
      TwoBlocks(g, init, [idx]);
      AbsorbsInit(g, input, x);
      PassTame(g, init, x);
      var groups := PassGroups(g, init);
      PassOrder(g, init);
      PassChunks(g, init);
      DistinctConcat(Flatten(groups), [idx]);
      assert ToSet([idx]) == {idx};
      hide PassGroups, Absorbs;
      if idx in x {
        SiftTameAll(g, x, groups, [idx], []);
      } else {
        SiftStart(g, x, groups, idx);
        SiftTameNone(g, x, groups, [idx], []);
      }
    }
  }

  lemma {:induction false} AbsorbsInit(g: Graph, input: seq<nat>, x: set<nat>)
    requires Absorbs(g, input, x) && input != []
    ensures Absorbs(g, input[..|input| - 1], x)
    ensures var n := |input| - 1; input[n] in x ==> ToSet(SiftGroup(g, PassGroups(g, input[..n]), [input[n]])) <= x
  {
    var init := input[..|input| - 1];
    forall n | 0 <= n < |init| && init[n] in x
      ensures ToSet(SiftGroup(g, PassGroups(g, init[..n]), [init[n]])) <= x
    {
      assert init[n] == input[n] && init[..n] == input[..n];
    }
  }

  lemma {:induction false} SiftStart(g: Graph, x: set<nat>, groups: seq<seq<nat>>, idx: nat)
    requires ChunkGroups(g, groups) && Decreasing(g, groups) && idx in g.used && idx !in x
    ensures Sifting(g, groups, [idx], []) && NoBetterPart(g, x, [idx]) && BelowAll(g, x, groups, [idx])
  {
    assert groups + [] == groups;
    assert ToSet([idx]) == {idx};
    assert x * ToSet([idx]) == {};
  }

  /** A set without a better part in any chunk does not outweigh the best prefix. */
  lemma {:induction false} TameBound(g: Graph, rate: FeeFrac, x: set<nat>, l: seq<nat>, groups: seq<seq<nat>>)
    requires Sized(g) && ToSet(l) <= g.used && Distinct(l) && rate.size > 0
    requires Chunking(g, l, groups) && Tame(g, x, groups)
    ensures SetWeight(g, rate, x * ToSet(l)) <= Best(g, rate, l)
    decreases groups
  {
    if groups == [] {
      assert x * ToSet(l) == {};
    } else {
      ChunkingTail(g, l, groups);
      var c, t := groups[0], l[|groups[0]|..];
      ToSetConcat(c, t);
      DistinctConcat(c, t);
      assert Chunky(g, c) && NoBetterPart(g, x, c);
      assert Tame(g, x, groups[1..]);
      assert x * ToSet(l) == x * ToSet(c) + x * ToSet(t);
      if Weight(g, rate, c) <= 0 { BestBelowRate(g, rate, l, groups); }
      hide *;
      TameBound(g, rate, x, t, groups[1..]);
      TameStep(g, rate, x, c, t);
    }
  }

  lemma {:induction false} TameStep(g: Graph, rate: FeeFrac, x: set<nat>, c: seq<nat>, t: seq<nat>)
    requires Sized(g) && ToSet(c) <= g.used && Distinct(c) && Chunky(g, c) && rate.size > 0 && NoBetterPart(g, x, c)
    requires ToSet(c) !! ToSet(t) && SetWeight(g, rate, x * ToSet(t)) <= Best(g, rate, t)
    requires Weight(g, rate, c) <= 0 ==> Best(g, rate, t) == 0
    ensures SetWeight(g, rate, x * ToSet(c) + x * ToSet(t)) <= Best(g, rate, c + t)
  {
    BestConcat(g, rate, c, t);
    BestOfChunk(g, rate, c);
    SetWeightUnion(g, rate, x * ToSet(c), x * ToSet(t));
    PartBound(g, rate, x, c);
  }

  lemma {:induction false} PartBound(g: Graph, rate: FeeFrac, x: set<nat>, c: seq<nat>)
    requires Sized(g) && ToSet(c) <= g.used && Distinct(c) && c != [] && rate.size > 0 && NoBetterPart(g, x, c)
    ensures SetWeight(g, rate, x * ToSet(c)) <= Max(0, Weight(g, rate, c))
  {
    var a, b := x * ToSet(c), ToSet(c) - x;
    SeqSumIsSetSum(g, c);
    SetSumSplit(g, ToSet(c), x);
    assert ToSet(c) * x == a;
    SetSumSize(g, a); SetSumSize(g, b); SeqSumSize(g, c);
    hide SetSum, SeqSum;
    HigherIsExcess(SetSum(g, a), SeqSum(g, c));
    PartWeight(rate, SetSum(g, a), SetSum(g, b));
  }
}
