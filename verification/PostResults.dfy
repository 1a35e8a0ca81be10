/** What one pass, in either direction, guarantees. */
module PostResults {
  import opened FeeFracs
  import opened Lists
  import opened DepGraphs
  import opened Diagrams
  import opened Chunks
  import opened Fronts
  import opened FeerateDiagram
  import opened PostTheory

  /** The output of a forward pass. */
  function Forward(g: Graph, input: seq<nat>): seq<nat> { Flatten(PassGroups(g, input)) }

  /** The output of a backward pass: a forward pass over the reversed list, with children and
      parents, and the sign of all fees, exchanged. */
  function Backward(g: Graph, input: seq<nat>): seq<nat> { Reverse(Forward(Mirror(g), Reverse(input))) }

  // ---------------------------------------------------------------- never worse

  lemma {:induction false} SiftGroupWithin(g: Graph, front: seq<seq<nat>>, c: seq<nat>)
    ensures ToSet(SiftGroup(g, front, c)) <= ToSet(Flatten(front)) + ToSet(c)
    decreases |front|
  {
    if Lifts(g, front, c) {
      var n := |front| - 1;
      var p, rest := front[n], front[..n];
      FlattenLast(front);
      ToSetConcat(Flatten(rest), p);
      ToSetConcat(p, c);
      hide ToSet, Flatten, SeqSum;
      if DependsOn(g, c, p) { SiftGroupWithin(g, rest, p + c); } else { SiftGroupWithin(g, rest, c); }
    }
  }

  /** A prefix of the input absorbs: what is inserted joins only earlier transactions. */
  lemma {:induction false} PrefixAbsorbs(g: Graph, input: seq<nat>, k: nat)
    requires TopoList(g, input) && k <= |input|
    ensures Absorbs(g, input, ToSet(input[..k]))
  {
    var x := ToSet(input[..k]);
    forall n | 0 <= n < |input| && input[n] in x
      ensures ToSet(SiftGroup(g, PassGroups(g, input[..n]), [input[n]])) <= x
    {
      var j :| 0 <= j < k && input[..k][j] == input[n];
      assert input[j] == input[n] && j == n;
      InitialTopo(g, input, n);
      PassOrder(g, input[..n]);
      SiftGroupWithin(g, PassGroups(g, input[..n]), [input[n]]);
      assert ToSet(input[..n]) <= x;
    }
  }

  lemma {:induction false} InitialTopo(g: Graph, input: seq<nat>, n: nat)
    requires TopoList(g, input) && n <= |input|
    ensures TopoList(g, input[..n])
  {
    assert input == input[..n] + input[n..];
    TwoBlocks(g, input[..n], input[n..]);
  }

  /** If every prefix of `other` absorbs, the output is at least as good as `other`. */
  lemma {:induction false} PassAsGood(g: Graph, input: seq<nat>, other: seq<nat>)
    requires Sized(g) && TopoList(g, input) && ToSet(input) <= g.used
    requires Distinct(other) && ToSet(other) == ToSet(input)
    requires forall k :: 0 <= k <= |other| ==> Absorbs(g, input, ToSet(other[..k]))
    ensures AsGood(g, Forward(g, input), other)
  {
    var out := Forward(g, input);
    PassOrder(g, input);
    PassChunking(g, input);
    hide PassGroups, Absorbs, SeqSum, Best;
    forall rate: FeeFrac | rate.size > 0 ensures Best(g, rate, out) >= Best(g, rate, other) {
      var k := BestAttained(g, rate, other);
      var x := ToSet(other[..k]);
      PrefixSet(other, k);
      SeqSumIsSetSum(g, other[..k]);
      PassTame(g, input, x);
      TameBound(g, rate, x, out, PassGroups(g, input));
      assert x * ToSet(out) == x;
    }
  }

  lemma {:induction false} ForwardNeverWorse(g: Graph, input: seq<nat>)
    requires Sized(g) && TopoList(g, input) && ToSet(input) <= g.used
    ensures AsGood(g, Forward(g, input), input)
  {
    forall k | 0 <= k <= |input| ensures Absorbs(g, input, ToSet(input[..k])) {
      PrefixAbsorbs(g, input, k);
    }
    PassAsGood(g, input, input);
  }

  // ---------------------------------------------------------------- trees

  /** Any two descendants of a transaction are ordered by dependency. */
  ghost predicate Chain(g: Graph) {
    forall i, a, b :: a in g.used && b in g.used && i in g.Anc(a) && i in g.Anc(b) ==> a in g.Anc(b) || b in g.Anc(a)
  }

  /** `c` depends on `i` directly. */
  ghost predicate Child(g: Graph, i: nat, c: nat) {
    c in g.used && c != i && i in g.Anc(c) && forall k :: k in g.Anc(c) && i in g.Anc(k) ==> k == i || k == c
  }

  ghost predicate AtMostOneChild(g: Graph) {
    forall i, c, d :: Child(g, i, c) && Child(g, i, d) ==> c == d
  }

  /** Below a transaction, every descendant is reached through a child. */
  lemma {:induction false} ThroughChild(g: Graph, i: nat, a: nat) returns (c: nat)
    requires WellFormed(g) && Acyclic(g) && a in g.used && i in g.Anc(a) && i != a
    ensures Child(g, i, c) && c in g.Anc(a)
    decreases |g.Anc(a)|
  {
    if k :| k in g.Anc(a) && i in g.Anc(k) && k != i && k != a {
      AncestorCount(g, a, k);
      c := ThroughChild(g, i, k);
    } else {
      c := a;
    }
  }

  lemma {:induction false} OneChildChain(g: Graph)
    requires WellFormed(g) && Acyclic(g) && AtMostOneChild(g)
    ensures Chain(g)
  {
    forall i, a, b | a in g.used && b in g.used && i in g.Anc(a) && i in g.Anc(b)
      ensures a in g.Anc(b) || b in g.Anc(a)
    {
      ChainFrom(g, i, a, b);
    }
  }

  lemma {:induction false} ChainFrom(g: Graph, i: nat, a: nat, b: nat)
    requires WellFormed(g) && Acyclic(g) && AtMostOneChild(g)
    requires a in g.used && b in g.used && i in g.Anc(a) && i in g.Anc(b)
    ensures a in g.Anc(b) || b in g.Anc(a)
    decreases |g.Anc(a)| - |g.Anc(i)|
  {
    if i != a && i != b {
      var c := ThroughChild(g, i, a);
      var d := ThroughChild(g, i, b);
      AncestorCount(g, c, i);
      if c != a { AncestorCount(g, a, c); }
      ChainFrom(g, c, a, b);
    }
  }

  /** Every group consists of ancestors of its last transaction. */
  ghost predicate Rooted(g: Graph, groups: seq<seq<nat>>) {
    forall k :: 0 <= k < |groups| ==> RootedGroup(g, groups[k])
  }

  ghost predicate RootedGroup(g: Graph, c: seq<nat>) { c != [] && ToSet(c) <= g.Anc(c[|c| - 1]) }

  lemma {:induction false} MergeRooted(g: Graph, p: seq<nat>, c: seq<nat>)
    requires WellFormed(g) && Chain(g) && ToSet(p) <= g.used && ToSet(c) <= g.used
    requires RootedGroup(g, p) && RootedGroup(g, c) && DependsOn(g, c, p)
    requires c[|c| - 1] !in g.Anc(p[|p| - 1])
    ensures RootedGroup(g, p + c) && (p + c)[|p + c| - 1] == c[|c| - 1]
  {
    var r, i := p[|p| - 1], c[|c| - 1];
    var x :| x in Deps(g, c) * ToSet(p);
    DepsMember(g, c, x);
    var y :| y in c && x in g.Anc(y);
    assert y in ToSet(c) && i in ToSet(c) && r in ToSet(p);
    assert x in g.Anc(i) && x in g.Anc(r);
    assert r in g.Anc(i);
    ToSetConcat(p, c);
    forall z | z in ToSet(p) ensures z in g.Anc(i) { assert z in g.Anc(r); }
  }

  ghost predicate Earlier(g: Graph, front: seq<seq<nat>>, idx: nat) {
    forall k :: 0 <= k < |front| ==>
      ToSet(front[k]) <= g.used && front[k] != [] && idx !in g.Anc(front[k][|front[k]| - 1])
  }

  lemma {:induction false} SiftRooted(g: Graph, front: seq<seq<nat>>, c: seq<nat>, back: seq<seq<nat>>)
    requires WellFormed(g) && Chain(g) && ToSet(c) <= g.used
    requires Rooted(g, front) && Rooted(g, back) && RootedGroup(g, c) && Earlier(g, front, c[|c| - 1])
    ensures Rooted(g, Sift(g, front, c, back))
    ensures RootedGroup(g, SiftGroup(g, front, c)) && ToSet(SiftGroup(g, front, c)) <= g.Anc(c[|c| - 1])
    decreases |front|
  {
    if !Lifts(g, front, c) {
      var r := front + [c] + back;
      hide RootedGroup;
      forall k | 0 <= k < |r| ensures RootedGroup(g, r[k]) {
        if k < |front| { assert r[k] == front[k]; } else if k > |front| { assert r[k] == back[k - |front| - 1]; }
      }
    } else {
      var n := |front| - 1;
      var p, rest := front[n], front[..n];
      assert RootedGroup(g, p);
      hide WellFormed, Chain, SeqSum;
      if DependsOn(g, c, p) {
        MergeRooted(g, p, c);
        ToSetConcat(p, c);
        SiftRooted(g, rest, p + c, back);
      } else {
        var back' := [p] + back;
        forall k | 0 <= k < |back'| ensures RootedGroup(g, back'[k]) { if k > 0 { assert back'[k] == back[k - 1]; } }
        SiftRooted(g, rest, c, back');
      }
    }
  }

  lemma {:induction false} PassRooted(g: Graph, input: seq<nat>)
    requires WellFormed(g) && Chain(g) && TopoList(g, input) && ToSet(input) <= g.used
    ensures Rooted(g, PassGroups(g, input))
    ensures input != [] ==>
              var n := |input| - 1; ToSet(SiftGroup(g, PassGroups(g, input[..n]), [input[n]])) <= g.Anc(input[n])
  {
    if input != [] {
      var n := |input| - 1;
      var init, idx := input[..n], input[n];
      assert input == init + [idx];
      TwoBlocks(g, init, [idx]);
      ToSetConcat(init, [idx]);
      PassRooted(g, init);
      PassOrder(g, init);
      PassChunks(g, init);
      var groups := PassGroups(g, init);
      assert idx in ToSet(input);
      forall k | 0 <= k < |groups|
        ensures ToSet(groups[k]) <= g.used && groups[k] != [] && idx !in g.Anc(groups[k][|groups[k]| - 1])
      {
        assert ChunkGroup(g, groups[k]);
        GroupMember(groups, k, groups[k][|groups[k]| - 1]);
      }
      assert ToSet([idx]) == {idx};
      assert RootedGroup(g, [idx]);
      SiftRooted(g, groups, [idx], []);
    }
  }

  lemma {:induction false} GroupMember(groups: seq<seq<nat>>, k: nat, x: nat)
    requires k < |groups| && x in groups[k]
    ensures x in ToSet(Flatten(groups)) && x in Flatten(groups)
  {
    FlattenSplit(groups, k);
    assert groups[k..] == [groups[k]] + groups[k + 1..];
    FlattenConcat([groups[k]], groups[k + 1..]);
    FlattenOne(groups[k]);
  }

  /** In a tree where every transaction has at most one child, a forward pass is optimal. */
  lemma {:induction false} ForwardOptimal(g: Graph, input: seq<nat>)
    requires WellFormed(g) && Acyclic(g) && AtMostOneChild(g) && Linearization(g, g.used, input)
    ensures forall m :: Linearization(g, g.used, m) ==> AsGood(g, Forward(g, input), m)
  {
    OneChildChain(g);
    forall m | Linearization(g, g.used, m) ensures AsGood(g, Forward(g, input), m) {
      forall k | 0 <= k <= |m| ensures Absorbs(g, input, ToSet(m[..k])) {
        PrefixTopo(g, m, k);
        ClosedAbsorbs(g, input, ToSet(m[..k]));
      }
      assert Sized(g);
      hide WellFormed, Chain, Forward, Absorbs, Acyclic, AtMostOneChild;
      PassAsGood(g, input, m);
    }
  }

  lemma {:induction false} ClosedAbsorbs(g: Graph, input: seq<nat>, x: set<nat>)
    requires WellFormed(g) && Chain(g) && Linearization(g, g.used, input) && TopoSet(g, g.used, x)
    ensures Absorbs(g, input, x)
  {
    forall n | 0 <= n < |input| && input[n] in x
      ensures ToSet(SiftGroup(g, PassGroups(g, input[..n]), [input[n]])) <= x
    {
      hide Chain, Linearization, PassGroups, SiftGroup, ToSet;
      GroupOfAncestors(g, input, n);
      AncestorsIn(g, input[n], x);
    }
  }

  lemma {:induction false} AncestorsIn(g: Graph, i: nat, x: set<nat>)
    requires WellFormed(g) && TopoSet(g, g.used, x) && i in x
    ensures g.Anc(i) <= x
  {
  }

  lemma {:induction false} GroupOfAncestors(g: Graph, input: seq<nat>, n: nat)
    requires WellFormed(g) && Chain(g) && Linearization(g, g.used, input) && n < |input|
    ensures ToSet(SiftGroup(g, PassGroups(g, input[..n]), [input[n]])) <= g.Anc(input[n])
  {
    var head := input[..n + 1];
    InitialTopo(g, input, n + 1);
    PrefixSet(input, n + 1);
    hide Chain, TopoList, PassGroups, SiftGroup, ToSet, Distinct;
    PassRooted(g, head);
    assert head[..n] == input[..n] && head[n] == input[n];
  }

  // ---------------------------------------------------------------- a leaf moved to the end

  /** Without dependents among what follows it, a first transaction stays alone in its group. */
  ghost predicate Alone(t: nat, groups: seq<seq<nat>>) {
    forall k :: 0 <= k < |groups| && t in groups[k] ==> groups[k] == [t]
  }

  lemma {:induction false} SiftAlone(g: Graph, t: nat, front: seq<seq<nat>>, c: seq<nat>, back: seq<seq<nat>>)
    requires Alone(t, front) && Alone(t, back) && t !in c && t !in Deps(g, c)
    requires forall k :: 0 <= k < |front| && t !in front[k] ==> t !in Deps(g, front[k])
    ensures Alone(t, Sift(g, front, c, back)) && t !in SiftGroup(g, front, c)
    decreases |front|
  {
    if !Lifts(g, front, c) {
      var r := front + [c] + back;
      forall k | 0 <= k < |r| && t in r[k] ensures r[k] == [t] {
        if k < |front| { assert r[k] == front[k]; } else { assert k > |front| && r[k] == back[k - |front| - 1]; }
      }
    } else {
      var n := |front| - 1;
      var p, rest := front[n], front[..n];
      hide SeqSum;
      if DependsOn(g, c, p) {
        assert t !in p by {
          assert p == [t] ==> ToSet(p) == {t};
        }
        hide DependsOn;
        DepsConcat(g, p, c);
        SiftAlone(g, t, rest, p + c, back);
      } else {
        hide Deps, DependsOn;
        var back' := [p] + back;
        forall k | 0 <= k < |back'| && t in back'[k]
          ensures back'[k] == [t]
        {
          if k > 0 { assert back'[k] == back[k - 1]; }
        }
        SiftAlone(g, t, rest, c, back');
      }
    }
  }

  /** No transaction of `a` depends on `t`. */
  ghost predicate Independent(g: Graph, t: nat, a: seq<nat>) { forall x :: x in a ==> x != t && t !in g.Anc(x) }

  lemma {:induction false} IndependentPrefix(g: Graph, t: nat, a: seq<nat>, n: nat)
    requires Independent(g, t, a) && n <= |a|
    ensures Independent(g, t, a[..n])
  {
    forall x | x in a[..n] ensures x in a {
      var i :| 0 <= i < n && a[..n][i] == x;
      assert a[i] == x;
    }
  }

  lemma {:induction false} PassAlone(g: Graph, t: nat, a: seq<nat>)
    requires TopoList(g, [t] + a) && Independent(g, t, a)
    ensures Alone(t, PassGroups(g, [t] + a))
    ensures a != [] ==> t !in SiftGroup(g, PassGroups(g, [t] + a[..|a| - 1]), [a[|a| - 1]])
  {
    var input := [t] + a;
    if a == [] {
      assert input == [t] && input[..0] == [];
      assert PassGroups(g, input) == Sift(g, [], [t], []);
    } else {
      var n := |a| - 1;
      var init, idx := a[..n], a[n];
      assert input[..|input| - 1] == [t] + init && input[|input| - 1] == idx;
      InitialTopo(g, input, |input| - 1);
      assert idx in a;
      IndependentPrefix(g, t, a, n);
      PassAlone(g, t, init);
      PassOrder(g, [t] + init);
      var groups := PassGroups(g, [t] + init);
      forall k | 0 <= k < |groups| && t !in groups[k] ensures t !in Deps(g, groups[k]) {
        DepsMember(g, groups[k], t);
        forall y | y in groups[k] ensures t !in g.Anc(y) {
          GroupMember(groups, k, y);
          ToSetConcat([t], init);
          assert y in ToSet([t]) + ToSet(init);
          assert y in init;
        }
      }
      DepsMember(g, [idx], t);
      SiftAlone(g, t, groups, [idx], []);
    }
  }

  /** A prefix that leaves out `t` absorbs as long as nothing in it depends on `t`. */
  lemma {:induction false} LeafAbsorbs(g: Graph, t: nat, a: seq<nat>, b: seq<nat>, k: nat)
    requires TopoList(g, [t] + a + b) && Independent(g, t, a) && k <= |a|
    ensures Absorbs(g, [t] + a + b, ToSet(a[..k]))
  {
    var input, x := [t] + a + b, ToSet(a[..k]);
    forall n | 0 <= n < |input| && input[n] in x
      ensures ToSet(SiftGroup(g, PassGroups(g, input[..n]), [input[n]])) <= x
    {
      var j :| 0 <= j < k && a[..k][j] == input[n];
      assert input[j + 1] == a[j] == input[n];
      assert n == j + 1;
      LeafAbsorbsAt(g, t, a, b, k, j);
    }
  }

  lemma {:induction false} LeafAbsorbsAt(g: Graph, t: nat, a: seq<nat>, b: seq<nat>, k: nat, j: nat)
    requires TopoList(g, [t] + a + b) && Independent(g, t, a) && j < k <= |a|
    ensures var input := [t] + a + b;
            ToSet(SiftGroup(g, PassGroups(g, input[..j + 1]), [input[j + 1]])) <= ToSet(a[..k])
  {
    hide PassGroups, SiftGroup, TopoList, Independent, ToSet;
    var input := [t] + a + b;
    var head := a[..j + 1];
    InitialTopo(g, input, j + 2);
    InitialTopo(g, input, j + 1);
    assert input[..j + 2] == [t] + head && input[..j + 1] == [t] + a[..j] && input[j + 1] == a[j];
    assert head[..|head| - 1] == a[..j] && head[|head| - 1] == a[j];
    IndependentPrefix(g, t, a, j + 1);
    PassAlone(g, t, head);
    PassOrder(g, [t] + a[..j]);
    var groups := PassGroups(g, [t] + a[..j]);
    SiftGroupWithin(g, groups, [a[j]]);
    ToSetConcat([t], a[..j]);
    WithinHead(SiftGroup(g, groups, [a[j]]), t, a, j, k);
  }

  lemma {:induction false} WithinHead(s: seq<nat>, t: nat, a: seq<nat>, j: nat, k: nat)
    requires j < k <= |a| && t !in s && ToSet(s) <= ToSet([t]) + ToSet(a[..j]) + ToSet([a[j]])
    ensures ToSet(s) <= ToSet(a[..k])
  {
    forall y | y in ToSet(s) ensures y in ToSet(a[..k]) {
      if y == a[j] {
        assert a[..k][j] == y;
      } else {
        assert y in a[..j];
        assert a[..j] <= a[..k];
      }
    }
  }

  lemma {:induction false} MovedFirst(g: Graph, t: nat, a: seq<nat>, b: seq<nat>)
    requires Sized(g) && TopoList(g, [t] + a + b) && ToSet([t] + a + b) <= g.used && Independent(g, t, a)
    ensures AsGood(g, Forward(g, [t] + a + b), a + [t] + b)
  {
    var input, other := [t] + a + b, a + [t] + b;
    ToSetConcat([t] + a, b); ToSetConcat([t], a); ToSetConcat(a + [t], b); ToSetConcat(a, [t]);
    assert ToSet(other) == ToSet(input);
    MovedDistinct(t, a, b);
    forall k | 0 <= k <= |other| ensures Absorbs(g, input, ToSet(other[..k])) {
      if k <= |a| {
        assert other[..k] == a[..k];
        LeafAbsorbs(g, t, a, b, k);
      } else {
        var j := k - |a| - 1;
        assert other[..k] == a + [t] + b[..j] && input[..k] == [t] + a + b[..j];
        ToSetConcat(a + [t], b[..j]); ToSetConcat([t] + a, b[..j]);
        assert ToSet(other[..k]) == ToSet(input[..k]);
        PrefixAbsorbs(g, input, k);
      }
    }
    hide Absorbs, Forward, TopoList;
    PassAsGood(g, input, other);
  }

  lemma {:induction false} MovedDistinct(t: nat, a: seq<nat>, b: seq<nat>)
    requires Distinct([t] + a + b)
    ensures Distinct(a + [t] + b)
  {
    DistinctConcat([t] + a, b); DistinctConcat([t], a);
    DistinctConcat(a, [t]); DistinctConcat(a + [t], b);
    ToSetConcat([t], a); ToSetConcat(a, [t]);
  }

  // ---------------------------------------------------------------- mirrored graphs

  lemma {:induction false} MirrorSum(g: Graph, l: seq<nat>)
    ensures SeqSum(Mirror(g), l) == SeqSum(g, l).Negate()
  {
    if l != [] {
      var m := Mirror(g);
      MirrorRate(g, l[0]);
      MirrorSum(g, l[1..]);
      hide Mirror, Graph.Rate;
      NegateAdd(g.Rate(l[0]), SeqSum(g, l[1..]));
      assert SeqSum(m, l) == m.Rate(l[0]).Add(SeqSum(m, l[1..]));
    }
  }

  lemma {:induction false} NegateAdd(a: FeeFrac, b: FeeFrac)
    ensures a.Negate().Add(b.Negate()) == a.Add(b).Negate()
  {
  }

  lemma {:induction false} MirrorRate(g: Graph, i: nat)
    ensures Mirror(g).Rate(i) == g.Rate(i).Negate()
    ensures Mirror(g).Anc(i) == g.Desc(i) && Mirror(g).Desc(i) == g.Anc(i)
  {
    hide FeeFrac.Negate;
    NegateNothing();
    if i < |g.entries| {
      assert Mirror(g).entries[i] ==
        Entry(g.entries[i].feerate.Negate(), g.entries[i].descendants, g.entries[i].ancestors);
    }
  }

  lemma {:induction false} NegateNothing()
    ensures EMPTY.Negate() == EMPTY
  {
  }

  lemma {:induction false} NegatedExcess(rate: FeeFrac, a: FeeFrac)
    ensures Excess(rate, a.Negate()) == -Excess(rate.Negate(), a)
  {
    ExcessNegate(rate.Negate(), a);
    assert rate.Negate().Negate() == rate;
  }

  lemma {:induction false} ReverseSum(g: Graph, l: seq<nat>)
    ensures SeqSum(g, Reverse(l)) == SeqSum(g, l)
  {
    if l != [] {
      var a, t := l[0], l[1..];
      calc {
        SeqSum(g, Reverse(l));
        { SeqSumConcat(g, Reverse(t), [a]); }
        SeqSum(g, Reverse(t)).Add(SeqSum(g, [a]));
        { ReverseSum(g, t); SumOne(g, a); }
        SeqSum(g, t).Add(g.Rate(a));
        { AddLaws(g.Rate(a), SeqSum(g, t), EMPTY); }
        g.Rate(a).Add(SeqSum(g, t));
        SeqSum(g, l);
      }
    }
  }

  lemma {:induction false} MirrorWeight(g: Graph, rate: FeeFrac, l: seq<nat>)
    ensures Weight(Mirror(g), rate, Reverse(l)) == -Weight(g, rate.Negate(), l)
  {
    ReverseSum(Mirror(g), l);
    MirrorSum(g, l);
    NegatedExcess(rate, SeqSum(g, l));
  }

  lemma {:induction false} BestOne(g: Graph, rate: FeeFrac, i: nat)
    ensures Best(g, rate, [i]) == Max(0, Excess(rate, g.Rate(i)))
    ensures Weight(g, rate, [i]) == Excess(rate, g.Rate(i))
  {
    hide Excess, Graph.Rate;
    SumOne(g, i);
    assert [i][1..] == [];
  }

  /** The best prefix of the reversed list, with fees negated, complements the best prefix. */
  lemma {:induction false} MirrorBest(g: Graph, rate: FeeFrac, l: seq<nat>)
    ensures Best(Mirror(g), rate, Reverse(l)) == Best(g, rate.Negate(), l) - Weight(g, rate.Negate(), l)
  {
    if l == [] {
      assert Reverse(l) == [] && SeqSum(g, l) == EMPTY;
    } else {
      MirrorBest(g, rate, l[1..]);
      MirrorBestStep(g, rate, l[0], l[1..]);
      assert Reverse(l) == Reverse(l[1..]) + [l[0]] && l == [l[0]] + l[1..];
    }
  }

  lemma {:induction false} MirrorBestStep(g: Graph, rate: FeeFrac, a: nat, t: seq<nat>)
    requires Best(Mirror(g), rate, Reverse(t)) == Best(g, rate.Negate(), t) - Weight(g, rate.Negate(), t)
    ensures Best(Mirror(g), rate, Reverse(t) + [a]) ==
      Best(g, rate.Negate(), [a] + t) - Weight(g, rate.Negate(), [a] + t)
  {
    hide *;
    var m, r := Mirror(g), rate.Negate();
    BestConcat(m, rate, Reverse(t), [a]);
    BestConcat(g, r, [a], t);
    WeightConcat(g, r, [a], t);
    BestOne(m, rate, a);
    BestOne(g, r, a);
    MirrorWeight(g, rate, t);
    MirrorRate(g, a);
    NegatedExcess(rate, g.Rate(a));
    var e, bt, wt := Excess(r, g.Rate(a)), Best(g, r, t), Weight(g, r, t);
    calc {
      Best(m, rate, Reverse(t) + [a]);
      Max(Best(m, rate, Reverse(t)), Weight(m, rate, Reverse(t)) + Best(m, rate, [a]));
      Max(bt - wt, -wt + Max(0, -e));
      { MaxSwap(e, bt, wt); }
      Max(Max(0, e), e + bt) - (e + wt);
      Best(g, r, [a] + t) - Weight(g, r, [a] + t);
    }
  }

  lemma {:induction false} MaxSwap(w: int, best: int, total: int)
    requires best >= 0
    ensures Max(best - total, -total + Max(0, -w)) == Max(Max(0, w), w + best) - (w + total)
  {
  }

  lemma {:induction false} MirrorAsGood(g: Graph, a: seq<nat>, b: seq<nat>)
    requires SeqSum(g, a) == SeqSum(g, b) && AsGood(Mirror(g), Reverse(a), Reverse(b))
    ensures AsGood(g, a, b)
  {
    hide Mirror, Best, SeqSum;
    forall rate: FeeFrac | rate.size > 0 ensures Best(g, rate, a) >= Best(g, rate, b) {
      var r := rate.Negate();
      assert r.Negate() == rate;
      MirrorBest(g, r, a);
      MirrorBest(g, r, b);
      assert Best(Mirror(g), r, Reverse(a)) >= Best(Mirror(g), r, Reverse(b));
    }
  }

  lemma {:induction false} MirrorTopo(g: Graph, l: seq<nat>)
    requires WellFormed(g) && ToSet(l) <= g.used
    ensures TopoList(Mirror(g), Reverse(l)) <==> TopoList(g, l)
    ensures ToSet(Reverse(l)) == ToSet(l)
  {
    var m, r := Mirror(g), Reverse(l);
    ReverseSet(l);
    ReverseSet(r);
    ReverseTwice(l);
    forall p | 0 <= p < |l|
      ensures l[p] in g.used && r[p] == l[|l| - 1 - p]
    {
      assert l[p] in ToSet(l); ReverseAt(l, p);
    }
    if TopoList(g, l) {
      forall p, q | 0 <= p < q < |r| ensures r[q] !in m.Anc(r[p]) {
        MirrorRate(g, r[p]);
        assert l[|l| - 1 - p] !in g.Anc(l[|l| - 1 - q]);
      }
    }
    if TopoList(m, r) {
      forall p, q | 0 <= p < q < |l| ensures l[q] !in g.Anc(l[p]) {
        MirrorRate(g, l[q]);
        assert r[|l| - 1 - q] == l[q] && r[|l| - 1 - p] == l[p];
        assert r[|l| - 1 - p] !in m.Anc(r[|l| - 1 - q]);
      }
    }
  }

  /** A backward pass keeps a valid order of the same transactions. */
  lemma {:induction false} BackwardOrder(g: Graph, input: seq<nat>)
    requires WellFormed(g) && Linearization(g, g.used, input)
    ensures Linearization(g, g.used, Backward(g, input))
    ensures Linearization(Mirror(g), g.used, Reverse(input))
    ensures WellFormed(Mirror(g)) && Sized(Mirror(g))
    ensures Reverse(Backward(g, input)) == Forward(Mirror(g), Reverse(input))
  {
    var m, r := Mirror(g), Reverse(input);
    MirrorWellFormed(g);
    MirrorTopo(g, input);
    PassOrder(m, r);
    var out := Forward(m, r);
    ReverseTwice(out);
    ReverseSet(out);
    MirrorTopo(g, Reverse(out));
  }

  /** A backward pass is at least as good as anything whose mirror image the mirrored pass beats. */
  lemma {:induction false} BackwardAsGood(g: Graph, input: seq<nat>, other: seq<nat>)
    requires WellFormed(g) && Linearization(g, g.used, input) && Distinct(other) && ToSet(other) == g.used
    requires AsGood(Mirror(g), Forward(Mirror(g), Reverse(input)), Reverse(other))
    ensures AsGood(g, Backward(g, input), other)
  {
    BackwardOrder(g, input);
    SeqSumIsSetSum(g, Backward(g, input));
    SeqSumIsSetSum(g, other);
    hide Backward, Forward, Mirror, AsGood, WellFormed, SeqSum, SetSum;
    MirrorAsGood(g, Backward(g, input), other);
  }

  lemma {:induction false} BackwardNeverWorse(g: Graph, input: seq<nat>)
    requires WellFormed(g) && Linearization(g, g.used, input)
    ensures AsGood(g, Backward(g, input), input)
  {
    BackwardOrder(g, input);
    assert Mirror(g).used == g.used;
    hide Mirror, WellFormed, Backward, AsGood, Forward, Sized;
    ForwardNeverWorse(Mirror(g), Reverse(input));
    BackwardAsGood(g, input, input);
  }

  /** Every transaction has at most one parent. */
  ghost predicate AtMostOneParent(g: Graph) { AtMostOneChild(Mirror(g)) }

  lemma {:induction false} BackwardOptimal(g: Graph, input: seq<nat>)
    requires WellFormed(g) && Acyclic(g) && AtMostOneParent(g) && Linearization(g, g.used, input)
    ensures forall m :: Linearization(g, g.used, m) ==> AsGood(g, Backward(g, input), m)
  {
    var mg := Mirror(g);
    BackwardOrder(g, input);
    MirrorWellFormed(g);
    assert mg.used == g.used;
    ForwardOptimal(mg, Reverse(input));
    forall m | Linearization(g, g.used, m) ensures AsGood(g, Backward(g, input), m) {
      MirrorTopo(g, m);
      assert Linearization(mg, mg.used, Reverse(m));
      hide Mirror, WellFormed, Backward, AsGood, Forward, TopoList;
      BackwardAsGood(g, input, m);
    }
  }

  // ---------------------------------------------------------------- both passes

  /** `PostLinearize`: a backward pass followed by a forward pass. */
  function Post(g: Graph, input: seq<nat>): seq<nat> { Forward(g, Backward(g, input)) }

  lemma {:induction false} PostOrder(g: Graph, input: seq<nat>)
    requires WellFormed(g) && Linearization(g, g.used, input)
    ensures Linearization(g, g.used, Post(g, input))
  {
    BackwardOrder(g, input);
    PassOrder(g, Backward(g, input));
  }

  lemma {:induction false} PostAsGoodAs(g: Graph, input: seq<nat>, m: seq<nat>)
    requires WellFormed(g) && Linearization(g, g.used, input) && AsGood(g, Backward(g, input), m)
    ensures AsGood(g, Post(g, input), m)
  {
    BackwardOrder(g, input);
    assert Sized(g);
    hide Backward, Forward, WellFormed, AsGood, Sized;
    ForwardNeverWorse(g, Backward(g, input));
    AsGoodTrans(g, Post(g, input), Backward(g, input), m);
  }

  lemma {:induction false} PostNeverWorse(g: Graph, input: seq<nat>)
    requires WellFormed(g) && Linearization(g, g.used, input)
    ensures AsGood(g, Post(g, input), input)
  {
    BackwardNeverWorse(g, input);
    PostAsGoodAs(g, input, input);
  }

  /** The chunks of the result are connected. */
  lemma {:induction false} PostConnected(g: Graph, input: seq<nat>, parts: seq<seq<nat>>)
    requires WellFormed(g) && Linearization(g, g.used, input) && Chunking(g, Post(g, input), parts)
    ensures AllConnected(g, parts)
  {
    BackwardOrder(g, input);
    var b := Backward(g, input);
    PostOrder(g, input);
    PassChunking(g, b);
    PassConnected(g, b);
    ChunkingUnique(g, Post(g, input), parts, PassGroups(g, b));
  }

  /** On trees the result is optimal. */
  lemma {:induction false} PostOptimal(g: Graph, input: seq<nat>)
    requires WellFormed(g) && Acyclic(g) && Linearization(g, g.used, input)
    requires AtMostOneChild(g) || AtMostOneParent(g)
    ensures Optimal(g, Post(g, input))
  {
    PostOrder(g, input);
    BackwardOrder(g, input);
    if AtMostOneChild(g) {
      ForwardOptimal(g, Backward(g, input));
    } else {
      BackwardOptimal(g, input);
      hide Backward, WellFormed, Post, AsGood;
      forall m | Linearization(g, g.used, m) ensures AsGood(g, Post(g, input), m) {
        PostAsGoodAs(g, input, m);
      }
    }
  }

  /** `g` with the fee of transaction `t` replaced. */
  function WithFee(g: Graph, t: nat, fee: int): Graph
    requires t < |g.entries|
  {
    Graph(g.entries[t := g.entries[t].(feerate := FeeFrac(fee, g.entries[t].feerate.size))], g.used)
  }

  /** Moving a leaf to the end, possibly raising its fee, and post-processing the result gives a feerate
      diagram nowhere below that of the linearization started from. */
  lemma {:induction false} PostMovedLeaf(g: Graph, lin: seq<nat>, t: nat, fee: int, pa: seq<seq<nat>>,
                                         pb: seq<seq<nat>>)
    requires WellFormed(g) && Linearization(g, g.used, lin) && t in g.used && g.Desc(t) == {t}
    requires fee >= g.Rate(t).fee
    requires Chunking(WithFee(g, t, fee), Post(WithFee(g, t, fee), Without(lin, {t}) + [t]), pa) && Chunking(g, lin, pb)
    ensures Positive(Rates(WithFee(g, t, fee), pa)) && Positive(Rates(g, pb))
    ensures NowhereBelow(Rates(WithFee(g, t, fee), pa), Rates(g, pb))
  {
    hide WellFormed, Linearization, Chunking, Best, BestVertex, Post, Without, Rates, Positive, NonIncreasing,
         NowhereBelow, WithFee,
         Sized, ToSet;
    var h, l := WithFee(g, t, fee), Post(WithFee(g, t, fee), Without(lin, {t}) + [t]);
    SameTotals(g, lin, t, fee);
    RatesFacts(h, l, pa);
    RatesFacts(g, lin, pb);
    forall rate: FeeFrac | rate.size > 0 ensures BestVertex(rate, Rates(h, pa)) >= BestVertex(rate, Rates(g, pb)) {
      MovedLeafBest(g, lin, t, fee, rate);
      BestIsVertex(h, rate, l, pa);
      BestIsVertex(g, rate, lin, pb);
    }
    DiagramsCompare(Rates(h, pa), Rates(g, pb));
  }

  lemma {:induction false} SameTotals(g: Graph, lin: seq<nat>, t: nat, fee: int)
    requires WellFormed(g) && Linearization(g, g.used, lin) && t in g.used && g.Desc(t) == {t}
    requires t < |g.entries| && fee >= g.Rate(t).fee
    ensures var h := WithFee(g, t, fee); var l := Post(h, Without(lin, {t}) + [t]);
            && Sized(h) && Sized(g) && ToSet(l) <= h.used && ToSet(lin) <= g.used
            && SeqSum(h, l).size == SeqSum(g, lin).size && SeqSum(h, l).fee >= SeqSum(g, lin).fee
  {
    hide Post, Without, SeqSum, WithFee;
    var h, l := WithFee(g, t, fee), Post(WithFee(g, t, fee), Without(lin, {t}) + [t]);
    RaisedFee(g, t, fee);
    var u, v := CutAt(g, lin, t);
    assert Linearization(h, h.used, lin);
    MovedIsLinearization(h, u, v, t);
    PostOrder(h, u + v + [t]);
    SeqSumIsSetSum(h, l);
    SeqSumIsSetSum(h, lin);
    RaisedSum(g, t, fee, lin);
  }

  lemma {:induction false} RaisedSum(g: Graph, t: nat, fee: int, l: seq<nat>)
    requires t < |g.entries| && fee >= g.Rate(t).fee
    ensures SeqSum(WithFee(g, t, fee), l).size == SeqSum(g, l).size
      && SeqSum(WithFee(g, t, fee), l).fee >= SeqSum(g, l).fee
  {
    if l != [] { RaisedSum(g, t, fee, l[1..]); }
  }

  lemma {:induction false} MovedLeafBest(g: Graph, lin: seq<nat>, t: nat, fee: int, rate: FeeFrac)
    requires WellFormed(g) && Linearization(g, g.used, lin) && t in g.used && g.Desc(t) == {t}
    requires t < |g.entries| && fee >= g.Rate(t).fee && rate.size > 0
    ensures var h := WithFee(g, t, fee);
            Best(h, rate, Post(h, Without(lin, {t}) + [t])) >= Best(g, rate, lin)
  {
    var h := WithFee(g, t, fee);
    RaisedFee(g, t, fee);
    RaisedBest(g, t, fee, rate, lin);
    MovedLeaf(h, lin, t);
  }

  lemma {:induction false} RaisedFee(g: Graph, t: nat, fee: int)
    requires WellFormed(g) && t in g.used
    ensures var h := WithFee(g, t, fee);
            && WellFormed(h) && h.used == g.used
            && forall i :: h.Anc(i) == g.Anc(i) && h.Desc(i) == g.Desc(i)
    ensures forall l :: TopoList(g, l) ==> TopoList(WithFee(g, t, fee), l)
  {
  }

  lemma {:induction false} RaisedBest(g: Graph, t: nat, fee: int, rate: FeeFrac, l: seq<nat>)
    requires t < |g.entries| && fee >= g.Rate(t).fee && rate.size > 0
    ensures Best(WithFee(g, t, fee), rate, l) >= Best(g, rate, l)
  {
    if l != [] {
      RaisedBest(g, t, fee, rate, l[1..]);
      if l[0] == t {
        assert (fee - g.Rate(t).fee) * rate.size >= 0;
        assert fee * rate.size >= g.Rate(t).fee * rate.size;
      }
    }
  }

  lemma {:induction false} MovedLeaf(g: Graph, lin: seq<nat>, t: nat)
    requires WellFormed(g) && Linearization(g, g.used, lin) && t in g.used && g.Desc(t) == {t}
    ensures AsGood(g, Post(g, Without(lin, {t}) + [t]), lin)
  {
    var u, v := CutAt(g, lin, t);
    var moved := u + v + [t];
    MovedIsLinearization(g, u, v, t);
    var a, b := Reverse(v), Reverse(u);
    ReverseConcat(u + v, [t]); ReverseConcat(u, v);
    assert Reverse([t]) == [t];
    assert Reverse(moved) == [t] + a + b;
    ReverseConcat(u + [t], v); ReverseConcat(u, [t]);
    assert Reverse(lin) == a + [t] + b;
    BackwardOrder(g, moved);
    assert Mirror(g).used == g.used;
    LeafIndependent(g, u, v, t);
    hide Mirror, WellFormed, AsGood, Forward, Post, Backward, Sized;
    MovedFirst(Mirror(g), t, a, b);
    BackwardAsGood(g, moved, lin);
    PostAsGoodAs(g, moved, lin);
  }

  lemma {:induction false} CutAt(g: Graph, lin: seq<nat>, t: nat) returns (u: seq<nat>, v: seq<nat>)
    requires Distinct(lin) && t in ToSet(lin)
    ensures lin == u + [t] + v && Without(lin, {t}) == u + v
  {
    var k :| 0 <= k < |lin| && lin[k] == t;
    u, v := lin[..k], lin[k + 1..];
    assert lin == u + [t] + v;
    DistinctConcat(u + [t], v);
    DistinctConcat(u, [t]);
    ToSetConcat(u, [t]);
    assert t in ToSet([t]);
    WithoutConcat(u + [t], v, {t});
    WithoutConcat(u, [t], {t});
    WithoutNone(u, {t});
    WithoutNone(v, {t});
  }

  lemma {:induction false} MovedIsLinearization(g: Graph, u: seq<nat>, v: seq<nat>, t: nat)
    requires WellFormed(g) && Linearization(g, g.used, u + [t] + v) && t in g.used && g.Desc(t) == {t}
    ensures Linearization(g, g.used, u + v + [t])
  {
    TwoBlocks(g, u + [t], v);
    TwoBlocks(g, u, [t]);
    ToSetConcat(u + [t], v); ToSetConcat(u, [t]); ToSetConcat(u, v); ToSetConcat(u + v, [t]);
    forall x, y | x in u && y in v ensures y !in g.Anc(x) { assert x in u + [t]; }
    TopoConcat(g, u, v);
    forall x, y | x in u + v && y in [t] ensures y !in g.Anc(x) {
      assert x in ToSet(u) + ToSet(v) && x in g.used;
      assert t in ToSet([t]) && t in ToSet(u + [t]);
      assert x != t;
      assert t in g.Anc(x) ==> x in g.Desc(t);
    }
    TopoConcat(g, u + v, [t]);
  }

  lemma {:induction false} LeafIndependent(g: Graph, u: seq<nat>, v: seq<nat>, t: nat)
    requires WellFormed(g) && Linearization(g, g.used, u + [t] + v) && t in g.used
    ensures Independent(Mirror(g), t, Reverse(v))
  {
    TwoBlocks(g, u + [t], v);
    ReverseSet(v);
    forall x | x in Reverse(v) ensures x != t && t !in Mirror(g).Anc(x) {
      assert x in ToSet(v) && t in u + [t];
      ToSetConcat(u + [t], v);
      assert t in ToSet(u + [t]);
      MirrorRate(g, x);
      assert x in g.used && (t in g.Desc(x) <==> x in g.Anc(t));
    }
  }
}
