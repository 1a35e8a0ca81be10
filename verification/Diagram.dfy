/** Feerate diagrams of linearizations.

    At a fixed rate a linearization has a best prefix: the one whose total exceeds that rate the
    most (`Best`).  One linearization is at least as good as another when its best prefix is at
    least as good at every rate (`AsGood`).  The chunks of a linearization, and the feerate diagram
    they span, are related to this order in module `Chunks` and module `FeerateDiagram`. */
module Diagrams {
  import opened FeeFracs
  import opened Lists
  import opened DepGraphs

  function Max(a: int, b: int): int { if a < b then b else a }

  function Weight(g: Graph, rate: FeeFrac, l: seq<nat>): int { Excess(rate, SeqSum(g, l)) }

  ghost function SetWeight(g: Graph, rate: FeeFrac, s: set<nat>): int { Excess(rate, SetSum(g, s)) }

  /** The largest weight of any prefix, including the empty one. */
  function Best(g: Graph, rate: FeeFrac, l: seq<nat>): (b: int)
    ensures b >= 0
  {
    if l == [] then 0 else Max(0, Excess(rate, g.Rate(l[0])) + Best(g, rate, l[1..]))
  }

  ghost predicate AsGood(g: Graph, a: seq<nat>, b: seq<nat>) {
    forall rate: FeeFrac :: rate.size > 0 ==> Best(g, rate, a) >= Best(g, rate, b)
  }

  lemma {:induction false} WeightConcat(g: Graph, rate: FeeFrac, a: seq<nat>, b: seq<nat>)
    ensures Weight(g, rate, a + b) == Weight(g, rate, a) + Weight(g, rate, b)
  {
    SeqSumConcat(g, a, b);
    ExcessAdd(rate, SeqSum(g, a), SeqSum(g, b));
  }

  lemma {:induction false} SetWeightUnion(g: Graph, rate: FeeFrac, a: set<nat>, b: set<nat>)
    requires a !! b
    ensures SetWeight(g, rate, a + b) == SetWeight(g, rate, a) + SetWeight(g, rate, b)
  {
    SetSumUnion(g, a, b);
    ExcessAdd(rate, SetSum(g, a), SetSum(g, b));
  }

  lemma {:induction false} SetWeightSplit(g: Graph, rate: FeeFrac, s: set<nat>, t: set<nat>)
    ensures SetWeight(g, rate, s) == SetWeight(g, rate, s * t) + SetWeight(g, rate, s - t)
  {
    assert s == s * t + (s - t);
    SetWeightUnion(g, rate, s * t, s - t);
  }

  lemma {:induction false} NoExcess(rate: FeeFrac)
    ensures Excess(rate, EMPTY) == 0
  {
  }

  /** `Best` bounds the weight of every prefix ... */
  lemma {:induction false} PrefixBelowBest(g: Graph, rate: FeeFrac, l: seq<nat>, k: nat)
    requires k <= |l|
    ensures Weight(g, rate, l[..k]) <= Best(g, rate, l)
  {
    hide Excess;
    NoExcess(rate);
    if k == 0 {
      assert l[..k] == [];
    } else {
      assert l[..k][1..] == l[1..][..k - 1];
      PrefixBelowBest(g, rate, l[1..], k - 1);
      ExcessAdd(rate, g.Rate(l[0]), SeqSum(g, l[1..][..k - 1]));
    }
  }

  /** ... and is the weight of some prefix. */
  lemma {:induction false} BestAttained(g: Graph, rate: FeeFrac, l: seq<nat>) returns (k: nat)
    ensures k <= |l| && Weight(g, rate, l[..k]) == Best(g, rate, l)
  {
    if Best(g, rate, l) == 0 {
      k := 0;
      assert l[..k] == [];
    } else {
      var k' := BestAttained(g, rate, l[1..]);
      k := k' + 1;
      assert l[..k][1..] == l[1..][..k'];
      ExcessAdd(rate, g.Rate(l[0]), SeqSum(g, l[1..][..k']));
    }
  }

  lemma {:induction false} BestConcat(g: Graph, rate: FeeFrac, a: seq<nat>, b: seq<nat>)
    ensures Best(g, rate, a + b) == Max(Best(g, rate, a), Weight(g, rate, a) + Best(g, rate, b))
  {
    if a == [] {
      assert a + b == b;
    } else {
      assert (a + b)[1..] == a[1..] + b;
      BestConcat(g, rate, a[1..], b);
      ExcessAdd(rate, g.Rate(a[0]), SeqSum(g, a[1..]));
    }
  }

  lemma {:induction false} AsGoodTrans(g: Graph, a: seq<nat>, b: seq<nat>, c: seq<nat>)
    requires AsGood(g, a, b) && AsGood(g, b, c)
    ensures AsGood(g, a, c)
  {
    forall rate: FeeFrac | rate.size > 0 ensures Best(g, rate, a) >= Best(g, rate, c) {
      assert Best(g, rate, b) >= Best(g, rate, c);
    }
  }

  /** At least as good as every other topologically valid order of the same transactions. */
  ghost predicate Optimal(g: Graph, l: seq<nat>) {
    forall m :: Linearization(g, ToSet(l), m) ==> AsGood(g, l, m)
  }
}

/** Chunks: the maximal-feerate prefixes of what remains of a linearization. */
module Chunks {
  import opened FeeFracs
  import opened Lists
  import opened DepGraphs
  import opened Diagrams

  /** Every proper non-empty prefix has a strictly lower feerate than the whole. */
  ghost predicate Chunky(g: Graph, p: seq<nat>) {
    && p != []
    && forall k :: 0 < k < |p| ==> Lower(SeqSum(g, p[..k]), SeqSum(g, p))
  }

  ghost predicate Decreasing(g: Graph, parts: seq<seq<nat>>) {
    forall i :: 0 <= i < |parts| - 1 ==> !Higher(SeqSum(g, parts[i + 1]), SeqSum(g, parts[i]))
  }

  ghost predicate AllChunky(g: Graph, parts: seq<seq<nat>>) {
    forall i :: 0 <= i < |parts| ==> Chunky(g, parts[i])
  }

  /** `parts` cuts `l` into chunks of non-increasing feerate. */
  ghost predicate Chunking(g: Graph, l: seq<nat>, parts: seq<seq<nat>>) {
    Flatten(parts) == l && AllChunky(g, parts) && Decreasing(g, parts)
  }

  lemma {:induction false} PrefixFacts(g: Graph, p: seq<nat>, k: nat)
    requires Sized(g) && ToSet(p) <= g.used && k <= |p|
    ensures SeqSum(g, p) == SeqSum(g, p[..k]).Add(SeqSum(g, p[k..]))
    ensures SeqSum(g, p).Valid() && SeqSum(g, p[..k]).Valid() && SeqSum(g, p[k..]).Valid()
    ensures k > 0 ==> SeqSum(g, p[..k]).size > 0
    ensures k < |p| ==> SeqSum(g, p[k..]).size > 0
    ensures |p| > 0 ==> SeqSum(g, p).size > 0
  {
    assert p == p[..k] + p[k..];
    SeqSumConcat(g, p[..k], p[k..]);
    assert ToSet(p[..k]) <= ToSet(p) && ToSet(p[k..]) <= ToSet(p);
    SeqSumSize(g, p); SeqSumSize(g, p[..k]); SeqSumSize(g, p[k..]);
  }

  /** A chunk absorbs a chunk of lower feerate before it into a larger chunk. */
  lemma {:induction false} ChunkyMerge(g: Graph, p: seq<nat>, c: seq<nat>)
    requires Sized(g) && ToSet(p + c) <= g.used
    requires Chunky(g, p) && Chunky(g, c) && Higher(SeqSum(g, c), SeqSum(g, p))
    ensures Chunky(g, p + c)
  {
    var a, b := SeqSum(g, p), SeqSum(g, c);
    var m := a.Add(b);
    SeqSumConcat(g, p, c);
    Mediant(a, b);
    ToSetConcat(p, c);
    SeqSumSize(g, p); SeqSumSize(g, c);
    forall k | 0 < k < |p + c| ensures Lower(SeqSum(g, (p + c)[..k]), m) {
      if k < |p| {
        assert (p + c)[..k] == p[..k];
        PrefixFacts(g, p, k);
        ExcessTransDown(m, a, SeqSum(g, p[..k]));
      } else if k == |p| {
        assert (p + c)[..k] == p;
      } else {
        var j := k - |p|;
        assert (p + c)[..k] == p + c[..j];
        PrefixFacts(g, c, j);
        MergeTail(a, SeqSum(g, c[..j]), SeqSum(g, c[j..]));
        SeqSumConcat(g, p, c[..j]);
      }
    }
  }

  /** The inside of `ChunkyMerge`: `a` below `x + y`, and `x` below `x + y`. */
  lemma {:induction false} MergeTail(a: FeeFrac, x: FeeFrac, y: FeeFrac)
    requires a.size > 0 && x.size > 0 && y.size > 0
    requires Higher(x.Add(y), a) && Lower(x, x.Add(y))
    ensures Lower(a.Add(x), a.Add(x.Add(y)))
  {
    var b := x.Add(y);
    var m := a.Add(b);
    Mediant(a, b);
    ExcessAdd(b, x, y); ExcessSelf(b);
    ExcessTrans(m, b, y);
    ExcessAdd(m, x, y); ExcessAdd(m, a, x); ExcessAdd(m, a, b); ExcessSelf(m);
  }

  /** No prefix of a chunk outweighs both nothing and the whole chunk. */
  lemma {:induction false} ChunkyWeight(g: Graph, rate: FeeFrac, p: seq<nat>, k: nat)
    requires Sized(g) && ToSet(p) <= g.used && rate.size > 0
    requires Chunky(g, p) && k <= |p|
    ensures Weight(g, rate, p[..k]) <= Max(0, Weight(g, rate, p))
  {
    if k == 0 {
      assert p[..k] == [];
    } else if k == |p| {
      assert p[..k] == p;
    } else {
      PrefixFacts(g, p, k);
      PartWeight(rate, SeqSum(g, p[..k]), SeqSum(g, p[k..]));
    }
  }

  /** A part of no higher feerate than the whole outweighs either nothing or not the whole. */
  lemma {:induction false} PartWeight(rate: FeeFrac, x: FeeFrac, y: FeeFrac)
    requires rate.size > 0 && x.Valid() && y.Valid() && x.Add(y).size > 0
    requires !Higher(x, x.Add(y))
    ensures Excess(rate, x) <= Max(0, Excess(rate, x.Add(y)))
  {
    var m := x.Add(y);
    ExcessAdd(m, x, y); ExcessSelf(m);
    ExcessAdd(rate, x, y);
    if Excess(rate, m) < 0 {
      ExcessTransDown(rate, m, x);
    } else {
      ExcessTrans(rate, m, y);
    }
  }

  lemma {:induction false} BestOfChunk(g: Graph, rate: FeeFrac, p: seq<nat>)
    requires Sized(g) && ToSet(p) <= g.used && rate.size > 0 && Chunky(g, p)
    ensures Best(g, rate, p) == Max(0, Weight(g, rate, p))
  {
    var k := BestAttained(g, rate, p);
    ChunkyWeight(g, rate, p, k);
    PrefixBelowBest(g, rate, p, |p|);
    assert p[..|p|] == p;
  }

  lemma {:induction false} ChunkingTail(g: Graph, l: seq<nat>, parts: seq<seq<nat>>)
    requires Chunking(g, l, parts) && parts != []
    ensures Chunking(g, l[|parts[0]|..], parts[1..])
    ensures l == parts[0] + l[|parts[0]|..]
  {
    var t := parts[1..];
    forall i | 0 <= i < |t| - 1 ensures !Higher(SeqSum(g, t[i + 1]), SeqSum(g, t[i])) {
      assert t[i + 1] == parts[i + 2] && t[i] == parts[i + 1];
    }
  }

  /** The best prefix ends at a chunk boundary. */
  lemma {:induction false} BestChunkPrefix(g: Graph, rate: FeeFrac, l: seq<nat>, parts: seq<seq<nat>>) returns (m: nat)
    requires Sized(g) && ToSet(l) <= g.used && rate.size > 0
    requires Chunking(g, l, parts)
    ensures m <= |parts| && Weight(g, rate, Flatten(parts[..m])) == Best(g, rate, l)
    ensures m == 0 <==> Best(g, rate, l) == 0
    decreases parts
  {
    if Best(g, rate, l) == 0 {
      m := 0;
    } else {
      ChunkingTail(g, l, parts);
      var p, t := parts[0], l[|parts[0]|..];
      ToSetConcat(p, t);
      BestConcat(g, rate, p, t);
      assert Chunky(g, p);
      BestOfChunk(g, rate, p);
      var m' := BestChunkPrefix(g, rate, t, parts[1..]);
      m := m' + 1;
      assert parts[..m] == [p] + parts[1..][..m'];
      WeightConcat(g, rate, p, Flatten(parts[1..][..m']));
    }
  }

  /** At a rate not below the first chunk's, no prefix beats the empty one. */
  lemma {:induction false} BestBelowRate(g: Graph, rate: FeeFrac, l: seq<nat>, parts: seq<seq<nat>>)
    requires Sized(g) && ToSet(l) <= g.used && rate.size > 0
    requires Chunking(g, l, parts)
    requires parts != [] ==> Weight(g, rate, parts[0]) <= 0
    ensures Best(g, rate, l) == 0
    ensures parts != [] ==> |parts[0]| <= |l| && Best(g, rate, l[|parts[0]|..]) == 0
    decreases parts
  {
    if parts != [] {
      ChunkingTail(g, l, parts);
      var p, t := parts[0], l[|parts[0]|..];
      ToSetConcat(p, t);
      BestConcat(g, rate, p, t);
      assert Chunky(g, p);
      BestOfChunk(g, rate, p);
      if |parts| > 1 {
        var q := parts[1];
        assert parts[1..][0] == q;
        assert t == q + Flatten(parts[2..]) by { assert parts[1..][1..] == parts[2..]; }
        ToSetConcat(q, Flatten(parts[2..]));
        SeqSumSize(g, p); SeqSumSize(g, q);
        assert !Higher(SeqSum(g, parts[0 + 1]), SeqSum(g, parts[0]));
        ExcessTransDown(rate, SeqSum(g, p), SeqSum(g, q));
      }
      BestBelowRate(g, rate, t, parts[1..]);
    }
  }

  /** There is only one way to cut a linearization into chunks. */
  lemma {:induction false} ChunkingUnique(g: Graph, l: seq<nat>, a: seq<seq<nat>>, b: seq<seq<nat>>)
    requires Sized(g) && ToSet(l) <= g.used
    requires Chunking(g, l, a) && Chunking(g, l, b)
    ensures a == b
    decreases a
  {
    if a == [] {
      assert b != [] ==> Chunky(g, b[0]);
    } else {
      assert Chunky(g, a[0]);
      ChunkingTail(g, l, a);
      assert b != [];
      assert Chunky(g, b[0]);
      ChunkingTail(g, l, b);
      if |a[0]| < |b[0]| {
        FirstChunkMaximal(g, l, a, b[0]);
      } else if |b[0]| < |a[0]| {
        FirstChunkMaximal(g, l, b, a[0]);
      }
      assert a[0] == l[..|a[0]|] && b[0] == l[..|b[0]|];
      assert ToSet(l[|a[0]|..]) <= ToSet(l);
      ChunkingUnique(g, l[|a[0]|..], a[1..], b[1..]);
      assert a == [a[0]] + a[1..] && b == [b[0]] + b[1..];
    }
  }

  /** A prefix longer than the first chunk is not itself a chunk. */
  lemma {:induction false} FirstChunkMaximal(g: Graph, l: seq<nat>, parts: seq<seq<nat>>, q: seq<nat>)
    requires Sized(g) && ToSet(l) <= g.used && Chunking(g, l, parts) && parts != []
    requires |parts[0]| < |q| <= |l| && q == l[..|q|]
    ensures !Chunky(g, q)
  {
    var p := parts[0];
    ChunkingTail(g, l, parts);
    assert Chunky(g, p);
    assert q[..|p|] == p;
    PrefixSet(l, |p|);
    assert ToSet(q) <= ToSet(l) && ToSet(p) <= ToSet(l);
    SeqSumSize(g, p); SeqSumSize(g, q);
    var rate := SeqSum(g, p);
    BestBelowRate(g, rate, l, parts);
    PrefixBelowBest(g, rate, l, |q|);
    assert !Lower(SeqSum(g, q[..|p|]), SeqSum(g, q));
  }
}

/** When moving a set of transactions to the front of a linearization never worsens it. */
module Fronts {
  import opened FeeFracs
  import opened Lists
  import opened DepGraphs
  import opened Diagrams
  import opened Chunks

  /** The transactions in the first `m` chunks. */
  ghost function Cover(parts: seq<seq<nat>>, m: nat): set<nat>
    requires m <= |parts|
  {
    ToSet(Flatten(parts[..m]))
  }

  /** Whatever part of `b` lies beyond a non-empty chunk prefix has at least the feerate of the
      first chunk. */
  ghost predicate KeepsDiagram(g: Graph, parts: seq<seq<nat>>, b: set<nat>) {
    parts != [] &&
    forall m :: 1 <= m <= |parts| ==> SetWeight(g, SeqSum(g, parts[0]), b - Cover(parts, m)) >= 0
  }

  lemma {:induction false} CoverFacts(g: Graph, l: seq<nat>, parts: seq<seq<nat>>, m: nat)
    requires Flatten(parts) == l && m <= |parts|
    ensures var p := Flatten(parts[..m]); |p| <= |l| && p == l[..|p|]
    ensures Cover(parts, m) <= ToSet(l)
    ensures TopoList(g, l) ==> TopoSet(g, ToSet(l), Cover(parts, m))
    ensures m == |parts| ==> Cover(parts, m) == ToSet(l)
    ensures m > 0 ==> ToSet(parts[0]) <= Cover(parts, m)
  {
    FlattenSplit(parts, m);
    var p := Flatten(parts[..m]);
    PrefixSet(l, |p|);
    if TopoList(g, l) { PrefixTopo(g, l, |p|); }
    if m == |parts| { assert parts[..m] == parts; }
    if m > 0 { assert parts[..m][0] == parts[0]; }
  }

  lemma {:induction false} CoverMonotone(parts: seq<seq<nat>>, i: nat, j: nat)
    requires i <= j <= |parts|
    ensures Cover(parts, i) <= Cover(parts, j)
  {
    assert parts[..j][..i] == parts[..i];
    FlattenSplit(parts[..j], i);
  }

  lemma {:induction false} CoverOne(parts: seq<seq<nat>>)
    requires parts != []
    ensures Cover(parts, 1) == ToSet(parts[0])
  {
    assert parts[..1] == [parts[0]];
    FlattenOne(parts[0]);
  }

  /** Moving `b` to the front, in any order, never lowers the best prefix at any rate. */
  lemma {:induction false} MoveToFront(g: Graph, rate: FeeFrac, l: seq<nat>, parts: seq<seq<nat>>, b: set<nat>)
    requires Sized(g) && ToSet(l) <= g.used && rate.size > 0 && Distinct(l) && b <= ToSet(l)
    requires Chunking(g, l, parts) && KeepsDiagram(g, parts, b)
    ensures Best(g, rate, l) <= Max(0, SetWeight(g, rate, b) + Best(g, rate, Without(l, b)))
  {
    FirstChunk(g, l, parts);
    if Weight(g, rate, parts[0]) <= 0 {
      BestBelowRate(g, rate, l, parts);
    } else {
      var m := BestChunkPrefix(g, rate, l, parts);
      if m > 0 {
        var p, c := Flatten(parts[..m]), Cover(parts, m);
        CoverFacts(g, l, parts, m);
        SetSumSize(g, b - c);
        ExcessTrans(rate, SeqSum(g, parts[0]), SetSum(g, b - c));
        MovePrefix(g, rate, l, |p|, b);
      }
    }
  }

  /** Moving `b` to the front keeps the weight of a prefix when the rest of `b` weighs in its favour. */
  lemma {:induction false} MovePrefix(g: Graph, rate: FeeFrac, l: seq<nat>, k: nat, b: set<nat>)
    requires Distinct(l) && k <= |l|
    requires SetWeight(g, rate, b - ToSet(l[..k])) >= 0
    ensures Weight(g, rate, l[..k]) <= SetWeight(g, rate, b) + Best(g, rate, Without(l, b))
  {
    var c := ToSet(l[..k]);
    PrefixWithout(g, rate, l, k, b);
    SetWeightSplit(g, rate, b, c);
    SetWeightSplit(g, rate, c, b);
    assert b * c == c * b;
  }

  lemma {:induction false} PrefixWithout(g: Graph, rate: FeeFrac, l: seq<nat>, k: nat, b: set<nat>)
    requires Distinct(l) && k <= |l|
    ensures Weight(g, rate, l[..k]) == SetWeight(g, rate, ToSet(l[..k]))
    ensures SetWeight(g, rate, ToSet(l[..k]) - b) <= Best(g, rate, Without(l, b))
  {
    var p := l[..k];
    PrefixSet(l, k);
    assert l == p + l[k..];
    WithoutConcat(p, l[k..], b);
    WithoutSet(p, b);
    var w := Without(p, b);
    SeqSumIsSetSum(g, p);
    SeqSumIsSetSum(g, w);
    PrefixBelowBest(g, rate, Without(l, b), |w|);
    assert Without(l, b)[..|w|] == w;
  }

  /** The same, for a prefix `out` already fixed and an arbitrary order `t` of `b`. */
  lemma {:induction false} ExtendOutput(g: Graph, out: seq<nat>, l: seq<nat>, parts: seq<seq<nat>>, b: set<nat>,
                                        t: seq<nat>)
    requires Sized(g) && ToSet(l) <= g.used && Distinct(l) && b <= ToSet(l)
    requires Chunking(g, l, parts) && KeepsDiagram(g, parts, b)
    requires Distinct(t) && ToSet(t) == b
    ensures AsGood(g, out + t + Without(l, b), out + l)
  {
    forall rate: FeeFrac | rate.size > 0
      ensures Best(g, rate, out + t + Without(l, b)) >= Best(g, rate, out + l)
    {
      MoveToFront(g, rate, l, parts, b);
      SeqSumIsSetSum(g, t);
      ReplaceTail(g, rate, out, t, Without(l, b), l);
    }
  }

  lemma {:induction false} ReplaceTail(g: Graph, rate: FeeFrac, out: seq<nat>, t: seq<nat>, rest: seq<nat>, l: seq<nat>)
    requires Best(g, rate, l) <= Max(0, Weight(g, rate, t) + Best(g, rate, rest))
    ensures Best(g, rate, out + t + rest) >= Best(g, rate, out + l)
  {
    hide Weight;
    var r := t + rest;
    assert Best(g, rate, r) >= Best(g, rate, l) by { BestConcat(g, rate, t, rest); }
    BestConcat(g, rate, out, l);
    BestConcat(g, rate, out, r);
    assert out + t + rest == out + r;
  }

  /** `b` has the highest feerate of all non-empty topologically valid subsets of `todo`. */
  ghost predicate HighestSet(g: Graph, todo: set<nat>, b: set<nat>) {
    && TopoSet(g, todo, b) && b != {}
    && forall x :: TopoSet(g, todo, x) && x != {} ==> !Higher(SetSum(g, x), SetSum(g, b))
  }

  /** The highest-feerate topologically valid subset may always be moved to the front. */
  lemma {:induction false} OptimalFront(g: Graph, todo: set<nat>, l: seq<nat>, parts: seq<seq<nat>>, b: set<nat>)
    requires Sized(g) && todo <= g.used
    requires Linearization(g, todo, l) && Chunking(g, l, parts) && HighestSet(g, todo, b)
    ensures KeepsDiagram(g, parts, b)
  {
    assert parts != [] by { assert b <= ToSet(l); }
    FirstChunk(g, l, parts);
    SetSumSize(g, b);
    forall m | 1 <= m <= |parts| ensures SetWeight(g, SeqSum(g, parts[0]), b - Cover(parts, m)) >= 0 {
      CoverFacts(g, l, parts, m);
      HighestBeyond(g, todo, b, Cover(parts, m));
      SetSumSize(g, b - Cover(parts, m));
      ExcessTrans(SeqSum(g, parts[0]), SetSum(g, b), SetSum(g, b - Cover(parts, m)));
    }
  }

  lemma {:induction false} HighestBeyond(g: Graph, todo: set<nat>, b: set<nat>, c: set<nat>)
    requires HighestSet(g, todo, b) && TopoSet(g, todo, c)
    ensures SetWeight(g, SetSum(g, b), b - c) >= 0
  {
    TopoIntersect(g, todo, b, c);
    SetWeightSplit(g, SetSum(g, b), b, c);
    ExcessSelf(SetSum(g, b));
    assert b * c == {} || !Higher(SetSum(g, b * c), SetSum(g, b));
  }

  /** The first chunk as a set. */
  lemma {:induction false} FirstChunk(g: Graph, l: seq<nat>, parts: seq<seq<nat>>)
    requires Sized(g) && ToSet(l) <= g.used && Distinct(l)
    requires Chunking(g, l, parts) && parts != []
    ensures ToSet(parts[0]) != {} && ToSet(parts[0]) <= ToSet(l)
    ensures SeqSum(g, parts[0]) == SetSum(g, ToSet(parts[0])) && SeqSum(g, parts[0]).size > 0
    ensures TopoList(g, l) ==> TopoSet(g, ToSet(l), ToSet(parts[0]))
  {
    CoverFacts(g, l, parts, 1);
    CoverOne(parts);
    assert Chunky(g, parts[0]);
    assert parts[0][0] in ToSet(parts[0]);
    FlattenSplit(parts, 1);
    assert parts[..1] == [parts[0]];
    DistinctConcat(parts[0], Flatten(parts[1..]));
    SeqSumIsSetSum(g, parts[0]);
    SeqSumSize(g, parts[0]);
  }

  /** Part of the first chunk may always be moved to the front. */
  lemma {:induction false} SubsetFront(g: Graph, l: seq<nat>, parts: seq<seq<nat>>, b: set<nat>)
    requires Flatten(parts) == l && parts != [] && b <= ToSet(parts[0])
    ensures KeepsDiagram(g, parts, b)
  {
    forall m | 1 <= m <= |parts| ensures SetWeight(g, SeqSum(g, parts[0]), b - Cover(parts, m)) >= 0 {
      CoverFacts(g, l, parts, m);
      assert b - Cover(parts, m) == {};
    }
  }

  /** `j` is the shortest chunk prefix whose intersection with `s` is non-empty and has a feerate
      not below that of `s`. */
  ghost predicate ShortestGood(g: Graph, parts: seq<seq<nat>>, s: set<nat>, j: nat) {
    && 0 < j <= |parts|
    && s * Cover(parts, j) != {}
    && !Lower(SetSum(g, s * Cover(parts, j)), SetSum(g, s))
    && TooLow(g, parts, s, j)
  }

  /** All chunk prefixes before the `j`-th miss `s` or intersect it in a set of lower feerate. */
  ghost predicate TooLow(g: Graph, parts: seq<seq<nat>>, s: set<nat>, j: nat) {
    j <= |parts| + 1 &&
    forall m :: 0 <= m < j ==> s * Cover(parts, m) == {} || Lower(SetSum(g, s * Cover(parts, m)), SetSum(g, s))
  }

  /** Intersecting a set that is not worse than the first chunk with its shortest good chunk prefix
      gives something that may be moved to the front. */
  lemma {:induction false} IntersectFront(g: Graph, l: seq<nat>, parts: seq<seq<nat>>, s: set<nat>, j: nat)
    requires Sized(g) && ToSet(l) <= g.used && Distinct(l)
    requires Chunking(g, l, parts) && s != {} && s <= ToSet(l)
    requires ShortestGood(g, parts, s, j) && !Lower(SetSum(g, s), SeqSum(g, parts[0]))
    ensures KeepsDiagram(g, parts, s * Cover(parts, j))
  {
    FirstChunk(g, l, parts);
    SetSumSize(g, s);
    forall m | 1 <= m <= |parts|
      ensures SetWeight(g, SeqSum(g, parts[0]), s * Cover(parts, j) - Cover(parts, m)) >= 0
    {
      IntersectBeyond(g, parts, s, j, m);
      SetSumSize(g, s * Cover(parts, j) - Cover(parts, m));
      ExcessTrans(SeqSum(g, parts[0]), SetSum(g, s), SetSum(g, s * Cover(parts, j) - Cover(parts, m)));
    }
  }

  lemma {:induction false} IntersectBeyond(g: Graph, parts: seq<seq<nat>>, s: set<nat>, j: nat, m: nat)
    requires ShortestGood(g, parts, s, j) && m <= |parts|
    ensures SetWeight(g, SetSum(g, s), s * Cover(parts, j) - Cover(parts, m)) >= 0
  {
    var b, c := s * Cover(parts, j), Cover(parts, m);
    if m >= j {
      CoverMonotone(parts, j, m);
      assert b - c == {};
    } else {
      CoverMonotone(parts, m, j);
      assert b * c == s * c;
      BeyondWeight(g, s, b, c);
    }
  }

  lemma {:induction false} BeyondWeight(g: Graph, s: set<nat>, b: set<nat>, c: set<nat>)
    requires b * c == s * c && !Lower(SetSum(g, b), SetSum(g, s))
    requires s * c == {} || Lower(SetSum(g, s * c), SetSum(g, s))
    ensures SetWeight(g, SetSum(g, s), b - c) >= 0
  {
    SetWeightSplit(g, SetSum(g, s), b, c);
  }
}
