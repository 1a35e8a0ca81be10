/** Computing chunks: `ChunkLinearization` and the class `LinearizationChunking`, which keeps the
    chunks of what remains of a linearization while transactions are removed from it. */
module Chunkings {
  import opened FeeFracs
  import opened Lists
  import opened DepGraphs
  import opened Diagrams
  import opened Chunks
  import opened Fronts
  import FeerateDiagram

  /** A chunking in the making: finished chunks followed by the chunk `p` being built. */
  ghost predicate Stack(g: Graph, l: seq<nat>, parts: seq<seq<nat>>, p: seq<nat>) {
    && AllChunky(g, parts) && Decreasing(g, parts) && Chunky(g, p)
    && Flatten(parts) + p == l && ToSet(l) <= g.used
  }

  lemma {:induction false} StackStart(g: Graph, l: seq<nat>, parts: seq<seq<nat>>, i: nat)
    requires Chunking(g, l, parts) && ToSet(l + [i]) <= g.used
    ensures Stack(g, l + [i], parts, [i]) && SeqSum(g, [i]) == g.Rate(i)
  {
    hide ToSet, SeqSum, Lower, Higher, Flatten;
    SumOne(g, i);
  }

  /** The chunk being built absorbs the last finished chunk, which has a lower feerate. */
  lemma {:induction false} AbsorbStep(g: Graph, l: seq<nat>, parts: seq<seq<nat>>, p: seq<nat>)
    requires Sized(g) && parts != [] && Stack(g, l, parts, p)
    requires Higher(SeqSum(g, p), SeqSum(g, parts[|parts| - 1]))
    ensures var last := parts[|parts| - 1];
            && Stack(g, l, parts[..|parts| - 1], last + p)
            && SeqSum(g, last + p) == SeqSum(g, p).Add(SeqSum(g, last))
            && ToSet(last + p) == ToSet(p) + ToSet(last)
  {
    var n := |parts| - 1;
    var last, rest := parts[n], parts[..n];
    assert Chunky(g, last);
    forall i | 0 <= i < |rest| - 1 ensures !Higher(SeqSum(g, rest[i + 1]), SeqSum(g, rest[i])) {
      assert rest[i + 1] == parts[i + 1] && rest[i] == parts[i];
    }
    AbsorbFlatten(g, l, parts, p);
    hide Flatten, SeqSum, Chunky;
    ChunkyMerge(g, last, p);
    SeqSumConcat(g, last, p);
    AddLaws(SeqSum(g, last), SeqSum(g, p), EMPTY);
  }

  lemma {:induction false} AbsorbFlatten(g: Graph, l: seq<nat>, parts: seq<seq<nat>>, p: seq<nat>)
    requires parts != [] && Flatten(parts) + p == l && ToSet(l) <= g.used
    ensures var last := parts[|parts| - 1];
            && Flatten(parts[..|parts| - 1]) + (last + p) == l
            && ToSet(last + p) == ToSet(p) + ToSet(last)
            && ToSet(last + p) <= g.used
  {
    hide ToSet, Flatten;
    var n := |parts| - 1;
    var last, rest := parts[n], parts[..n];
    FlattenSplit(parts, n);
    assert parts[n..] == [last];
    FlattenOne(last);
    assert Flatten(rest) + (last + p) == (Flatten(rest) + last) + p;
    ToSetConcat(Flatten(rest), last + p);
    ToSetConcat(last, p);
  }

  lemma {:induction false} PushChunk(g: Graph, l: seq<nat>, parts: seq<seq<nat>>, p: seq<nat>)
    requires Stack(g, l, parts, p)
    requires parts != [] ==> !Higher(SeqSum(g, p), SeqSum(g, parts[|parts| - 1]))
    ensures Chunking(g, l, parts + [p])
  {
    FlattenConcat(parts, [p]);
    FlattenOne(p);
    var r := parts + [p];
    forall i | 0 <= i < |r| - 1 ensures !Higher(SeqSum(g, r[i + 1]), SeqSum(g, r[i])) {
      if i + 1 < |parts| { assert r[i + 1] == parts[i + 1] && r[i] == parts[i]; }
    }
  }

  /** `ChunkLinearization`: the feerates of the chunks of `linearization`. */
  method ChunkLinearization(g: Graph, linearization: seq<nat>) returns (ret: seq<FeeFrac>, ghost parts: seq<seq<nat>>)
    requires Sized(g) && ToSet(linearization) <= g.used
    ensures Chunking(g, linearization, parts)
    ensures ret == FeerateDiagram.Rates(g, parts)
    ensures forall ps :: Chunking(g, linearization, ps) ==> ret == FeerateDiagram.Rates(g, ps)
  {
    ret, parts := [], [];
    for n := 0 to |linearization|
      invariant Chunking(g, linearization[..n], parts)
      invariant ret == FeerateDiagram.Rates(g, parts)
    {
      assert linearization[..n + 1] == linearization[..n] + [linearization[n]];
      assert ToSet(linearization[..n + 1]) <= ToSet(linearization);
      ret, parts := AppendRate(g, ret, linearization[n], linearization[..n], parts);
    }
    assert linearization[..|linearization|] == linearization;
    forall ps | Chunking(g, linearization, ps) ensures ret == FeerateDiagram.Rates(g, ps) {
      ChunkingUnique(g, linearization, ps, parts);
    }
  }

  /** One iteration: start a chunk and absorb finished chunks while it has the higher feerate. */
  method AppendRate(g: Graph, ret0: seq<FeeFrac>, i: nat, ghost l: seq<nat>, ghost parts0: seq<seq<nat>>)
    returns (ret: seq<FeeFrac>, ghost parts: seq<seq<nat>>)
    requires Sized(g) && ToSet(l + [i]) <= g.used
    requires Chunking(g, l, parts0) && ret0 == FeerateDiagram.Rates(g, parts0)
    ensures Chunking(g, l + [i], parts) && ret == FeerateDiagram.Rates(g, parts)
  {
    hide Stack, Chunking, SeqSum, Sized, ToSet;
    ret, parts := ret0, parts0;
    var newChunk := g.Rate(i);
    ghost var p := [i];
    StackStart(g, l, parts, i);
    while ret != [] && Higher(newChunk, ret[|ret| - 1])
      invariant ret == FeerateDiagram.Rates(g, parts) && Stack(g, l + [i], parts, p)
      invariant newChunk == SeqSum(g, p)
      decreases |ret|
    {
      AbsorbStep(g, l + [i], parts, p);
      newChunk := newChunk.Add(ret[|ret| - 1]);
      p := parts[|parts| - 1] + p;
      ret, parts := ret[..|ret| - 1], parts[..|parts| - 1];
    }
    PushChunk(g, l + [i], parts, p);
    ret, parts := ret + [newChunk], parts + [p];
  }

  /** The kept elements among the first |first| positions all belong to `first`. */
  lemma {:induction false} HeadInFirst(l: seq<nat>, done: set<nat>, first: seq<nat>, rest: seq<nat>)
    requires Without(l, done) == first + rest
    ensures |first| <= |l| && ToSet(l[..|first|]) - done <= ToSet(first)
  {
    var n := |first|;
    WithoutShorter(l, done);
    var head, tail := l[..n], l[n..];
    assert l == head + tail;
    WithoutConcat(head, tail, done);
    WithoutShorter(head, done);
    WithoutSet(head, done);
    var w := Without(head, done);
    assert w == (first + rest)[..|w|] == first[..|w|];
    assert ToSet(first[..|w|]) <= ToSet(first);
  }

  /** Removing the first chunk and dropping as many leading positions as it has transactions. */
  lemma {:induction false} SkipFirst(l: seq<nat>, todo: set<nat>, first: seq<nat>, rest: seq<nat>)
    requires Distinct(l) && todo <= ToSet(l)
    requires Without(l, ToSet(l) - todo) == first + rest
    ensures |ToSet(first)| == |first| <= |l|
    ensures var l' := l[|first|..]; var todo' := todo - ToSet(first);
            && todo' <= ToSet(l') && Without(l', ToSet(l') - todo') == rest
    ensures Without(first + rest, ToSet(first)) == rest
  {
    hide ToSet, Distinct, Without;
    var done, f := ToSet(l) - todo, ToSet(first);
    WithoutSet(l, done);
    DistinctConcat(first, rest);
    DistinctCard(first);
    HeadInFirst(l, done, first, rest);
    RemoveFirst(first, rest);
    WithoutTwice(l, done, f);
    var head, l' := l[..|first|], l[|first|..];
    PrefixSet(l, |first|);
    assert l == head + l';
    WithoutConcat(head, l', done + f);
    WithoutAll(head, done + f);
    WithoutAgree(l', done + f, ToSet(l') - (todo - f));
  }

  lemma {:induction false} RemoveFirst(first: seq<nat>, rest: seq<nat>)
    requires ToSet(first) !! ToSet(rest)
    ensures Without(first + rest, ToSet(first)) == rest
  {
    WithoutConcat(first, rest, ToSet(first));
    WithoutAll(first, ToSet(first));
    WithoutNone(rest, ToSet(first));
  }

  lemma {:induction false} WithoutShorter(l: seq<nat>, b: set<nat>)
    ensures |Without(l, b)| <= |l|
  {
    if l != [] { WithoutShorter(l[1..], b); }
  }

  /** Only the elements of `l` matter for what is removed from it. */
  lemma {:induction false} WithoutAgree(l: seq<nat>, a: set<nat>, b: set<nat>)
    requires ToSet(l) * a == ToSet(l) * b
    ensures Without(l, a) == Without(l, b)
  {
    if l != [] {
      assert l[0] in ToSet(l);
      assert l[0] in ToSet(l) * a <==> l[0] in a;
      assert l[0] in ToSet(l) * b <==> l[0] in b;
      assert ToSet(l[1..]) <= ToSet(l);
      hide ToSet;
      assert ToSet(l[1..]) * a == ToSet(l[1..]) * (ToSet(l) * a);
      assert ToSet(l[1..]) * b == ToSet(l[1..]) * (ToSet(l) * b);
      WithoutAgree(l[1..], a, b);
    }
  }

  ghost predicate SetsAre(g: Graph, chunks: seq<SetInfo>, parts: seq<seq<nat>>) {
    |chunks| == |parts| &&
    forall i :: 0 <= i < |parts| ==> chunks[i] == SetInfo(ToSet(parts[i]), SeqSum(g, parts[i]))
  }

  /** One iteration of `BuildChunks`: like `AppendRate`, keeping the sets as well. */
  method AppendChunk(g: Graph, chunks0: seq<SetInfo>, idx: nat, ghost l: seq<nat>, ghost parts0: seq<seq<nat>>)
    returns (chunks: seq<SetInfo>, ghost parts: seq<seq<nat>>)
    requires Sized(g) && ToSet(l + [idx]) <= g.used
    requires Chunking(g, l, parts0) && SetsAre(g, chunks0, parts0)
    ensures Chunking(g, l + [idx], parts) && SetsAre(g, chunks, parts)
  {
    hide Stack, Chunking, SeqSum, Sized, ToSet;
    chunks, parts := chunks0, parts0;
    var add := SetInfo({idx}, g.Rate(idx));
    ghost var p := [idx];
    StackStart(g, l, parts, idx);
    SingleSet(idx);
    while chunks != [] && Higher(add.feerate, chunks[|chunks| - 1].feerate)
      invariant SetsAre(g, chunks, parts) && Stack(g, l + [idx], parts, p)
      invariant add == SetInfo(ToSet(p), SeqSum(g, p))
      decreases |chunks|
    {
      AbsorbStep(g, l + [idx], parts, p);
      var back := chunks[|chunks| - 1];
      add := SetInfo(add.transactions + back.transactions, add.feerate.Add(back.feerate));
      p := parts[|parts| - 1] + p;
      chunks, parts := chunks[..|chunks| - 1], parts[..|parts| - 1];
    }
    PushChunk(g, l + [idx], parts, p);
    chunks, parts := chunks + [add], parts + [p];
  }

  lemma {:induction false} SingleSet(i: nat)
    ensures ToSet([i]) == {i}
  {
  }

  class LinearizationChunking {
    const depgraph: Graph
    var linearization: seq<nat>
    var chunks: seq<SetInfo>
    var chunksSkip: nat
    var todo: set<nat>
    /** The remaining chunks as lists. */
    ghost var parts: seq<seq<nat>>

    /** What remains of the linearization. */
    ghost function Remaining(): seq<nat>
      reads this
    {
      Kept(linearization, todo)
    }

    ghost predicate Valid()
      reads this
    {
      && Sized(depgraph)
      && Distinct(linearization) && ToSet(linearization) <= depgraph.used && todo <= ToSet(linearization)
      && Chunking(depgraph, Remaining(), parts)
      && chunksSkip <= |chunks| && SetsAre(depgraph, chunks[chunksSkip..], parts)
    }

    /** `BuildChunks`: chunks of the remaining transactions, computed from scratch. */
    method BuildChunks()
      requires Sized(depgraph) && Distinct(linearization) && ToSet(linearization) <= depgraph.used
      requires todo <= ToSet(linearization) && chunks == [] && chunksSkip == 0
      modifies this`linearization, this`chunks, this`parts
      ensures Valid() && Remaining() == old(Remaining())
    {
      while linearization != [] && linearization[0] !in todo
        invariant Distinct(linearization) && ToSet(linearization) <= depgraph.used && todo <= ToSet(linearization)
        invariant Remaining() == old(Remaining()) && chunks == []
        decreases |linearization|
      {
        DropDone(linearization, todo);
        linearization := linearization[1..];
      }
      var lin := linearization;
      parts := [];
      ghost var done := ToSet(lin) - todo;
      for n := 0 to |lin|
        invariant lin == linearization
        invariant Chunking(depgraph, Without(lin[..n], done), parts) && SetsAre(depgraph, chunks, parts)
      {
        var idx := lin[n];
        assert lin[..n + 1] == lin[..n] + [idx];
        assert idx in ToSet(lin);
        WithoutConcat(lin[..n], [idx], done);
        WithoutSet(lin[..n], done);
        if idx in todo {
          ToSetConcat(Without(lin[..n], done), [idx]);
          assert ToSet(lin[..n]) <= ToSet(lin);
          chunks, parts := AppendChunk(depgraph, chunks, idx, Without(lin[..n], done), parts);
        }
      }
      assert lin[..|lin|] == lin;
      assert chunks[0..] == chunks;
    }

    constructor (g: Graph, lin: seq<nat>)
      requires Sized(g) && Distinct(lin) && ToSet(lin) <= g.used
      ensures Valid() && depgraph == g && Remaining() == lin && todo == ToSet(lin)
    {
      depgraph := g;
      linearization := lin;
      chunks, chunksSkip := [], 0;
      todo := ToSet(lin);
      parts := [];
      new;
      WithoutNone(lin, ToSet(lin) - todo);
      BuildChunks();
    }

    function NumChunksLeft(): int
      reads this
    {
      |chunks| - chunksSkip
    }

    function GetChunk(n: nat): SetInfo
      requires n + chunksSkip < |chunks|
      reads this
    {
      chunks[n + chunksSkip]
    }

    /** What a caller may conclude about the remaining chunks. */
    lemma {:induction false} ChunkFacts()
      requires Valid()
      ensures ToSet(Remaining()) == todo && Distinct(Remaining())
      ensures NumChunksLeft() == |parts| && (parts == [] <==> todo == {})
      ensures parts != [] ==>
                && GetChunk(0).transactions == ToSet(parts[0]) && GetChunk(0).feerate == SeqSum(depgraph, parts[0])
                && Consistent(depgraph, GetChunk(0)) && GetChunk(0).transactions != {}
                && GetChunk(0).transactions <= todo && GetChunk(0).feerate.size > 0
    {
      WithoutSet(linearization, ToSet(linearization) - todo);
      if parts != [] {
        FirstChunk(depgraph, Remaining(), parts);
        assert GetChunk(0) == chunks[chunksSkip..][0];
        assert Remaining() != [] by { assert ToSet(parts[0]) <= ToSet(Remaining()); }
        assert Remaining()[0] in ToSet(Remaining());
      } else {
        assert Remaining() == [];
      }
    }

    /** `MarkDone`: remove a non-empty subset of what remains. */
    method MarkDone(subset: set<nat>)
      requires Valid() && subset != {} && subset <= todo
      modifies this
      ensures Valid() && todo == old(todo) - subset
      ensures Remaining() == Without(old(Remaining()), subset)
    {
      hide ToSet, Without, Distinct, SetsAre, Chunking, SeqSum, Kept;
      ChunkFacts();
      if GetChunk(0).transactions == subset {
        MarkFirst();
      } else {
        KeptFewer(linearization, todo, subset);
        todo := todo - subset;
        chunks := [];
        chunksSkip := 0;
        BuildChunks();
      }
    }

    /** The case of `MarkDone` where exactly the first chunk is removed. */
    method MarkFirst()
      requires Valid() && parts != [] && NumChunksLeft() > 0 && GetChunk(0).transactions == ToSet(parts[0])
      modifies this
      ensures Valid() && todo == old(todo) - old(ToSet(parts[0]))
      ensures Remaining() == Without(old(Remaining()), old(ToSet(parts[0])))
    {
      ghost var before, lin := Remaining(), linearization;
      var subset := GetChunk(0).transactions;
      ChunkingTail(depgraph, before, parts);
      SkipFirst(lin, todo, parts[0], Flatten(parts[1..]));
      PrefixSet(lin, |subset|);
      hide Distinct, Flatten, Without, SeqSum, ToSet;
      todo := todo - subset;
      assert chunks[chunksSkip..][1..] == chunks[chunksSkip + 1..];
      chunksSkip := chunksSkip + 1;
      linearization := linearization[|subset|..];
      parts := parts[1..];
    }

    /** `IntersectPrefixes`: the intersection of `subset` with the shortest prefix of the remaining
        chunks that has a feerate not below that of `subset`. */
    method IntersectPrefixes(subset: SetInfo) returns (r: SetInfo, ghost j: nat)
      requires Valid() && subset.transactions != {} && subset.transactions <= todo
      requires Consistent(depgraph, subset)
      ensures ShortestGood(depgraph, parts, subset.transactions, j)
      ensures r.transactions == subset.transactions * Cover(parts, j) && Consistent(depgraph, r)
    {
      ChunkFacts();
      var left := chunks[chunksSkip..];
      r, j := IntersectChunks(depgraph, left, subset, parts, Remaining());
    }
  }

  /** The loop of `IntersectPrefixes` over the remaining chunks. */
  method IntersectChunks(g: Graph, chunks: seq<SetInfo>, subset: SetInfo, ghost parts: seq<seq<nat>>, ghost l: seq<nat>)
    returns (r: SetInfo, ghost j: nat)
    requires SetsAre(g, chunks, parts) && Flatten(parts) == l && Distinct(l)
    requires subset.transactions != {} && subset.transactions <= ToSet(l) && Consistent(g, subset)
    ensures ShortestGood(g, parts, subset.transactions, j)
    ensures r.transactions == subset.transactions * Cover(parts, j) && Consistent(g, r)
  {
    hide Distinct, SetSum, SeqSum, Flatten, Cover, ToSet, Lower, TooLow;
    var acc := SetInfo({}, EMPTY);
    var s := subset.transactions;
    CoverNone(g, parts, s);
    var i := 0;
    while i < |chunks|
      invariant 0 <= i <= |parts|
      invariant acc.transactions == s * Cover(parts, i) && Consistent(g, acc)
      invariant acc.transactions != s
      invariant TooLow(g, parts, s, i + 1)
    {
      var toAdd := chunks[i].transactions * s;
      NextCover(parts, l, i);
      assert s * Cover(parts, i + 1) == acc.transactions + toAdd;
      if toAdd != {} {
        ghost var before := acc.transactions;
        acc := acc.(transactions := acc.transactions + toAdd);
        if acc.transactions == s {
          NotLowerThanSelf(subset.feerate);
          return subset, i + 1;
        }
        var extra := FeeRate(g, toAdd);
        SetSumUnion(g, before, toAdd);
        acc := acc.(feerate := acc.feerate.Add(extra));
        if !Lower(acc.feerate, subset.feerate) {
          return acc, i + 1;
        }
      } else {
        assert s * Cover(parts, i + 1) == s * Cover(parts, i);
        StillTooLow(g, parts, s, i);
      }
      OneMoreTooLow(g, parts, s, i + 1);
      i := i + 1;
    }
    CoverAll(parts, l);
    assert false;
  }

  /** The elements of `l` that are in `todo`, in order. */
  ghost function Kept(l: seq<nat>, todo: set<nat>): seq<nat> { Without(l, ToSet(l) - todo) }

  lemma {:induction false} DropDone(l: seq<nat>, todo: set<nat>)
    requires l != [] && l[0] !in todo && todo <= ToSet(l)
    ensures Kept(l[1..], todo) == Kept(l, todo) && todo <= ToSet(l[1..]) <= ToSet(l)
    ensures Distinct(l) ==> Distinct(l[1..])
  {
    PrefixSet(l, 1);
    assert l[..1] == [l[0]];
    assert l[0] in ToSet(l) - todo;
    assert ToSet(l[1..]) * (ToSet(l) - todo) == ToSet(l[1..]) * (ToSet(l[1..]) - todo);
    WithoutAgree(l[1..], ToSet(l) - todo, ToSet(l[1..]) - todo);
  }

  lemma {:induction false} KeptFewer(l: seq<nat>, todo: set<nat>, subset: set<nat>)
    requires subset <= todo <= ToSet(l)
    ensures Kept(l, todo - subset) == Without(Kept(l, todo), subset)
  {
    WithoutTwice(l, ToSet(l) - todo, subset);
    assert ToSet(l) - (todo - subset) == (ToSet(l) - todo) + subset;
  }

  lemma {:induction false} NotLowerThanSelf(f: FeeFrac)
    ensures !Lower(f, f)
  {
  }

  lemma {:induction false} StillTooLow(g: Graph, parts: seq<seq<nat>>, s: set<nat>, i: nat)
    requires TooLow(g, parts, s, i + 1) && i < |parts| && s * Cover(parts, i + 1) == s * Cover(parts, i)
    ensures s * Cover(parts, i + 1) == {} || Lower(SetSum(g, s * Cover(parts, i + 1)), SetSum(g, s))
  {
  }

  lemma {:induction false} OneMoreTooLow(g: Graph, parts: seq<seq<nat>>, s: set<nat>, i: nat)
    requires TooLow(g, parts, s, i) && i <= |parts|
    requires s * Cover(parts, i) == {} || Lower(SetSum(g, s * Cover(parts, i)), SetSum(g, s))
    ensures TooLow(g, parts, s, i + 1)
  {
    hide Cover, Lower;
  }

  lemma {:induction false} CoverNone(g: Graph, parts: seq<seq<nat>>, s: set<nat>)
    ensures Cover(parts, 0) == {} && s * Cover(parts, 0) == {} && SetSum(g, {}) == EMPTY
    ensures TooLow(g, parts, s, 1)
  {
  }

  lemma {:induction false} CoverAll(parts: seq<seq<nat>>, l: seq<nat>)
    requires Flatten(parts) == l
    ensures Cover(parts, |parts|) == ToSet(l)
  {
    assert parts[..|parts|] == parts;
  }

  lemma {:induction false} NextCover(parts: seq<seq<nat>>, l: seq<nat>, i: nat)
    requires i < |parts| && Flatten(parts) == l && Distinct(l)
    ensures Cover(parts, i + 1) == Cover(parts, i) + ToSet(parts[i])
    ensures Cover(parts, i) !! ToSet(parts[i])
  {
    assert parts[..i + 1] == parts[..i] + [parts[i]];
    FlattenConcat(parts[..i], [parts[i]]);
    FlattenOne(parts[i]);
    ToSetConcat(Flatten(parts[..i]), parts[i]);
    FlattenSplit(parts, i + 1);
    DistinctConcat(Flatten(parts[..i + 1]), Flatten(parts[i + 1..]));
    DistinctConcat(Flatten(parts[..i]), parts[i]);
  }
}
