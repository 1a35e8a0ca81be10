/** The feerate diagram spanned by a list of chunks, as a function of size, and its relation to the
    order `AsGood` on linearizations. */
module FeerateDiagram {
  import opened FeeFracs
  import opened Lists
  import opened DepGraphs
  import opened Diagrams
  import opened Chunks

  ghost predicate Positive(chunks: seq<FeeFrac>) {
    forall i :: 0 <= i < |chunks| ==> chunks[i].size > 0
  }

  ghost predicate NonIncreasing(chunks: seq<FeeFrac>) {
    forall i :: 0 <= i < |chunks| - 1 ==> !Higher(chunks[i + 1], chunks[i])
  }

  function Total(chunks: seq<FeeFrac>): FeeFrac {
    if chunks == [] then EMPTY else chunks[0].Add(Total(chunks[1..]))
  }

  /** The fee at size `x`: linear between cumulative chunk totals, horizontal after the last. */
  ghost function FeeAt(chunks: seq<FeeFrac>, x: real): real
    requires Positive(chunks)
  {
    if chunks == [] then 0.0
    else
      var fee, size := chunks[0].fee as real, chunks[0].size as real;
      if x <= size then fee * (x / size) else fee + FeeAt(chunks[1..], x - size)
  }

  /** The diagram of `a` is nowhere below the diagram of `b`. */
  ghost predicate NowhereBelow(a: seq<FeeFrac>, b: seq<FeeFrac>)
    requires Positive(a) && Positive(b)
  {
    forall x: real :: x >= 0.0 ==> FeeAt(a, x) >= FeeAt(b, x)
  }

  /** Height of the point (x, y) above the line through the origin with the slope of `rate`. */
  ghost function Above(rate: FeeFrac, x: real, y: real): real {
    y * (rate.size as real) - (rate.fee as real) * x
  }

  /** The largest height of a vertex of the diagram. */
  function BestVertex(rate: FeeFrac, chunks: seq<FeeFrac>): (b: int)
    ensures b >= 0
  {
    if chunks == [] then 0 else Max(0, Excess(rate, chunks[0]) + BestVertex(rate, chunks[1..]))
  }

  lemma {:induction false} AboveShift(rate: FeeFrac, c: FeeFrac, x: real, y: real)
    ensures Above(rate, x + c.size as real, y + c.fee as real) == Above(rate, x, y) + Excess(rate, c) as real
  {
    calc {
      Above(rate, x + c.size as real, y + c.fee as real);
      (y + c.fee as real) * (rate.size as real) - (rate.fee as real) * (x + c.size as real);
      y * (rate.size as real)
        + (c.fee as real) * (rate.size as real) - (rate.fee as real) * x - (rate.fee as real) * (c.size as real);
      Above(rate, x, y) + ((c.fee as real) * (rate.size as real) - (rate.fee as real) * (c.size as real));
      { CastProduct(c.fee, rate.size); CastProduct(rate.fee, c.size); }
      Above(rate, x, y) + Excess(rate, c) as real;
    }
  }

  lemma {:induction false} CastProduct(a: int, b: int)
    ensures (a as real) * (b as real) == (a * b) as real
  {
  }

  /** A point inside a chunk lies at the corresponding fraction of the chunk's own height. */
  lemma {:induction false} AboveInside(rate: FeeFrac, c: FeeFrac, x: real, y: real, t: real)
    requires c.size > 0 && t == x / (c.size as real) && y == (c.fee as real) * t
    ensures Above(rate, x, y) == t * (Excess(rate, c) as real)
  {
    var s := c.size as real;
    assert t * s == x;
    calc {
      Above(rate, x, (c.fee as real) * t);
      ((c.fee as real) * t) * (rate.size as real) - (rate.fee as real) * (t * s);
      t * ((c.fee as real) * (rate.size as real)) - t * ((rate.fee as real) * s);
      { CastProduct(c.fee, rate.size); CastProduct(rate.fee, c.size); }
      t * ((c.fee * rate.size) as real) - t * ((rate.fee * c.size) as real);
      t * (Excess(rate, c) as real);
    }
  }

  lemma {:induction false} FractionBound(t: real, e: int)
    requires 0.0 <= t <= 1.0
    ensures t * (e as real) <= Max(0, e) as real
  {
    if e > 0 {
      assert (1.0 - t) * (e as real) >= 0.0;
    } else {
      assert t * (-(e as real)) >= 0.0;
    }
  }

  lemma {:induction false} Fraction(x: real, s: real)
    requires 0.0 <= x <= s && s > 0.0
    ensures 0.0 <= x / s <= 1.0
  {
  }

  lemma {:induction false} AboveOrigin(rate: FeeFrac)
    ensures Above(rate, 0.0, 0.0) == 0.0
  {
  }

  /** No point of the diagram is higher than its highest vertex. */
  lemma {:induction false} BelowBestVertex(rate: FeeFrac, chunks: seq<FeeFrac>, x: real)
    requires Positive(chunks) && 0.0 <= x <= Total(chunks).size as real
    ensures Above(rate, x, FeeAt(chunks, x)) <= BestVertex(rate, chunks) as real
  {
    hide Excess, Above;
    if chunks == [] {
      AboveOrigin(rate);
    } else {
      var c, s := chunks[0], chunks[0].size as real;
      if x <= s {
        var y, t := FeeAt(chunks, x), x / s;
        assert y == (c.fee as real) * t;
        AboveInside(rate, c, x, y, t);
        Fraction(x, s);
        FractionBound(t, Excess(rate, c));
        assert Max(0, Excess(rate, c)) <= BestVertex(rate, chunks);
      } else {
        BelowBestVertex(rate, chunks[1..], x - s);
        AboveShift(rate, c, x - s, FeeAt(chunks[1..], x - s));
      }
    }
  }

  lemma {:induction false} BestVertexZero(rate: FeeFrac, chunks: seq<FeeFrac>)
    requires Positive(chunks) && NonIncreasing(chunks) && rate.size > 0
    requires chunks != [] ==> Excess(rate, chunks[0]) <= 0
    ensures BestVertex(rate, chunks) == 0
  {
    if chunks != [] {
      TailNonIncreasing(chunks);
      if |chunks| > 1 {
        assert !Higher(chunks[0 + 1], chunks[0]);
        ExcessTransDown(rate, chunks[0], chunks[1]);
      }
      BestVertexZero(rate, chunks[1..]);
    }
  }

  lemma {:induction false} TailNonIncreasing(chunks: seq<FeeFrac>)
    requires NonIncreasing(chunks) && chunks != []
    ensures NonIncreasing(chunks[1..])
  {
    var t := chunks[1..];
    forall i | 0 <= i < |t| - 1 ensures !Higher(t[i + 1], t[i]) {
      assert t[i + 1] == chunks[(i + 1) + 1] && t[i] == chunks[i + 1];
    }
  }

  lemma {:induction false} FirstHighest(chunks: seq<FeeFrac>, k: nat)
    requires Positive(chunks) && NonIncreasing(chunks) && k < |chunks|
    ensures Excess(chunks[k], chunks[0]) >= 0
  {
    if k > 0 {
      FirstHighest(chunks, k - 1);
      assert !Higher(chunks[(k - 1) + 1], chunks[k - 1]);
      HigherIsExcess(chunks[k], chunks[k - 1]);
      ExcessTrans(chunks[k], chunks[k - 1], chunks[0]);
    } else {
      ExcessSelf(chunks[0]);
    }
  }

  /** At the slope of the chunk containing it, every point of the diagram is a highest point. */
  lemma {:induction false} Supported(chunks: seq<FeeFrac>, x: real) returns (k: nat)
    requires Positive(chunks) && NonIncreasing(chunks)
    requires 0.0 <= x < Total(chunks).size as real
    ensures k < |chunks|
    ensures Above(chunks[k], x, FeeAt(chunks, x)) == BestVertex(chunks[k], chunks) as real
  {
    var c, s := chunks[0], chunks[0].size as real;
    if x <= s {
      k := 0;
      AboveInside(c, c, x, FeeAt(chunks, x), x / s);
      ExcessSelf(c);
      BestVertexZero(c, chunks);
    } else {
      TailNonIncreasing(chunks);
      var k' := Supported(chunks[1..], x - s);
      k := k' + 1;
      AboveShift(chunks[k], c, x - s, FeeAt(chunks[1..], x - s));
      FirstHighest(chunks, k);
    }
  }

  /** After the last chunk the diagram stays at the total fee. */
  lemma {:induction false} FeeAtEnd(chunks: seq<FeeFrac>, x: real)
    requires Positive(chunks) && x >= Total(chunks).size as real
    ensures FeeAt(chunks, x) == Total(chunks).fee as real
  {
    if chunks != [] {
      var s := chunks[0].size as real;
      TotalSize(chunks[1..]);
      if x > s {
        FeeAtEnd(chunks[1..], x - s);
      } else {
        assert x == s;
        OverItself(s);
      }
    }
  }

  lemma {:induction false} OverItself(s: real)
    requires s > 0.0
    ensures s / s == 1.0
  {
  }

  lemma {:induction false} TotalSize(chunks: seq<FeeFrac>)
    requires Positive(chunks)
    ensures Total(chunks).size >= 0
    ensures chunks != [] ==> Total(chunks).size > 0
  {
    if chunks != [] { TotalSize(chunks[1..]); }
  }

  lemma {:induction false} FeeAtStart(chunks: seq<FeeFrac>)
    requires Positive(chunks)
    ensures FeeAt(chunks, 0.0) == 0.0
  {
    if chunks != [] { Fraction(0.0, chunks[0].size as real); }
  }

  /** The diagram beyond the first chunk is that of the others, moved. */
  lemma {:induction false} FeeAtNext(chunks: seq<FeeFrac>, x: real)
    requires Positive(chunks) && chunks != [] && x >= 0.0
    ensures FeeAt(chunks, x + chunks[0].size as real) == FeeAt(chunks[1..], x) + chunks[0].fee as real
  {
    if x == 0.0 {
      FeeAtStart(chunks[1..]);
      OverItself(chunks[0].size as real);
    }
  }

  /** The highest vertex is a point of the diagram. */
  lemma {:induction false} BestVertexPoint(rate: FeeFrac, chunks: seq<FeeFrac>) returns (x: real)
    requires Positive(chunks)
    ensures 0.0 <= x <= Total(chunks).size as real
    ensures Above(rate, x, FeeAt(chunks, x)) == BestVertex(rate, chunks) as real
  {
    hide Excess, Above, FeeAt;
    TotalSize(chunks);
    if BestVertex(rate, chunks) == 0 {
      x := 0.0;
      FeeAtStart(chunks);
      AboveOrigin(rate);
    } else {
      var c, s := chunks[0], chunks[0].size as real;
      var x' := BestVertexPoint(rate, chunks[1..]);
      x := x' + s;
      FeeAtNext(chunks, x');
      AboveShift(rate, c, x', FeeAt(chunks[1..], x'));
    }
  }

  // ---------------------------------------------------------------- comparing diagrams

  /** At every target rate the highest vertex of `a` is at least that of `b`. */
  ghost predicate VertexAbove(a: seq<FeeFrac>, b: seq<FeeFrac>) {
    forall rate: FeeFrac :: rate.size > 0 ==> BestVertex(rate, a) >= BestVertex(rate, b)
  }

  /** Over the same total size, one diagram is nowhere below another exactly when its end and, at every
      target rate, its highest vertex are not lower. */
  lemma {:induction false} DiagramsCompare(a: seq<FeeFrac>, b: seq<FeeFrac>)
    requires Positive(a) && NonIncreasing(a) && Positive(b) && Total(a).size == Total(b).size
    ensures NowhereBelow(a, b) <==> VertexAbove(a, b) && Total(a).fee >= Total(b).fee
  {
    hide FeeAt, BestVertex, NonIncreasing;
    if VertexAbove(a, b) && Total(a).fee >= Total(b).fee {
      forall x: real | x >= 0.0 ensures FeeAt(a, x) >= FeeAt(b, x) { VertexAboveAt(a, b, x); }
    }
    if NowhereBelow(a, b) {
      forall rate: FeeFrac | rate.size > 0
        ensures BestVertex(rate, a) >= BestVertex(rate, b)
      {
        BelowNowhereVertex(a, b, rate);
      }
      TotalSize(a);
      var end := Total(a).size as real;
      FeeAtEnd(a, end);
      FeeAtEnd(b, end);
      assert FeeAt(a, end) >= FeeAt(b, end);
    }
  }

  lemma {:induction false} VertexAboveAt(a: seq<FeeFrac>, b: seq<FeeFrac>, x: real)
    requires Positive(a) && NonIncreasing(a) && Positive(b) && Total(a).size == Total(b).size && x >= 0.0
    requires VertexAbove(a, b) && Total(a).fee >= Total(b).fee
    ensures FeeAt(a, x) >= FeeAt(b, x)
  {
    hide FeeAt, BestVertex, NonIncreasing, Above;
    if x >= Total(a).size as real {
      FeeAtEnd(a, x);
      FeeAtEnd(b, x);
    } else {
      var k := Supported(a, x);
      BelowBestVertex(a[k], b, x);
      AboveMonotone(a[k], x, FeeAt(b, x), FeeAt(a, x));
    }
  }

  lemma {:induction false} BelowNowhereVertex(a: seq<FeeFrac>, b: seq<FeeFrac>, rate: FeeFrac)
    requires Positive(a) && Positive(b) && Total(a).size == Total(b).size && NowhereBelow(a, b) && rate.size > 0
    ensures BestVertex(rate, a) >= BestVertex(rate, b)
  {
    hide FeeAt, BestVertex, Above;
    var x := BestVertexPoint(rate, b);
    BelowBestVertex(rate, a, x);
    AboveMonotone(rate, x, FeeAt(b, x), FeeAt(a, x));
  }

  // ---------------------------------------------------------------- linearizations

  /** The feerates of the chunks: what `ChunkLinearization` returns. */
  function Rates(g: Graph, parts: seq<seq<nat>>): (r: seq<FeeFrac>)
    ensures |r| == |parts|
  {
    seq(|parts|, i requires 0 <= i < |parts| => SeqSum(g, parts[i]))
  }

  lemma {:induction false} RatesFacts(g: Graph, l: seq<nat>, parts: seq<seq<nat>>)
    requires Sized(g) && ToSet(l) <= g.used && Chunking(g, l, parts)
    ensures Positive(Rates(g, parts)) && NonIncreasing(Rates(g, parts))
    ensures Total(Rates(g, parts)) == SeqSum(g, l)
    decreases parts
  {
    var r := Rates(g, parts);
    if parts != [] {
      ChunkingTail(g, l, parts);
      var p, t := parts[0], l[|parts[0]|..];
      ToSetConcat(p, t);
      assert Chunky(g, p);
      SeqSumSize(g, p);
      RatesFacts(g, t, parts[1..]);
      assert r[1..] == Rates(g, parts[1..]);
      SeqSumConcat(g, p, t);
      forall i | 0 <= i < |r| ensures r[i].size > 0 { if i > 0 { assert r[i] == r[1..][i - 1]; } }
    }
  }

  /** The best prefix of a linearization is the highest vertex of its diagram. */
  lemma {:induction false} BestIsVertex(g: Graph, rate: FeeFrac, l: seq<nat>, parts: seq<seq<nat>>)
    requires Sized(g) && ToSet(l) <= g.used && Chunking(g, l, parts) && rate.size > 0
    ensures Best(g, rate, l) == BestVertex(rate, Rates(g, parts))
    decreases parts
  {
    if parts != [] {
      ChunkingTail(g, l, parts);
      var p, t := parts[0], l[|parts[0]|..];
      ToSetConcat(p, t);
      assert Chunky(g, p);
      BestOfChunk(g, rate, p);
      BestConcat(g, rate, p, t);
      BestIsVertex(g, rate, t, parts[1..]);
      assert Rates(g, parts)[1..] == Rates(g, parts[1..]);
    }
  }

  /** One linearization is at least as good as another of the same transactions exactly when its
      feerate diagram is nowhere below the other's. */
  lemma {:induction false} AsGoodIsNowhereBelow(g: Graph, a: seq<nat>, pa: seq<seq<nat>>, b: seq<nat>,
                                                pb: seq<seq<nat>>)
    requires Sized(g) && ToSet(a) == ToSet(b) <= g.used && Distinct(a) && Distinct(b)
    requires Chunking(g, a, pa) && Chunking(g, b, pb)
    ensures Positive(Rates(g, pa)) && Positive(Rates(g, pb))
    ensures AsGood(g, a, b) <==> NowhereBelow(Rates(g, pa), Rates(g, pb))
  {
    hide Sized, ToSet, Distinct, Chunking, SeqSum, Rates, NowhereBelow, Best, BestVertex;
    RatesFacts(g, a, pa);
    RatesFacts(g, b, pb);
    SeqSumIsSetSum(g, a);
    SeqSumIsSetSum(g, b);
    var ra, rb := Rates(g, pa), Rates(g, pb);
    DiagramsCompare(ra, rb);
    forall rate: FeeFrac | rate.size > 0
      ensures Best(g, rate, a) == BestVertex(rate, ra) && Best(g, rate, b) == BestVertex(rate, rb)
    {
      BestIsVertex(g, rate, a, pa);
      BestIsVertex(g, rate, b, pb);
    }
  }

  lemma {:induction false} AboveMonotone(rate: FeeFrac, x: real, y: real, z: real)
    requires rate.size > 0
    ensures Above(rate, x, y) <= Above(rate, x, z) <==> y <= z
  {
    var s := rate.size as real;
    assert Above(rate, x, z) - Above(rate, x, y) == (z - y) * s;
    if y <= z { assert (z - y) * s >= 0.0; } else { assert (y - z) * s > 0.0; }
  }

  /** The feerate diagram of `a` is nowhere below the one of `b`. */
  ghost predicate DiagramAbove(g: Graph, a: seq<nat>, b: seq<nat>) {
    forall pa, pb :: Chunking(g, a, pa) && Chunking(g, b, pb) ==>
      && Positive(Rates(g, pa)) && Positive(Rates(g, pb))
      && NowhereBelow(Rates(g, pa), Rates(g, pb))
  }

  lemma {:induction false} AsGoodDiagram(g: Graph, a: seq<nat>, b: seq<nat>)
    requires Sized(g) && ToSet(a) == ToSet(b) <= g.used && Distinct(a) && Distinct(b)
    requires AsGood(g, a, b)
    ensures DiagramAbove(g, a, b)
  {
    forall pa, pb | Chunking(g, a, pa) && Chunking(g, b, pb)
      ensures Positive(Rates(g, pa)) && Positive(Rates(g, pb))
      ensures NowhereBelow(Rates(g, pa), Rates(g, pb))
    {
      hide *;
      AsGoodIsNowhereBelow(g, a, pa, b, pb);
    }
  }
}
