/** The dependency graph of a transaction cluster: every entry stores the full ancestor and
    descendant set of a transaction, each including the transaction itself. */
module DepGraphs {
  import opened FeeFracs
  import opened Lists

  datatype Entry = Entry(feerate: FeeFrac, ancestors: set<nat>, descendants: set<nat>)

  /** A dependency graph as a value: what the algorithms read through a const reference. */
  datatype Graph = Graph(entries: seq<Entry>, used: set<nat>) {
    function Rate(i: nat): FeeFrac { if i < |entries| then entries[i].feerate else EMPTY }

    function Anc(i: nat): set<nat> { if i < |entries| then entries[i].ancestors else {} }

    function Desc(i: nat): set<nat> { if i < |entries| then entries[i].descendants else {} }
  }

  /** Ancestor sets are reflexive and transitively closed, descendant sets are their converse, and
      every transaction has a positive size. */
  ghost predicate WellFormed(g: Graph) {
    && Sized(g)
    && (forall i :: i in g.used ==> i in g.Anc(i) && g.Anc(i) <= g.used && g.Desc(i) <= g.used)
    && (forall i, j :: i in g.used && j in g.used ==> (j in g.Anc(i) <==> i in g.Desc(j)))
    && (forall i, j, k :: i in g.used && j in g.Anc(i) && k in g.Anc(j) ==> k in g.Anc(i))
  }

  ghost predicate Sized(g: Graph) {
    forall i :: i in g.used ==> i < |g.entries| && g.Rate(i).size > 0
  }

  ghost predicate Acyclic(g: Graph) {
    forall i, j :: i in g.used && j in g.used && j in g.Anc(i) && i in g.Anc(j) ==> i == j
  }

  /** `s` is a subset of `todo` that contains every ancestor, within `todo`, of its elements. */
  ghost predicate TopoSet(g: Graph, todo: set<nat>, s: set<nat>) {
    && s <= todo
    && forall i, j :: i in s && j in g.Anc(i) && j in todo ==> j in s
  }

  /** `l` lists distinct positions, ancestors before descendants. */
  ghost predicate TopoList(g: Graph, l: seq<nat>) {
    && Distinct(l)
    && forall p, q :: 0 <= p < q < |l| ==> l[q] !in g.Anc(l[p])
  }

  /** A topologically valid order of exactly the positions in `todo`. */
  ghost predicate Linearization(g: Graph, todo: set<nat>, l: seq<nat>) {
    TopoList(g, l) && ToSet(l) == todo
  }

  // ---------------------------------------------------------------- aggregate feerates

  /** The total fee and size of a set of positions. */
  ghost function SetSum(g: Graph, s: set<nat>): FeeFrac {
    if s == {} then EMPTY else g.Rate(First(s)).Add(SetSum(g, s - {First(s)}))
  }

  function SeqSum(g: Graph, l: seq<nat>): FeeFrac {
    if l == [] then EMPTY else g.Rate(l[0]).Add(SeqSum(g, l[1..]))
  }

  lemma {:induction false} SumOne(g: Graph, i: nat)
    ensures SeqSum(g, [i]) == g.Rate(i)
  {
    hide Graph.Rate;
    assert [i][1..] == [];
    AddLaws(g.Rate(i), EMPTY, EMPTY);
  }

  lemma {:induction false} SetSumRemove(g: Graph, s: set<nat>, i: nat)
    requires i in s
    ensures SetSum(g, s) == g.Rate(i).Add(SetSum(g, s - {i}))
  {
    var j := First(s);
    if i != j {
      SetSumExchange(g, s, i, j);
    }
  }

  lemma {:induction false} SetSumExchange(g: Graph, s: set<nat>, i: nat, j: nat)
    requires i in s && j in s && i != j && SetSum(g, s) == g.Rate(j).Add(SetSum(g, s - {j}))
    ensures SetSum(g, s) == g.Rate(i).Add(SetSum(g, s - {i}))
  {
    SetSumRemove(g, s - {j}, i);
    SetSumRemove(g, s - {i}, j);
    hide SetSum, First, Graph.Rate;
    assert s - {j} - {i} == s - {i} - {j};
    AddLaws(g.Rate(j), g.Rate(i), SetSum(g, s - {j} - {i}));
    AddLaws(g.Rate(i), g.Rate(j), SetSum(g, s - {j} - {i}));
  }

  lemma {:induction false} SetSumUnion(g: Graph, a: set<nat>, b: set<nat>)
    requires a !! b
    ensures SetSum(g, a + b) == SetSum(g, a).Add(SetSum(g, b))
    decreases a
  {
    if a == {} {
      assert a + b == b;
      AddLaws(SetSum(g, b), EMPTY, EMPTY);
    } else {
      var i :| i in a;
      var a' := a - {i};
      calc {
        SetSum(g, a + b);
        { SetSumRemove(g, a + b, i); }
        g.Rate(i).Add(SetSum(g, a + b - {i}));
        { assert a + b - {i} == a' + b; }
        g.Rate(i).Add(SetSum(g, a' + b));
        { SetSumUnion(g, a', b); }
        g.Rate(i).Add(SetSum(g, a').Add(SetSum(g, b)));
        { AddLaws(g.Rate(i), SetSum(g, a'), SetSum(g, b)); }
        g.Rate(i).Add(SetSum(g, a')).Add(SetSum(g, b));
        { SetSumRemove(g, a, i); }
        SetSum(g, a).Add(SetSum(g, b));
      }
    }
  }

  lemma {:induction false} SetSumSplit(g: Graph, s: set<nat>, t: set<nat>)
    ensures SetSum(g, s) == SetSum(g, s * t).Add(SetSum(g, s - t))
  {
    assert s == s * t + (s - t);
    SetSumUnion(g, s * t, s - t);
  }

  lemma {:induction false} SetSumOne(g: Graph, i: nat)
    ensures SetSum(g, {i}) == g.Rate(i)
  {
    calc {
      SetSum(g, {i});
      { SetSumRemove(g, {i}, i); }
      g.Rate(i).Add(SetSum(g, {i} - {i}));
      { assert {i} - {i} == {}; }
      g.Rate(i).Add(EMPTY);
      { AddLaws(g.Rate(i), EMPTY, EMPTY); }
      g.Rate(i);
    }
  }

  lemma {:induction false} SeqSumConcat(g: Graph, a: seq<nat>, b: seq<nat>)
    ensures SeqSum(g, a + b) == SeqSum(g, a).Add(SeqSum(g, b))
  {
    if a == [] {
      assert a + b == b;
    } else {
      assert (a + b)[1..] == a[1..] + b;
      SeqSumConcat(g, a[1..], b);
    }
  }

  lemma {:induction false} SeqSumIsSetSum(g: Graph, l: seq<nat>)
    requires Distinct(l)
    ensures SeqSum(g, l) == SetSum(g, ToSet(l))
  {
    if l != [] {
      PrefixSet(l, 1);
      SeqSumIsSetSum(g, l[1..]);
      SetSumRemove(g, ToSet(l), l[0]);
      assert l[0] in l[..1];
      assert ToSet(l) - {l[0]} == ToSet(l[1..]);
    }
  }

  lemma {:induction false} SetSumSize(g: Graph, s: set<nat>)
    requires Sized(g) && s <= g.used
    ensures SetSum(g, s).Valid()
    ensures s != {} ==> SetSum(g, s).size > 0
  {
    if s != {} {
      var i :| i in s;
      SetSumRemove(g, s, i);
      SetSumSize(g, s - {i});
    }
  }

  lemma {:induction false} SeqSumSize(g: Graph, l: seq<nat>)
    requires Sized(g) && ToSet(l) <= g.used
    ensures SeqSum(g, l).Valid()
    ensures l != [] ==> SeqSum(g, l).size > 0
  {
    if l != [] {
      assert l[0] in ToSet(l);
      assert ToSet(l[1..]) <= ToSet(l);
      SeqSumSize(g, l[1..]);
    }
  }

  /** Some transactions and the sum of their fees and sizes. */
  datatype SetInfo = SetInfo(transactions: set<nat>, feerate: FeeFrac)

  ghost predicate Consistent(g: Graph, s: SetInfo) { s.feerate == SetSum(g, s.transactions) }

  /** `FeeRate` of a set: the loop visits the positions in increasing order. */
  method FeeRate(g: Graph, elems: set<nat>) returns (r: FeeFrac)
    ensures r == SetSum(g, elems)
  {
    r := EMPTY;
    AddLaws(SetSum(g, elems), EMPTY, EMPTY);
    var rest := elems;
    while rest != {}
      invariant rest <= elems && r.Add(SetSum(g, rest)) == SetSum(g, elems)
      decreases rest
    {
      var pos := First(rest);
      SetSumRemove(g, rest, pos);
      AddLaws(r, g.Rate(pos), SetSum(g, rest - {pos}));
      r := r.Add(g.Rate(pos));
      rest := rest - {pos};
    }
    AddLaws(r, EMPTY, EMPTY);
  }

  // ---------------------------------------------------------------- topological sets and orders

  lemma {:induction false} TopoIntersect(g: Graph, todo: set<nat>, a: set<nat>, b: set<nat>)
    requires TopoSet(g, todo, a) && TopoSet(g, todo, b)
    ensures TopoSet(g, todo, a * b) && TopoSet(g, todo, a + b)
  {
  }

  /** Every prefix of a topologically valid order is a topologically valid set. */
  lemma {:induction false} PrefixTopo(g: Graph, l: seq<nat>, k: nat)
    requires TopoList(g, l) && k <= |l|
    ensures TopoSet(g, ToSet(l), ToSet(l[..k]))
  {
    forall i, j | i in ToSet(l[..k]) && j in g.Anc(i) && j in ToSet(l) ensures j in ToSet(l[..k]) {
      var p :| 0 <= p < k && l[p] == i;
      var q :| 0 <= q < |l| && l[q] == j;
      assert q <= p;
      assert l[..k][q] == j;
    }
  }

  lemma {:induction false} WithoutTopo(g: Graph, l: seq<nat>, b: set<nat>)
    requires TopoList(g, l)
    ensures TopoList(g, Without(l, b))
  {
    if l != [] {
      var t := l[1..];
      WithoutTopo(g, t, b);
      WithoutSet(l, b);
      WithoutSet(t, b);
      var w := Without(t, b);
      if l[0] !in b {
        forall q | 0 <= q < |w| ensures w[q] !in g.Anc(l[0]) {
          assert w[q] in ToSet(w);
          assert w[q] in ToSet(t);
          var r :| 0 <= r < |t| && t[r] == w[q];
          assert l[r + 1] == w[q];
        }
        var r := [l[0]] + w;
        forall p, q | 0 <= p < q < |r| ensures r[q] !in g.Anc(r[p]) {
          if p > 0 { assert r[q] == w[q - 1] && r[p] == w[p - 1]; } else { assert r[q] == w[q - 1]; }
        }
      }
    }
  }

  /** Appending a topological order of a valid set to one of everything before it. */
  lemma {:induction false} TopoConcat(g: Graph, a: seq<nat>, b: seq<nat>)
    requires TopoList(g, a) && TopoList(g, b) && ToSet(a) !! ToSet(b)
    requires forall x, y :: x in a && y in b ==> y !in g.Anc(x)
    ensures TopoList(g, a + b)
  {
    DistinctConcat(a, b);
    var c := a + b;
    forall p, q | 0 <= p < q < |c| ensures c[q] !in g.Anc(c[p]) {
      if q < |a| {
        assert c[p] == a[p] && c[q] == a[q];
      } else if p < |a| {
        assert c[p] == a[p] && c[q] == b[q - |a|];
        assert a[p] in a && b[q - |a|] in b;
      } else {
        assert c[p] == b[p - |a|] && c[q] == b[q - |a|];
      }
    }
  }

  /** In an acyclic graph a proper ancestor has strictly fewer ancestors. */
  lemma {:induction false} AncestorCount(g: Graph, i: nat, j: nat)
    requires WellFormed(g) && Acyclic(g) && i in g.used && j in g.Anc(i) && j != i
    ensures |g.Anc(j)| < |g.Anc(i)|
  {
    assert i !in g.Anc(j);
    SubsetCard(g.Anc(j), g.Anc(i));
  }

  /** The comparison used by `AppendTopo`. */
  predicate TopoBefore(g: Graph, a: nat, b: nat) {
    var na, nb := |g.Anc(a)|, |g.Anc(b)|;
    if na != nb then na < nb else a < b
  }

  method TopoFirst(g: Graph, select: set<nat>) returns (m: nat)
    requires select != {}
    ensures m in select && forall x :: x in select && x != m ==> TopoBefore(g, m, x)
  {
    m := First(select);
    var rest := select - {m};
    while rest != {}
      invariant m in select && rest <= select
      invariant forall x :: x in select && x !in rest && x != m ==> TopoBefore(g, m, x)
      decreases rest
    {
      var x := First(rest);
      rest := rest - {x};
      if TopoBefore(g, x, m) { m := x; }
    }
  }

  /** `AppendTopo`: appends `select` sorted by ancestor count.  In an acyclic graph the appended
      part is a topological order of `select`. */
  method AppendTopo(g: Graph, list: seq<nat>, select: set<nat>) returns (out: seq<nat>, ghost tail: seq<nat>)
    requires WellFormed(g) && select <= g.used
    ensures out == list + tail
    ensures ToSet(tail) == select && Distinct(tail)
    ensures forall i, j :: 0 <= i < j < |tail| ==> TopoBefore(g, tail[i], tail[j])
    ensures Acyclic(g) ==> Linearization(g, select, tail)
    ensures list <= out && tail == out[|list|..]
  {
    out := list;
    tail := [];
    var rest := select;
    while rest != {}
      invariant out == list + tail && rest <= select
      invariant ToSet(tail) == select - rest && Distinct(tail)
      invariant forall x, y :: x in tail && y in rest ==> TopoBefore(g, x, y)
      invariant forall i, j :: 0 <= i < j < |tail| ==> TopoBefore(g, tail[i], tail[j])
      decreases rest
    {
      var m := TopoFirst(g, rest);
      assert m !in ToSet(tail);
      DistinctConcat(tail, [m]);
      ToSetConcat(tail, [m]);
      out := out + [m];
      tail := tail + [m];
      rest := rest - {m};
    }
    if Acyclic(g) {
      forall p, q | 0 <= p < q < |tail| ensures tail[q] !in g.Anc(tail[p]) {
        assert tail[p] in ToSet(tail) && tail[q] in ToSet(tail);
        if tail[q] in g.Anc(tail[p]) { AncestorCount(g, tail[p], tail[q]); }
      }
    }
  }

  // ---------------------------------------------------------------- connectivity

  predicate Related(g: Graph, a: nat, b: nat) { b in g.Anc(a) || a in g.Anc(b) }

  /** No element of `c` is related to an element of `todo` outside `c`. */
  ghost predicate Separated(g: Graph, todo: set<nat>, c: set<nat>) {
    c <= todo && forall a, b :: a in c && b in todo && Related(g, a, b) ==> b in c
  }

  /** `s` cannot be cut in two without separating related transactions. */
  ghost predicate Connected(g: Graph, s: set<nat>) {
    forall c :: c != {} && Separated(g, s, c) ==> c == s
  }

  /** Everything related to the processed part of `ret` has been found. */
  ghost predicate Explored(g: Graph, todo: set<nat>, ret: set<nat>, toAdd: set<nat>) {
    forall a, b :: a in ret && a !in toAdd && b in todo && Related(g, a, b) ==> b in ret
  }

  /** `found` is contained in every separated subset of `todo` that contains `first`. */
  ghost predicate Forced(g: Graph, todo: set<nat>, first: nat, found: set<nat>) {
    forall c :: Separated(g, todo, c) && first in c ==> found <= c
  }

  lemma {:induction false} ComponentStart(g: Graph, todo: set<nat>)
    ensures Separated(g, todo, {})
    ensures forall first :: Explored(g, todo, {}, {first}) && Forced(g, todo, first, {first})
  {
  }

  /** `FindConnectedComponent`: the least separated subset of `todo` containing its first element. */
  method FindConnectedComponent(g: Graph, todo: set<nat>) returns (ret: set<nat>)
    requires WellFormed(g) && todo <= g.used
    ensures Separated(g, todo, ret)
    ensures todo != {} ==> First(todo) in ret && Forced(g, todo, First(todo), ret)
  {
    hide WellFormed, Explored, Forced, Separated;
    ComponentStart(g, todo);
    if todo == {} { return todo; }
    var first := First(todo);
    var toAdd := {first};
    ret := {};
    assert ret + toAdd == toAdd;
    while toAdd != {}
      invariant ret <= todo && toAdd <= todo
      invariant first in ret + toAdd
      invariant ret == {} || toAdd <= ret
      invariant Explored(g, todo, ret, toAdd)
      invariant Forced(g, todo, first, ret + toAdd)
      decreases todo - ret, toAdd
    {
      var grown := Neighbours(g, toAdd);
      ComponentStep(g, todo, first, ret, toAdd, grown);
      var prior := ret;
      ret := (ret + grown) * todo;
      toAdd := ret - prior;
      assert ret + toAdd == ret;
      assert ret == prior || todo - ret < todo - prior;
    }
    assert ret + toAdd == ret;
    SeparatedIfExplored(g, todo, ret);
  }

  ghost predicate NeighbourOf(g: Graph, s: set<nat>, b: nat) {
    exists a :: a in s && b in g.Desc(a) + g.Anc(a)
  }

  method Neighbours(g: Graph, toAdd: set<nat>) returns (grown: set<nat>)
    ensures forall a, b :: a in toAdd && b in g.Desc(a) + g.Anc(a) ==> b in grown
    ensures forall b {:trigger NeighbourOf(g, toAdd, b)} :: b in grown ==> NeighbourOf(g, toAdd, b)
  {
    grown := {};
    var rest := toAdd;
    while rest != {}
      invariant rest <= toAdd
      invariant forall a, b :: a in toAdd - rest && b in g.Desc(a) + g.Anc(a) ==> b in grown
      invariant forall b {:trigger NeighbourOf(g, toAdd, b)} :: b in grown ==> NeighbourOf(g, toAdd, b)
      decreases rest
    {
      var add := First(rest);
      rest := rest - {add};
      grown := grown + g.Desc(add) + g.Anc(add);
    }
  }

  lemma {:induction false} SeparatedIfExplored(g: Graph, todo: set<nat>, ret: set<nat>)
    requires ret <= todo && Explored(g, todo, ret, {})
    ensures Separated(g, todo, ret)
  {
  }

  lemma {:induction false} ComponentStep(g: Graph, todo: set<nat>, first: nat, ret: set<nat>, toAdd: set<nat>,
                                         grown: set<nat>)
    requires WellFormed(g) && todo <= g.used && ret <= todo && toAdd <= todo
    requires forall a, b :: a in toAdd && b in g.Desc(a) + g.Anc(a) ==> b in grown
    requires forall b {:trigger NeighbourOf(g, toAdd, b)} :: b in grown ==> NeighbourOf(g, toAdd, b)
    requires Explored(g, todo, ret, toAdd) && Forced(g, todo, first, ret + toAdd)
    requires ret == {} || toAdd <= ret
    ensures toAdd <= (ret + grown) * todo
    ensures var r := (ret + grown) * todo; Explored(g, todo, r, r - ret) && Forced(g, todo, first, r)
  {
    var r := (ret + grown) * todo;
    forall a | a in toAdd ensures a in grown { assert a in g.Desc(a) + g.Anc(a); }
    forall a, b | a in r && a !in r - ret && b in todo && Related(g, a, b) ensures b in r {
      if a in toAdd { assert b in g.Desc(a) + g.Anc(a); }
    }
    forall c, x | Separated(g, todo, c) && first in c && x in r ensures x in c {
      if x !in ret {
        assert NeighbourOf(g, toAdd, x);
        var a :| a in toAdd && x in g.Desc(a) + g.Anc(a);
        assert Related(g, a, x);
      }
    }
  }

  /** `IsConnected` decides connectivity as defined by cuts. */
  method IsConnected(g: Graph, subset: set<nat>) returns (b: bool)
    requires WellFormed(g) && subset <= g.used
    ensures b <==> Connected(g, subset)
  {
    var c := FindConnectedComponent(g, subset);
    b := c == subset;
    if b {
      forall d | d != {} && Separated(g, subset, d) ensures d == subset {
        SeparatedComplement(g, subset, d);
        var f := First(subset);
        assert f in d || f in subset - d;
      }
    }
  }

  lemma {:induction false} SeparatedComplement(g: Graph, s: set<nat>, c: set<nat>)
    requires Separated(g, s, c)
    ensures Separated(g, s, s - c)
  {
    forall a, b | a in s - c && b in s && Related(g, a, b) ensures b in s - c {
      assert Related(g, b, a);
    }
  }

  /** Two connected sets with a related pair between them form a connected set. */
  lemma {:induction false} ConnectedUnion(g: Graph, a: set<nat>, b: set<nat>, x: nat, y: nat)
    requires Connected(g, a) && Connected(g, b) && x in a && y in b && Related(g, x, y)
    ensures Connected(g, a + b)
  {
    forall c | c != {} && Separated(g, a + b, c) ensures c == a + b {
      ConnectedPart(g, a + b, a, c);
      ConnectedPart(g, a + b, b, c);
      assert Related(g, y, x);
      assert x in c <==> y in c;
      assert c == a * c + b * c;
    }
  }

  /** A separated part of a larger set contains all or nothing of a connected subset. */
  lemma {:induction false} ConnectedPart(g: Graph, s: set<nat>, a: set<nat>, c: set<nat>)
    requires a <= s && Connected(g, a) && Separated(g, s, c)
    ensures a * c == {} || a <= c
  {
    assert Separated(g, a, a * c);
  }

  // ---------------------------------------------------------------- reduced parents

  /** Some element of `parents` has `x` among its ancestors. */
  ghost predicate Covered(g: Graph, parents: set<nat>, x: nat) {
    exists p :: p in parents && x in g.Anc(p)
  }

  /** `GetReducedParents`: an antichain whose ancestors, with `i`, are exactly the ancestors of `i`. */
  method GetReducedParents(g: Graph, i: nat) returns (parents: set<nat>)
    requires WellFormed(g) && i in g.used
    ensures parents <= g.Anc(i) - {i}
    ensures forall x {:trigger Covered(g, parents, x)} :: x in g.Anc(i) && x != i ==> Covered(g, parents, x)
    ensures forall p, q :: p in parents && q in parents && p != q ==> q !in g.Anc(p)
  {
    parents := g.Anc(i) - {i};
    ghost var all := parents;
    var rest := parents;
    while rest != {}
      invariant parents <= all && rest <= all
      invariant forall x {:trigger Covered(g, parents, x)} :: x in all ==> Covered(g, parents, x)
      invariant forall p, q :: p in parents && p !in rest && q in parents && p != q ==> q !in g.Anc(p)
      decreases rest
    {
      var parent := First(rest);
      rest := rest - {parent};
      if parent in parents {
        forall x {:trigger Covered(g, parents - g.Anc(parent) + {parent}, x)} | x in all
          ensures Covered(g, parents - g.Anc(parent) + {parent}, x)
        {
          CoveredKept(g, parents, parent, x);
        }
        parents := parents - g.Anc(parent) + {parent};
      }
    }
  }

  lemma {:induction false} CoveredKept(g: Graph, parents: set<nat>, parent: nat, x: nat)
    requires WellFormed(g) && parent in g.used && Covered(g, parents, x)
    ensures Covered(g, parents - g.Anc(parent) + {parent}, x)
  {
    var p :| p in parents && x in g.Anc(p);
    if p in g.Anc(parent) { assert x in g.Anc(parent); }
  }

  /** `GetReducedChildren`: the same with descendants. */
  method GetReducedChildren(g: Graph, i: nat) returns (children: set<nat>)
    requires WellFormed(g) && i in g.used
    ensures children <= g.Desc(i) - {i}
    ensures forall x {:trigger Covered(Mirror(g), children, x)} ::
              x in g.Desc(i) && x != i ==> Covered(Mirror(g), children, x)
    ensures forall c, d :: c in children && d in children && c != d ==> d !in g.Desc(c)
  {
    MirrorWellFormed(g);
    children := GetReducedParents(Mirror(g), i);
  }

  /** The graph with parents and children, and the sign of every fee, exchanged. */
  function Mirror(g: Graph): Graph {
    Graph(seq(|g.entries|, i requires 0 <= i < |g.entries| =>
                Entry(g.entries[i].feerate.Negate(), g.entries[i].descendants, g.entries[i].ancestors)),
          g.used)
  }

  lemma {:induction false} MirrorWellFormed(g: Graph)
    requires WellFormed(g)
    ensures WellFormed(Mirror(g))
    ensures Acyclic(g) ==> Acyclic(Mirror(g))
  {
    var m := Mirror(g);
    assert forall x :: m.Anc(x) == g.Desc(x) && m.Desc(x) == g.Anc(x);
    forall i, j | i in m.used && j in m.Anc(i) ensures m.Anc(j) <= m.Anc(i) {
      assert i in g.Anc(j);
      forall k | k in m.Anc(j) ensures k in m.Anc(i) { assert j in g.Anc(k); }
    }
  }
}
