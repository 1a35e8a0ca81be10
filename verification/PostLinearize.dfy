/** `PostLinearize` on an array, with its linked lists of groups and of transactions. */
module PostLinearizing {
  import opened FeeFracs
  import opened Lists
  import opened DepGraphs
  import opened Diagrams
  import opened Chunks
  import opened FeerateDiagram
  import opened PostTheory
  import opened PostResults

  const SENTINEL: nat := 0
  const NO_PREV_TX: nat := 0

  /** Information about transaction t is stored at index t + 1. */
  datatype TxEntry = TxEntry(prevTx: nat, firstTx: nat, prevGroup: nat, group: set<nat>, deps: set<nat>,
                             feerate: FeeFrac)

  // ---------------------------------------------------------------- singly-linked segments

  /** Following `next` from `at` visits `nodes` from back to front and then arrives at `stop`. */
  ghost predicate Seg(next: seq<nat>, nodes: seq<nat>, at: nat, stop: nat) {
    if nodes == [] then at == stop
    else at == nodes[|nodes| - 1] && at < |next| && Seg(next, nodes[..|nodes| - 1], next[at], stop)
  }

  lemma {:induction false} SegFrame(next: seq<nat>, next': seq<nat>, nodes: seq<nat>, at: nat, stop: nat)
    requires Seg(next, nodes, at, stop) && |next'| == |next|
    requires forall x :: x in nodes && x < |next| ==> next'[x] == next[x]
    ensures Seg(next', nodes, at, stop)
  {
    if nodes != [] { SegFrame(next, next', nodes[..|nodes| - 1], next[at], stop); }
  }

  lemma {:induction false} SegConcat(next: seq<nat>, a: seq<nat>, b: seq<nat>, at: nat, mid: nat, stop: nat)
    requires Seg(next, b, at, mid) && Seg(next, a, mid, stop)
    ensures Seg(next, a + b, at, stop)
  {
    if b == [] {
      assert a + b == a;
    } else {
      SegConcat(next, a, b[..|b| - 1], next[at], mid, stop);
      assert (a + b)[..|a + b| - 1] == a + b[..|b| - 1];
    }
  }

  /** Redirecting the first node of a segment changes where the segment arrives. */
  lemma {:induction false} SegRetarget(next: seq<nat>, nodes: seq<nat>, at: nat, stop: nat, stop': nat)
    requires Seg(next, nodes, at, stop) && nodes != [] && Distinct(nodes)
    ensures nodes[0] < |next| && Seg(next[nodes[0] := stop'], nodes, at, stop')
  {
    var n := |nodes| - 1;
    if n > 0 {
      PrefixSet(nodes, n);
      assert nodes[0] != nodes[n];
      SegRetarget(next, nodes[..n], next[at], stop, stop');
      assert nodes[..n][0] == nodes[0];
    } else {
      assert nodes[..0] == [];
    }
  }

  lemma {:induction false} SegOne(next: seq<nat>, node: nat, stop: nat)
    requires node < |next| && next[node] == stop
    ensures Seg(next, [node], node, stop)
  {
    assert [node][..0] == [];
  }

  // ---------------------------------------------------------------- what the entries represent

  ghost function PrevTx(e: seq<TxEntry>): (r: seq<nat>)
    ensures |r| == |e|
  {
    seq(|e|, i requires 0 <= i < |e| => e[i].prevTx)
  }

  ghost function PrevGroup(e: seq<TxEntry>): (r: seq<nat>)
    ensures |r| == |e|
  {
    seq(|e|, i requires 0 <= i < |e| => e[i].prevGroup)
  }

  /** Where the transactions of a list are stored. */
  ghost function Stored(c: seq<nat>): (r: seq<nat>)
    ensures |r| == |c|
  {
    seq(|c|, i requires 0 <= i < |c| => c[i] + 1)
  }

  /** Where the last transaction of a group is stored. */
  ghost function Tail(c: seq<nat>): nat { if c == [] then 0 else c[|c| - 1] + 1 }

  ghost function Tails(groups: seq<seq<nat>>): (r: seq<nat>)
    ensures |r| == |groups|
  {
    seq(|groups|, i requires 0 <= i < |groups| => Tail(groups[i]))
  }

  /** What the tail of a group records about it, apart from the links. */
  ghost predicate TailData(g: Graph, e: seq<TxEntry>, c: seq<nat>) {
    && c != [] && (forall x :: x in c ==> x + 1 < |e|) && c[0] + 1 < |e| && Tail(c) < |e|
    && e[Tail(c)].firstTx == c[0] + 1 && e[Tail(c)].group == ToSet(c)
    && e[Tail(c)].deps == Deps(g, c) && e[Tail(c)].feerate == SeqSum(g, c)
  }

  /** A group: its data, and its transactions linked from the last to the first. */
  ghost predicate GroupRep(g: Graph, e: seq<TxEntry>, c: seq<nat>) {
    TailData(g, e, c) && Seg(PrevTx(e), Stored(c), Tail(c), NO_PREV_TX)
  }

  ghost predicate AllRep(g: Graph, e: seq<TxEntry>, groups: seq<seq<nat>>) {
    forall k :: 0 <= k < |groups| ==> GroupRep(g, e, groups[k])
  }

  /** The entries while group `c`, at `cur`, sifts between `front` and `back`. */
  ghost predicate LoopRep(g: Graph, e: seq<TxEntry>, front: seq<seq<nat>>, c: seq<nat>, back: seq<seq<nat>>) {
    && |e| > 0 && e[SENTINEL].feerate == EMPTY
    && AllRep(g, e, front) && GroupRep(g, e, c) && AllRep(g, e, back)
    && Distinct(Flatten(front) + c + Flatten(back))
    && Seg(PrevGroup(e), Tails(front), e[Tail(c)].prevGroup, SENTINEL)
    && Seg(PrevGroup(e), Tails(back), e[SENTINEL].prevGroup, Tail(c))
  }

  /** The entries represent the list of groups. */
  ghost predicate ListRep(g: Graph, e: seq<TxEntry>, groups: seq<seq<nat>>) {
    && |e| > 0 && e[SENTINEL].feerate == EMPTY && AllRep(g, e, groups) && Distinct(Flatten(groups))
    && Seg(PrevGroup(e), Tails(groups), e[SENTINEL].prevGroup, SENTINEL)
  }

  /** Entries of the transactions in `c` differ at most in their group links. */
  ghost predicate SameBut(e: seq<TxEntry>, f: seq<TxEntry>, c: seq<nat>) {
    |e| == |f| && forall x :: x in c && x + 1 < |e| ==> f[x + 1] == e[x + 1].(prevGroup := f[x + 1].prevGroup)
  }

  lemma {:induction false} GroupFrame(g: Graph, e: seq<TxEntry>, f: seq<TxEntry>, c: seq<nat>)
    requires GroupRep(g, e, c) && SameBut(e, f, c)
    ensures GroupRep(g, f, c)
  {
    assert c[|c| - 1] in c;
    forall x | x in Stored(c) && x < |e| ensures PrevTx(f)[x] == PrevTx(e)[x] {
      assert x - 1 in c;
    }
    SegFrame(PrevTx(e), PrevTx(f), Stored(c), Tail(c), NO_PREV_TX);
  }

  lemma {:induction false} AllFrame(g: Graph, e: seq<TxEntry>, f: seq<TxEntry>, groups: seq<seq<nat>>)
    requires AllRep(g, e, groups) && SameBut(e, f, Flatten(groups))
    ensures AllRep(g, f, groups)
  {
    forall k | 0 <= k < |groups| ensures GroupRep(g, f, groups[k]) {
      assert GroupRep(g, e, groups[k]);
      forall x | x in groups[k] ensures x in Flatten(groups) { GroupMember(groups, k, x); }
      hide GroupRep;
      GroupFrame(g, e, f, groups[k]);
    }
  }

  lemma {:induction false} TailIn(g: Graph, e: seq<TxEntry>, groups: seq<seq<nat>>, t: nat)
    requires AllRep(g, e, groups) && t in Tails(groups)
    ensures t > 0 && t - 1 in Flatten(groups)
  {
    var k :| 0 <= k < |groups| && Tails(groups)[k] == t;
    assert GroupRep(g, e, groups[k]);
    var c := groups[k];
    assert c[|c| - 1] in c;
    GroupMember(groups, k, c[|c| - 1]);
  }

  // ---------------------------------------------------------------- absorbing the previous group

  /** The assignments made when the group at `cur` absorbs the group at `prev`. */
  function Merged(e: seq<TxEntry>, cur: nat, prev: nat): (f: seq<TxEntry>)
    requires cur < |e| && prev < |e| && e[cur].firstTx < |e|
    ensures |f| == |e|
  {
    var first := e[cur].firstTx;
    var e1 := e[cur := e[cur].(group := e[cur].group + e[prev].group, deps := e[cur].deps + e[prev].deps,
                               feerate := e[cur].feerate.Add(e[prev].feerate))];
    var e2 := e1[first := e1[first].(prevTx := prev)];
    e2[cur := e2[cur].(firstTx := e2[prev].firstTx, prevGroup := e2[prev].prevGroup)]
  }

  lemma {:induction false} MergedLinks(e: seq<TxEntry>, cur: nat, prev: nat)
    requires cur < |e| && prev < |e| && e[cur].firstTx < |e| && cur != prev && prev != e[cur].firstTx
    ensures var f := Merged(e, cur, prev);
            && PrevTx(f) == PrevTx(e)[e[cur].firstTx := prev]
            && PrevGroup(f) == PrevGroup(e)[cur := e[prev].prevGroup]
            && f[cur].firstTx == e[prev].firstTx && f[cur].group == e[cur].group + e[prev].group
            && f[cur].deps == e[cur].deps + e[prev].deps && f[cur].feerate == e[cur].feerate.Add(e[prev].feerate)
            && forall i :: 0 <= i < |e| && i != cur && i != e[cur].firstTx ==> f[i] == e[i]
  {
  }

  lemma {:induction false} MergedGroup(g: Graph, e: seq<TxEntry>, p: seq<nat>, c: seq<nat>)
    requires GroupRep(g, e, p) && GroupRep(g, e, c) && Distinct(p + c)
    ensures GroupRep(g, Merged(e, Tail(c), Tail(p)), p + c)
  {
    var cur, prev := Tail(c), Tail(p);
    var f := Merged(e, cur, prev);
    DistinctConcat(p, c);
    assert c[0] in ToSet(c) && c[|c| - 1] in ToSet(c) && p[|p| - 1] in ToSet(p) && p[0] in ToSet(p);
    MergedLinks(e, cur, prev);
    StoredDistinct(c);
    SegRetarget(PrevTx(e), Stored(c), cur, NO_PREV_TX, prev);
    assert Stored(c)[0] == c[0] + 1;
    MergedData(g, e, p, c);
    hide TailData, Merged, Deps, SeqSum;
    forall x | x in Stored(p) && x < |e| ensures PrevTx(f)[x] == PrevTx(e)[x] {
      assert x - 1 in ToSet(p);
    }
    SegFrame(PrevTx(e), PrevTx(f), Stored(p), prev, NO_PREV_TX);
    SegConcat(PrevTx(f), Stored(p), Stored(c), cur, prev, NO_PREV_TX);
    assert Stored(p + c) == Stored(p) + Stored(c);
  }

  lemma {:induction false} StoredDistinct(c: seq<nat>)
    requires Distinct(c)
    ensures Distinct(Stored(c))
  {
  }

  lemma {:induction false} MergedData(g: Graph, e: seq<TxEntry>, p: seq<nat>, c: seq<nat>)
    requires TailData(g, e, p) && TailData(g, e, c) && Tail(c) != Tail(p) && Tail(p) != e[Tail(c)].firstTx
      && e[Tail(c)].firstTx < |e|
    ensures TailData(g, Merged(e, Tail(c), Tail(p)), p + c)
  {
    hide Merged, Deps, SeqSum, ToSet;
    MergedLinks(e, Tail(c), Tail(p));
    ToSetConcat(p, c);
    DepsConcat(g, p, c);
    SeqSumConcat(g, p, c);
    AddLaws(SeqSum(g, p), SeqSum(g, c), EMPTY);
    var q := p + c;
    assert q[0] == p[0] && q[|q| - 1] == c[|c| - 1];
    assert Tail(q) == Tail(c);
    hide Tail;
    forall x | x in q ensures x + 1 < |e| { assert x in p || x in c; }
  }

  lemma {:induction false} MergeRep(g: Graph, e: seq<TxEntry>, front: seq<seq<nat>>, c: seq<nat>, back: seq<seq<nat>>)
    requires LoopRep(g, e, front, c, back) && front != []
    ensures var p := front[|front| - 1];
            && Tail(p) == e[Tail(c)].prevGroup < |e| && Tail(c) < |e| && e[Tail(c)].firstTx < |e|
            && LoopRep(g, Merged(e, Tail(c), Tail(p)), front[..|front| - 1], p + c, back)
  {
    var p, rest := front[|front| - 1], front[..|front| - 1];
    hide *;
    SplitFront(g, e, front, c, back);
    MergeFacts(front, c, back);
    MergeParts(g, e, rest, p, c, back);
  }

  /** The group before `c`, and what stands before it. */
  lemma {:induction false} SplitFront(g: Graph, e: seq<TxEntry>, front: seq<seq<nat>>, c: seq<nat>, back: seq<seq<nat>>)
    requires LoopRep(g, e, front, c, back) && front != []
    ensures var p := front[|front| - 1]; var rest := front[..|front| - 1];
            && 0 < Tail(c) < |e| && 0 < Tail(p) < |e| && Tail(p) == e[Tail(c)].prevGroup && e[Tail(c)].firstTx < |e|
            && AllRep(g, e, rest) && GroupRep(g, e, p) && GroupRep(g, e, c) && AllRep(g, e, back)
            && Seg(PrevGroup(e), Tails(rest), e[Tail(p)].prevGroup, SENTINEL)
            && Seg(PrevGroup(e), Tails(back), e[SENTINEL].prevGroup, Tail(c))
            && e[SENTINEL].feerate == EMPTY && Distinct(Flatten(front) + c + Flatten(back)) && c != [] && p != []
  {
    var n := |front| - 1;
    var p, rest := front[n], front[..n];
    assert GroupRep(g, e, p);
    assert Tails(front)[n] == Tail(p) && Tails(front)[..n] == Tails(rest);
    GroupEnds(g, e, c);
    GroupEnds(g, e, p);
    hide GroupRep, ToSet, Distinct, Flatten, PrevTx, Tails;
  }

  lemma {:induction false} MergeParts(g: Graph, e: seq<TxEntry>, rest: seq<seq<nat>>, p: seq<nat>, c: seq<nat>,
                                      back: seq<seq<nat>>)
    requires 0 < Tail(c) < |e| && 0 < Tail(p) < |e| && Tail(p) == e[Tail(c)].prevGroup && e[Tail(c)].firstTx < |e|
    requires AllRep(g, e, rest) && GroupRep(g, e, p) && GroupRep(g, e, c) && AllRep(g, e, back)
    requires Seg(PrevGroup(e), Tails(rest), e[Tail(p)].prevGroup, SENTINEL)
    requires Seg(PrevGroup(e), Tails(back), e[SENTINEL].prevGroup, Tail(c))
    requires e[SENTINEL].feerate == EMPTY && Distinct(p + c) && ToSet(p) !! ToSet(c)
    requires ToSet(Flatten(rest)) !! ToSet(c) && ToSet(Flatten(back)) !! ToSet(c)
    requires Distinct(Flatten(rest) + (p + c) + Flatten(back))
    ensures LoopRep(g, Merged(e, Tail(c), Tail(p)), rest, p + c, back)
  {
    var cur, prev := Tail(c), Tail(p);
    GroupEnds(g, e, c);
    GroupEnds(g, e, p);
    hide GroupRep, AllRep, Seg, Merged, ToSet, Distinct, Flatten, PrevGroup, PrevTx, Tails;
    TailConcat(p, c);
    MergedGroup(g, e, p, c);
    var f := Merged(e, cur, prev);
    MergedWithin(e, c, prev);
    hide Tail;
    OthersKept(g, e, f, rest, c);
    OthersKept(g, e, f, back, c);
    MergeLinks(e, f, Tails(rest), Tails(back), cur, prev);
  }

  lemma {:induction false} MergeLinks(e: seq<TxEntry>, f: seq<TxEntry>, rest: seq<nat>, back: seq<nat>, cur: nat,
                                      prev: nat)
    requires |f| == |e| && 0 < cur < |e| && prev < |e| && PrevGroup(f) == PrevGroup(e)[cur := e[prev].prevGroup]
    requires forall t :: t in rest && t < |e| ==> PrevGroup(f)[t] == PrevGroup(e)[t]
    requires forall t :: t in back && t < |e| ==> PrevGroup(f)[t] == PrevGroup(e)[t]
    requires Seg(PrevGroup(e), rest, e[prev].prevGroup, SENTINEL) && Seg(PrevGroup(e), back, e[SENTINEL].prevGroup, cur)
    ensures Seg(PrevGroup(f), rest, f[cur].prevGroup, SENTINEL) && Seg(PrevGroup(f), back, f[SENTINEL].prevGroup, cur)
  {
    LinksAt(e); LinksAt(f);
    hide PrevGroup, Seg;
    SegFrame(PrevGroup(e), PrevGroup(f), rest, e[prev].prevGroup, SENTINEL);
    SegFrame(PrevGroup(e), PrevGroup(f), back, e[SENTINEL].prevGroup, cur);
  }

  lemma {:induction false} LinksAt(e: seq<TxEntry>)
    ensures forall i :: 0 <= i < |e| ==> PrevGroup(e)[i] == e[i].prevGroup && PrevTx(e)[i] == e[i].prevTx
  {
  }

  lemma {:induction false} GroupEnds(g: Graph, e: seq<TxEntry>, c: seq<nat>)
    requires GroupRep(g, e, c)
    ensures c != [] && c[0] in ToSet(c) && c[|c| - 1] in ToSet(c) && 0 < Tail(c) < |e|
    ensures e[Tail(c)].firstTx == c[0] + 1 < |e|
  {
  }

  /** Only the entries of `c`, and possibly the sentinel, changed. */
  ghost predicate ChangedWithin(e: seq<TxEntry>, f: seq<TxEntry>, c: seq<nat>) {
    |f| == |e| && forall i :: 1 <= i < |e| && i - 1 !in ToSet(c) ==> f[i] == e[i]
  }

  lemma {:induction false} MergedWithin(e: seq<TxEntry>, c: seq<nat>, prev: nat)
    requires c != [] && c[0] in ToSet(c) && c[|c| - 1] in ToSet(c) && Tail(c) < |e| && prev < |e|
    requires prev != Tail(c) && e[Tail(c)].firstTx == c[0] + 1 < |e| && prev != c[0] + 1
    ensures var f := Merged(e, Tail(c), prev);
            && ChangedWithin(e, f, c) && PrevGroup(f) == PrevGroup(e)[Tail(c) := e[prev].prevGroup]
            && f[SENTINEL].feerate == e[SENTINEL].feerate
  {
    hide ToSet, Merged;
    MergedLinks(e, Tail(c), prev);
  }

  /** Groups disjoint from `c` are untouched by changes to the entries of `c`. */
  lemma {:induction false} OthersKept(g: Graph, e: seq<TxEntry>, f: seq<TxEntry>, groups: seq<seq<nat>>, c: seq<nat>)
    requires AllRep(g, e, groups) && |f| == |e| && ToSet(Flatten(groups)) !! ToSet(c)
    requires ChangedWithin(e, f, c)
    ensures AllRep(g, f, groups)
    ensures forall t :: t in Tails(groups) && t < |e| ==> PrevGroup(f)[t] == PrevGroup(e)[t]
  {
    forall x | x in Flatten(groups) && x + 1 < |e| ensures f[x + 1] == e[x + 1] {
      assert x in ToSet(Flatten(groups)) && x !in ToSet(c);
    }
    AllFrame(g, e, f, groups);
    forall t | t in Tails(groups) && t < |e| ensures PrevGroup(f)[t] == PrevGroup(e)[t] {
      TailIn(g, e, groups, t);
    }
  }

  lemma {:induction false} MergeFacts(front: seq<seq<nat>>, c: seq<nat>, back: seq<seq<nat>>)
    requires front != [] && Distinct(Flatten(front) + c + Flatten(back))
    ensures var p := front[|front| - 1]; var rest := front[..|front| - 1];
            && Distinct(p + c) && ToSet(p) !! ToSet(c)
            && ToSet(Flatten(rest)) !! ToSet(c) && ToSet(Flatten(back)) !! ToSet(c)
            && Distinct(Flatten(rest) + (p + c) + Flatten(back))
            && Distinct(Flatten(rest) + c + Flatten([p] + back))
  {
    var p, rest := front[|front| - 1], front[..|front| - 1];
    var a, b := Flatten(rest), Flatten(back);
    FlattenLast(front);
    assert Flatten([p] + back) == p + b;
    hide Distinct, ToSet, Flatten;
    assert a + (p + c) + b == Flatten(front) + c + b;
    assert a + c + Flatten([p] + back) == a + c + p + b;
    assert a + p + c + b == Flatten(front) + c + b;
    DistinctBlocks(a, p, c, b);
  }

  lemma {:induction false} DistinctBlocks(a: seq<nat>, p: seq<nat>, c: seq<nat>, b: seq<nat>)
    requires Distinct(a + p + c + b)
    ensures Distinct(p + c) && ToSet(p) !! ToSet(c) && ToSet(a) !! ToSet(c) && ToSet(b) !! ToSet(c)
    ensures Distinct(a + c + p + b)
  {
    DistinctConcat(a + p + c, b); DistinctConcat(a + p, c); DistinctConcat(a, p);
    ToSetConcat(a + p, c); ToSetConcat(a, p);
    DistinctConcat(p, c); DistinctConcat(a, c); ToSetConcat(a, c);
    DistinctConcat(a + c, p); ToSetConcat(a + c, p); DistinctConcat(a + c + p, b);
  }

  // ---------------------------------------------------------------- swapping with the previous group

  /** The assignments made when the group at `cur` moves in front of the group at `prev`. */
  function Swapped(e: seq<TxEntry>, cur: nat, prev: nat, next: nat): (f: seq<TxEntry>)
    requires cur < |e| && prev < |e| && next < |e|
    ensures |f| == |e|
  {
    var preprev := e[prev].prevGroup;
    var e1 := e[next := e[next].(prevGroup := prev)];
    var e2 := e1[prev := e1[prev].(prevGroup := cur)];
    e2[cur := e2[cur].(prevGroup := preprev)]
  }

  /** Where the group after `c` is linked from. */
  ghost function NextOf(back: seq<seq<nat>>): nat { if back == [] then SENTINEL else Tail(back[0]) }

  lemma {:induction false} SwappedLinks(e: seq<TxEntry>, cur: nat, prev: nat, next: nat)
    requires cur < |e| && prev < |e| && next < |e| && cur != prev && prev != next && next != cur
    ensures var f := Swapped(e, cur, prev, next);
            && PrevGroup(f) == PrevGroup(e)[next := prev][prev := cur][cur := e[prev].prevGroup]
            && forall i :: 0 <= i < |e| ==> f[i] == e[i].(prevGroup := f[i].prevGroup)
  {
  }

  lemma {:induction false} TailsDistinct(g: Graph, e: seq<TxEntry>, groups: seq<seq<nat>>)
    requires AllRep(g, e, groups) && Distinct(Flatten(groups))
    ensures Distinct(Tails(groups))
  {
    if groups != [] {
      var n := |groups| - 1;
      var c, rest := groups[n], groups[..n];
      FlattenLast(groups);
      DistinctConcat(Flatten(rest), c);
      assert GroupRep(g, e, c);
      GroupEnds(g, e, c);
      hide GroupRep;
      assert AllRep(g, e, rest);
      TailsDistinct(g, e, rest);
      assert Tails(groups) == Tails(rest) + [Tail(c)];
      forall t | t in ToSet(Tails(rest)) ensures t != Tail(c) {
        TailIn(g, e, rest, t);
        assert t - 1 in ToSet(Flatten(rest));
      }
      DistinctConcat(Tails(rest), [Tail(c)]);
    }
  }

  /** No tail of `groups` is the tail of a group disjoint from them, nor the sentinel. */
  lemma {:induction false} TailElsewhere(g: Graph, e: seq<TxEntry>, groups: seq<seq<nat>>, c: seq<nat>)
    requires AllRep(g, e, groups) && c != [] && ToSet(Flatten(groups)) !! ToSet(c)
    ensures Tail(c) !in Tails(groups) && SENTINEL !in Tails(groups)
  {
    forall t | t in Tails(groups) ensures t != Tail(c) && t != SENTINEL {
      TailIn(g, e, groups, t);
      assert t - 1 in ToSet(Flatten(groups)) && c[|c| - 1] in ToSet(c);
    }
  }

  lemma {:induction false} SwapRep(g: Graph, e: seq<TxEntry>, front: seq<seq<nat>>, c: seq<nat>, back: seq<seq<nat>>)
    requires LoopRep(g, e, front, c, back) && front != []
    ensures var p := front[|front| - 1];
            && Tail(p) == e[Tail(c)].prevGroup < |e| && Tail(c) < |e| && NextOf(back) < |e|
            && LoopRep(g, Swapped(e, Tail(c), Tail(p), NextOf(back)), front[..|front| - 1], c, [p] + back)
  {
    var p, rest := front[|front| - 1], front[..|front| - 1];
    var cur, prev, next := Tail(c), Tail(p), NextOf(back);
    hide GroupRep, Swapped, ToSet, Distinct, Flatten, PrevGroup, PrevTx, Tails, Seg;
    SplitFront(g, e, front, c, back);
    MergeFacts(front, c, back);
    SwapFacts(front, c, back);
    NextFacts(g, e, front, c, back);
    SwappedLinks(e, cur, prev, next);
    var f := Swapped(e, cur, prev, next);
    AllFrame(g, e, f, rest);
    AllFrame(g, e, f, back);
    GroupFrame(g, e, f, c);
    GroupFrame(g, e, f, p);
    assert AllRep(g, f, [p] + back);
    LinksAt(e); LinksAt(f);
    SwapFront(g, e, f, rest, c, p, back);
    SwapBack(g, e, f, c, p, back);
  }

  /** The next group, if any, is neither of the two groups exchanged. */
  lemma {:induction false} NextFacts(g: Graph, e: seq<TxEntry>, front: seq<seq<nat>>, c: seq<nat>, back: seq<seq<nat>>)
    requires front != [] && AllRep(g, e, back) && GroupRep(g, e, c) && GroupRep(g, e, front[|front| - 1])
    requires ToSet(Flatten(back)) !! ToSet(c) && ToSet(Flatten(back)) !! ToSet(front[|front| - 1])
    requires ToSet(front[|front| - 1]) !! ToSet(c)
    ensures NextOf(back) < |e| && NextOf(back) != Tail(c) && NextOf(back) != Tail(front[|front| - 1])
      && Tail(c) != Tail(front[|front| - 1])
  {
    var p := front[|front| - 1];
    GroupEnds(g, e, c);
    GroupEnds(g, e, p);
    assert c[|c| - 1] in ToSet(c) && p[|p| - 1] in ToSet(p);
    if back != [] {
      assert GroupRep(g, e, back[0]);
      GroupEnds(g, e, back[0]);
      hide GroupRep;
      TailElsewhere(g, e, back, c);
      TailElsewhere(g, e, back, p);
      assert Tails(back)[0] == Tail(back[0]);
    }
  }

  lemma {:induction false} SwapFacts(front: seq<seq<nat>>, c: seq<nat>, back: seq<seq<nat>>)
    requires front != [] && Distinct(Flatten(front) + c + Flatten(back))
    ensures var p := front[|front| - 1]; var rest := front[..|front| - 1];
            && ToSet(Flatten(rest)) !! ToSet(p) && ToSet(Flatten(back)) !! ToSet(p)
            && ToSet(Flatten(rest)) !! ToSet(Flatten(back)) && Distinct(Flatten(back))
  {
    var p, rest := front[|front| - 1], front[..|front| - 1];
    var a, b := Flatten(rest), Flatten(back);
    FlattenLast(front);
    assert a + p + c + b == Flatten(front) + c + b;
    DistinctConcat(a + p + c, b); DistinctConcat(a + p, c); DistinctConcat(a, p);
    ToSetConcat(a + p, c); ToSetConcat(a, p);
  }

  lemma {:induction false} SwapFront(g: Graph, e: seq<TxEntry>, f: seq<TxEntry>, rest: seq<seq<nat>>, c: seq<nat>,
                                     p: seq<nat>, back: seq<seq<nat>>)
    requires |f| == |e| && Tail(c) < |e| && Tail(p) < |e| && NextOf(back) < |e| && c != [] && p != []
    requires PrevGroup(f) == PrevGroup(e)[NextOf(back) := Tail(p)][Tail(p) := Tail(c)][Tail(c) := e[Tail(p)].prevGroup]
    requires AllRep(g, e, rest) && AllRep(g, e, back)
    requires ToSet(Flatten(rest)) !! ToSet(c) && ToSet(Flatten(rest)) !! ToSet(p)
      && ToSet(Flatten(rest)) !! ToSet(Flatten(back))
    requires Seg(PrevGroup(e), Tails(rest), e[Tail(p)].prevGroup, SENTINEL)
    ensures Seg(PrevGroup(f), Tails(rest), e[Tail(p)].prevGroup, SENTINEL)
  {
    TailElsewhere(g, e, rest, c);
    TailElsewhere(g, e, rest, p);
    if back != [] {
      assert GroupRep(g, e, back[0]);
      GroupEnds(g, e, back[0]);
      FlattenSplit(back, 1);
      assert back[..1] == [back[0]];
      FlattenOne(back[0]);
      ToSetConcat(back[0], Flatten(back[1..]));
      TailElsewhere(g, e, rest, back[0]);
    }
    hide *;
    assert NextOf(back) !in Tails(rest) by { NextMissing(rest, back); }
    SegFrame(PrevGroup(e), PrevGroup(f), Tails(rest), e[Tail(p)].prevGroup, SENTINEL);
  }

  lemma {:induction false} NextMissing(rest: seq<seq<nat>>, back: seq<seq<nat>>)
    requires SENTINEL !in Tails(rest) && (back != [] ==> Tail(back[0]) !in Tails(rest))
    ensures NextOf(back) !in Tails(rest)
  {
  }

  lemma {:induction false} SwapBack(g: Graph, e: seq<TxEntry>, f: seq<TxEntry>, c: seq<nat>, p: seq<nat>,
                                    back: seq<seq<nat>>)
    requires |f| == |e| && 0 < Tail(c) < |e| && 0 < Tail(p) < |e| && NextOf(back) < |e| && c != [] && p != []
    requires Tail(c) != Tail(p) && Tail(c) != NextOf(back) && Tail(p) != NextOf(back)
    requires PrevGroup(f) == PrevGroup(e)[NextOf(back) := Tail(p)][Tail(p) := Tail(c)][Tail(c) := e[Tail(p)].prevGroup]
    requires PrevGroup(f)[0] == f[0].prevGroup && PrevGroup(e)[0] == e[0].prevGroup
    requires AllRep(g, e, back) && Distinct(Flatten(back))
    requires ToSet(Flatten(back)) !! ToSet(c) && ToSet(Flatten(back)) !! ToSet(p)
    requires Seg(PrevGroup(e), Tails(back), e[SENTINEL].prevGroup, Tail(c))
    ensures Seg(PrevGroup(f), Tails([p] + back), f[SENTINEL].prevGroup, Tail(c))
  {
    var cur, prev, next := Tail(c), Tail(p), NextOf(back);
    var pe, pf := PrevGroup(e), PrevGroup(f);
    SegOne(pf, prev, cur);
    assert Tails([p] + back) == [prev] + Tails(back);
    if back == [] {
      assert Tails(back) == [];
    } else {
      TailElsewhere(g, e, back, c);
      TailElsewhere(g, e, back, p);
      TailsDistinct(g, e, back);
      assert Tails(back)[0] == next;
      assert next in Tails(back);
      hide AllRep, ToSet, Flatten, Distinct, PrevGroup, Tails, Tail;
      SegRetarget(pe, Tails(back), e[SENTINEL].prevGroup, cur, prev);
      SegFrame(pe[next := prev], pf, Tails(back), e[SENTINEL].prevGroup, prev);
      SegConcat(pf, [prev], Tails(back), f[SENTINEL].prevGroup, prev, cur);
    }
  }

  // ---------------------------------------------------------------- adding a transaction

  /** A new group holding only `idx`, linked in at the back. */
  function Inserted(e: seq<TxEntry>, idx: nat, deps: set<nat>, feerate: FeeFrac): (f: seq<TxEntry>)
    requires idx + 1 < |e|
    ensures |f| == |e|
  {
    var e1 := e[idx + 1 := TxEntry(NO_PREV_TX, idx + 1, e[SENTINEL].prevGroup, {idx}, deps, feerate)];
    e1[SENTINEL := e1[SENTINEL].(prevGroup := idx + 1)]
  }

  lemma {:induction false} InsertRep(g: Graph, e: seq<TxEntry>, groups: seq<seq<nat>>, idx: nat)
    requires ListRep(g, e, groups) && idx + 1 < |e| && idx !in Flatten(groups)
    ensures LoopRep(g, Inserted(e, idx, g.Anc(idx), g.Rate(idx)), groups, [idx], [])
  {
    var f := Inserted(e, idx, g.Anc(idx), g.Rate(idx));
    assert ToSet([idx]) == {idx};
    OthersKept(g, e, f, groups, [idx]);
    InsertedGroup(g, f, [idx], idx);
    var flat := Flatten(groups);
    assert Distinct(flat + [idx]) by { DistinctConcat(flat, [idx]); }
    assert flat + [idx] + Flatten([]) == flat + [idx];
    assert Tails([]) == [];
    hide GroupRep, Flatten, Distinct;
    SegFrame(PrevGroup(e), PrevGroup(f), Tails(groups), e[SENTINEL].prevGroup, SENTINEL);
  }

  lemma {:induction false} InsertedGroup(g: Graph, f: seq<TxEntry>, c: seq<nat>, idx: nat)
    requires |c| == 1 && c[0] == idx && idx + 1 < |f| && f[idx + 1].prevTx == NO_PREV_TX
    requires f[idx + 1].firstTx == idx + 1 && f[idx + 1].group == {idx}
    requires f[idx + 1].deps == g.Anc(idx) && f[idx + 1].feerate == g.Rate(idx)
    ensures GroupRep(g, f, c)
  {
    hide TailData, Deps, SeqSum, Graph.Anc, Graph.Rate, ToSet;
    InsertedData(g, f, c, idx);
    assert PrevTx(f)[idx + 1] == NO_PREV_TX;
    assert Stored(c) == [idx + 1];
    hide Stored, PrevTx;
    SegOne(PrevTx(f), idx + 1, NO_PREV_TX);
  }

  lemma {:induction false} InsertedData(g: Graph, f: seq<TxEntry>, c: seq<nat>, idx: nat)
    requires |c| == 1 && c[0] == idx && idx + 1 < |f| && f[idx + 1].firstTx == idx + 1 && f[idx + 1].group == {idx}
    requires f[idx + 1].deps == g.Anc(idx) && f[idx + 1].feerate == g.Rate(idx)
    ensures TailData(g, f, c)
  {
    hide SeqSum, Deps, Graph.Rate, Graph.Anc, ToSet;
    SingleData(g, c, idx);
  }

  lemma {:induction false} SingleData(g: Graph, c: seq<nat>, idx: nat)
    requires |c| == 1 && c[0] == idx
    ensures SeqSum(g, c) == g.Rate(idx) && Deps(g, c) == g.Anc(idx) && ToSet(c) == {idx}
  {
    hide Graph.Rate, Graph.Anc;
    assert c == [idx];
    assert c[1..] == [];
    assert SeqSum(g, c) == g.Rate(idx) by { SumOne(g, idx); }
  }

  /** When the cycle stops, the groups stand in a list again. */
  lemma {:induction false} CycleEnd(g: Graph, e: seq<TxEntry>, front: seq<seq<nat>>, c: seq<nat>, back: seq<seq<nat>>)
    requires LoopRep(g, e, front, c, back)
    ensures ListRep(g, e, front + [c] + back)
  {
    hide GroupRep, PrevGroup, Flatten, Distinct, Tails, AllRep, Seg;
    FlattenThree(front, c, back);
    GroupEnds(g, e, c);
    LinksAt(e);
    ThreeParts(g, e, front, c, back);
    SegOne(PrevGroup(e), Tail(c), e[Tail(c)].prevGroup);
    SegConcat(PrevGroup(e), Tails(front), [Tail(c)], Tail(c), e[Tail(c)].prevGroup, SENTINEL);
    SegConcat(PrevGroup(e), Tails(front) + [Tail(c)], Tails(back), e[SENTINEL].prevGroup, Tail(c), SENTINEL);
  }

  lemma {:induction false} ThreeParts(g: Graph, e: seq<TxEntry>, front: seq<seq<nat>>, c: seq<nat>, back: seq<seq<nat>>)
    requires AllRep(g, e, front) && GroupRep(g, e, c) && AllRep(g, e, back)
    ensures AllRep(g, e, front + [c] + back)
    ensures Tails(front + [c] + back) == Tails(front) + [Tail(c)] + Tails(back)
  {
    hide GroupRep;
  }

  /** The two tests of the cycle, read off the entries. The sentinel's empty feerate is never lower. */
  lemma {:induction false} CycleTests(g: Graph, e: seq<TxEntry>, front: seq<seq<nat>>, c: seq<nat>, back: seq<seq<nat>>)
    requires LoopRep(g, e, front, c, back)
    ensures Tail(c) < |e| && e[Tail(c)].prevGroup < |e|
    ensures Higher(e[Tail(c)].feerate, e[e[Tail(c)].prevGroup].feerate) <==> Lifts(g, front, c)
    ensures front != [] ==>
      (e[Tail(c)].deps * e[e[Tail(c)].prevGroup].group != {} <==> DependsOn(g, c, front[|front| - 1]))
  {
    if front != [] {
      assert GroupRep(g, e, front[|front| - 1]);
      assert Tails(front)[|front| - 1] == Tail(front[|front| - 1]);
    }
  }

  method AddTransaction(ghost g: Graph, e0: seq<TxEntry>, ghost groups: seq<seq<nat>>, idx: nat, deps: set<nat>,
                        feerate: FeeFrac)
    returns (e: seq<TxEntry>)
    requires ListRep(g, e0, groups) && idx + 1 < |e0| && idx !in Flatten(groups)
    requires deps == g.Anc(idx) && feerate == g.Rate(idx)
    ensures |e| == |e0| && ListRep(g, e, Sift(g, groups, [idx], []))
  {
    e := Inserted(e0, idx, deps, feerate);
    var cur, next := idx + 1, SENTINEL;
    var prev := e[cur].prevGroup;
    InsertRep(g, e0, groups, idx);
    ghost var front, c, back := groups, [idx], [];
    hide LoopRep, ListRep, Merged, Swapped, Inserted, DependsOn, Lifts;
    CycleTests(g, e, front, c, back);
    while Higher(e[cur].feerate, e[prev].feerate)
      invariant |e| == |e0| && LoopRep(g, e, front, c, back)
      invariant cur == Tail(c) < |e| && prev == e[cur].prevGroup < |e| && next == NextOf(back)
      invariant Higher(e[cur].feerate, e[prev].feerate) <==> Lifts(g, front, c)
      invariant Sift(g, front, c, back) == Sift(g, groups, [idx], [])
      decreases |front|
    {
      CycleTests(g, e, front, c, back);
      LiftsFront(g, front, c);
      ghost var p, rest := front[|front| - 1], front[..|front| - 1];
      if e[cur].deps * e[prev].group != {} {
        MergeRep(g, e, front, c, back);
        TailConcat(p, c);
        e := Merged(e, cur, prev);
        prev := e[cur].prevGroup;
        front, c := rest, p + c;
      } else {
        SwapRep(g, e, front, c, back);
        e := Swapped(e, cur, prev, next);
        next := prev;
        prev := e[cur].prevGroup;
        front, back := rest, [p] + back;
      }
      CycleTests(g, e, front, c, back);
    }
    CycleEnd(g, e, front, c, back);
  }

  lemma {:induction false} LiftsFront(g: Graph, front: seq<seq<nat>>, c: seq<nat>)
    requires Lifts(g, front, c)
    ensures front != []
  {
  }

  lemma {:induction false} TailConcat(p: seq<nat>, c: seq<nat>)
    requires Tail(c) > 0
    ensures Tail(p + c) == Tail(c)
  {
  }

  // ---------------------------------------------------------------- writing the result

  /** Where element `j` of the concatenated groups is written. */
  function Place(n: nat, j: nat, rev: bool): (p: nat)
    requires j < n
    ensures p < n
  {
    if rev then n - 1 - j else j
  }

  /** The last `done` elements of `flat` are in place: at the end, or reversed at the start. */
  ghost predicate Written(lin: seq<nat>, flat: seq<nat>, done: nat, rev: bool) {
    |lin| == |flat| && done <= |flat| &&
    forall j :: |flat| - done <= j < |flat| ==> lin[Place(|flat|, j, rev)] == flat[j]
  }

  lemma {:induction false} WrittenAll(lin: seq<nat>, flat: seq<nat>, rev: bool)
    requires Written(lin, flat, |flat|, rev)
    ensures lin == if rev then Reverse(flat) else flat
  {
    if rev {
      forall k | 0 <= k < |flat| ensures lin[k] == Reverse(flat)[k] {
        ReverseAt(flat, k);
        assert lin[Place(|flat|, |flat| - 1 - k, rev)] == flat[|flat| - 1 - k];
      }
    } else {
      forall k | 0 <= k < |flat| ensures lin[k] == flat[k] { assert lin[Place(|flat|, k, rev)] == flat[k]; }
    }
  }

  lemma {:induction false} WrittenSize(lin: seq<nat>, flat: seq<nat>, done: nat, rev: bool)
    requires Written(lin, flat, done, rev)
    ensures |lin| == |flat|
  {
  }

  lemma {:induction false} WrittenStep(lin: seq<nat>, flat: seq<nat>, done: nat, rev: bool)
    requires Written(lin, flat, done, rev) && done < |flat|
    ensures var j := |flat| - 1 - done; Written(lin[Place(|flat|, j, rev) := flat[j]], flat, done + 1, rev)
  {
  }

  lemma {:induction false} GroupAt(groups: seq<seq<nat>>, k: nat, m: nat)
    requires k < |groups| && m < |groups[k]|
    ensures |Flatten(groups[..k + 1])| == |Flatten(groups[..k])| + |groups[k]| <= |Flatten(groups)|
    ensures Flatten(groups)[|Flatten(groups[..k])| + m] == groups[k][m]
  {
    FlattenSplit(groups, k + 1);
    FlattenLast(groups[..k + 1]);
    assert groups[..k + 1][..k] == groups[..k];
  }

  /** One step back along a group. */
  lemma {:induction false} SegBack(next: seq<nat>, nodes: seq<nat>, at: nat)
    requires Seg(next, nodes, at, 0) && 0 !in nodes
    ensures at != 0 <==> nodes != []
    ensures at != 0 ==> at < |next| && at == nodes[|nodes| - 1] && Seg(next, nodes[..|nodes| - 1], next[at], 0)
  {
    if nodes != [] { assert nodes[|nodes| - 1] in nodes; }
  }

  method WriteGroup(lin: array<nat>, e: seq<TxEntry>, ghost g: Graph, ghost groups: seq<seq<nat>>, ghost k: nat,
                    cur: nat, rev: bool, done0: nat)
    returns (done: nat)
    requires k < |groups| && GroupRep(g, e, groups[k]) && cur == Tail(groups[k])
    requires done0 + |Flatten(groups[..k + 1])| == |Flatten(groups)|
    requires Written(lin[..], Flatten(groups), done0, rev)
    modifies lin
    ensures done + |Flatten(groups[..k])| == |Flatten(groups)|
    ensures Written(lin[..], Flatten(groups), done, rev)
  {
    hide Flatten, Written, PrevTx;
    ghost var c, flat := groups[k], Flatten(groups);
    ghost var m := |c|;
    var curTx := cur;
    done := done0;
    GroupAt(groups, k, 0);
    LinksAt(e);
    WrittenSize(lin[..], flat, done, rev);
    assert c[..m] == c;
    while curTx != NO_PREV_TX
      invariant 0 <= m <= |c| && done + |Flatten(groups[..k])| + m == |flat|
      invariant Written(lin[..], flat, done, rev)
      invariant Seg(PrevTx(e), Stored(c[..m]), curTx, NO_PREV_TX)
      decreases m
    {
      SegBack(PrevTx(e), Stored(c[..m]), curTx);
      GroupAt(groups, k, m - 1);
      assert Stored(c[..m])[m - 1] == c[m - 1] + 1;
      assert Stored(c[..m])[..m - 1] == Stored(c[..m - 1]);
      WrittenStep(lin[..], flat, done, rev);
      ghost var was := lin[..];
      if rev {
        lin[done] := curTx - 1;
      } else {
        lin[lin.Length - 1 - done] := curTx - 1;
      }
      assert lin[..] == was[(if rev then done else lin.Length - 1 - done) := curTx - 1];
      done := done + 1;
      curTx := e[curTx].prevTx;
      m := m - 1;
    }
    SegBack(PrevTx(e), Stored(c[..m]), curTx);
  }

  method WriteBack(lin: array<nat>, e: seq<TxEntry>, ghost g: Graph, ghost groups: seq<seq<nat>>, rev: bool)
    requires ListRep(g, e, groups) && lin.Length == |Flatten(groups)|
    modifies lin
    ensures lin[..] == if rev then Reverse(Flatten(groups)) else Flatten(groups)
  {
    var cur, done := e[SENTINEL].prevGroup, 0;
    ghost var k := |groups|;
    assert groups[..k] == groups;
    forall t | t in Tails(groups) ensures t != 0 { TailIn(g, e, groups, t); }
    LinksAt(e);
    hide GroupRep, Written, Distinct, Flatten;
    assert Written(lin[..], Flatten(groups), 0, rev) by { WrittenNone(lin[..], Flatten(groups), rev); }
    while cur != SENTINEL
      invariant 0 <= k <= |groups| && 0 <= done && done + |Flatten(groups[..k])| == |Flatten(groups)|
      invariant Seg(PrevGroup(e), Tails(groups[..k]), cur, SENTINEL)
      invariant Written(lin[..], Flatten(groups), done, rev)
      decreases k
    {
      SegBack(PrevGroup(e), Tails(groups[..k]), cur);
      assert Tails(groups[..k])[k - 1] == Tail(groups[k - 1]);
      assert Tails(groups[..k])[..k - 1] == Tails(groups[..k - 1]);
      done := WriteGroup(lin, e, g, groups, k - 1, cur, rev, done);
      cur := e[cur].prevGroup;
      k := k - 1;
    }
    SegBack(PrevGroup(e), Tails(groups[..k]), cur);
    FlattenNone(groups);
    WrittenAll(lin[..], Flatten(groups), rev);
  }

  lemma {:induction false} WrittenNone(lin: seq<nat>, flat: seq<nat>, rev: bool)
    requires |lin| == |flat|
    ensures Written(lin, flat, 0, rev)
  {
  }

  lemma {:induction false} FlattenNone(groups: seq<seq<nat>>)
    ensures Flatten(groups[..0]) == []
  {
  }

  // ---------------------------------------------------------------- the passes

  /** The graph as a backward pass, or a forward pass, sees it. */
  ghost function Facing(g: Graph, rev: bool): Graph { if rev then Mirror(g) else g }

  lemma {:induction false} FacingAt(g: Graph, rev: bool, idx: nat)
    requires idx < |g.entries|
    ensures Facing(g, rev).Anc(idx) == if rev then g.Desc(idx) else g.Anc(idx)
    ensures Facing(g, rev).Rate(idx) == if rev then g.Rate(idx).Negate() else g.Rate(idx)
  {
  }

  lemma {:induction false} PassStep(g: Graph, input: seq<nat>, i: nat)
    requires TopoList(g, input) && i < |input|
    ensures input[i] !in Flatten(PassGroups(g, input[..i]))
    ensures Sift(g, PassGroups(g, input[..i]), [input[i]], []) == PassGroups(g, input[..i + 1])
  {
    PrefixTopo(g, input, i);
    PassOrder(g, input[..i]);
    assert input[..i + 1][..i] == input[..i];
    assert input[i] !in ToSet(input[..i]);
  }

  /** The list as a pass reads it. */
  ghost function Reading(lin: seq<nat>, rev: bool): seq<nat> { if rev then Reverse(lin) else lin }

  lemma {:induction false} ReadingAt(lin: seq<nat>, rev: bool, i: nat)
    requires i < |lin|
    ensures |Reading(lin, rev)| == |lin| && Reading(lin, rev)[i] == lin[if rev then |lin| - 1 - i else i]
  {
    if rev { ReverseAt(lin, i); }
  }

  lemma {:induction false} ReadingTopo(g: Graph, lin: seq<nat>, rev: bool)
    requires WellFormed(g) && Linearization(g, g.used, lin)
    ensures |Reading(lin, rev)| == |lin| && TopoList(Facing(g, rev), Reading(lin, rev))
    ensures ToSet(Reading(lin, rev)) == g.used
  {
    if rev { BackwardOrder(g, lin); }
  }

  lemma {:induction false} PassLength(g: Graph, input: seq<nat>)
    requires TopoList(g, input)
    ensures |Flatten(PassGroups(g, input))| == |input|
  {
    PassOrder(g, input);
    DistinctCard(Flatten(PassGroups(g, input)));
    DistinctCard(input);
  }

  lemma {:induction false} PassIndex(g: Graph, lin: seq<nat>, i: nat)
    requires WellFormed(g) && Linearization(g, g.used, lin) && i < |lin|
    ensures lin[i] < |g.entries|
  {
    assert lin[i] in ToSet(lin);
  }

  /** What reading transaction number `i` gives. */
  lemma {:induction false} PassRead(g: Graph, lin: seq<nat>, rev: bool, i: nat)
    requires WellFormed(g) && Linearization(g, g.used, lin) && i < |lin|
    ensures var idx := lin[if rev then |lin| - 1 - i else i]; var h := Facing(g, rev); var input := Reading(lin, rev);
            && idx < |g.entries| && |input| == |lin| && idx !in Flatten(PassGroups(h, input[..i]))
            && h.Anc(idx) == (if rev then g.Desc(idx) else g.Anc(idx))
            && h.Rate(idx) == (if rev then g.Rate(idx).Negate() else g.Rate(idx))
            && Sift(h, PassGroups(h, input[..i]), [idx], []) == PassGroups(h, input[..i + 1])
  {
    hide *;
    var k := if rev then |lin| - 1 - i else i;
    ReadingTopo(g, lin, rev);
    ReadingAt(lin, rev, i);
    PassIndex(g, lin, k);
    FacingAt(g, rev, lin[k]);
    PassStep(Facing(g, rev), Reading(lin, rev), i);
  }

  /** The first half of a pass: add the transactions one by one. */
  method BuildGroups(g: Graph, lin: seq<nat>, e0: seq<TxEntry>, rev: bool) returns (e: seq<TxEntry>)
    requires WellFormed(g) && Linearization(g, g.used, lin)
    requires |e0| == |g.entries| + 1 && e0[SENTINEL].feerate == EMPTY
    ensures |e| == |e0| && ListRep(Facing(g, rev), e, PassGroups(Facing(g, rev), Reading(lin, rev)))
  {
    hide *;
    e := NoGroups(e0);
    ghost var h, input := Facing(g, rev), Reading(lin, rev);
    ReadingTopo(g, lin, rev);
    PassStart(h, e0, input);
    var i := 0;
    while i < |lin|
      invariant i <= |lin| == |input| && |e| == |e0|
      invariant ListRep(h, e, PassGroups(h, input[..i]))
    {
      var idx := lin[if rev then |lin| - 1 - i else i];
      PassRead(g, lin, rev, i);
      e := AddTransaction(h, e, PassGroups(h, input[..i]), idx, if rev then g.Desc(idx) else g.Anc(idx),
                          if rev then g.Rate(idx).Negate() else g.Rate(idx));
      i := i + 1;
    }
    assert input[..i] == input;
  }

  /** One pass over the linearization: from back to front when `rev`, else from front to back. */
  method Pass(g: Graph, lin: array<nat>, e0: seq<TxEntry>, rev: bool) returns (e: seq<TxEntry>)
    requires WellFormed(g) && Linearization(g, g.used, lin[..])
    requires |e0| == |g.entries| + 1 && e0[SENTINEL].feerate == EMPTY
    modifies lin
    ensures |e| == |e0| && e[SENTINEL].feerate == EMPTY
    ensures lin[..] == if rev then Backward(g, old(lin[..])) else Forward(g, old(lin[..]))
  {
    hide *;
    ghost var h, input := Facing(g, rev), Reading(lin[..], rev);
    ReadingTopo(g, lin[..], rev);
    PassLength(h, input);
    e := BuildGroups(g, lin[..], e0, rev);
    SentinelRate(h, e, PassGroups(h, input));
    WriteBack(lin, e, h, PassGroups(h, input), rev);
    PassResult(g, old(lin[..]), rev);
  }

  lemma {:induction false} PassResult(g: Graph, lin: seq<nat>, rev: bool)
    ensures var flat := Flatten(PassGroups(Facing(g, rev), Reading(lin, rev)));
            (if rev then Reverse(flat) else flat) == if rev then Backward(g, lin) else Forward(g, lin)
  {
  }

  lemma {:induction false} SentinelRate(g: Graph, e: seq<TxEntry>, groups: seq<seq<nat>>)
    requires ListRep(g, e, groups)
    ensures |e| > 0 && e[SENTINEL].feerate == EMPTY
  {
  }

  /** A sentinel that is its own predecessor: the empty list. */
  function NoGroups(e: seq<TxEntry>): (f: seq<TxEntry>)
    requires |e| > 0
    ensures |f| == |e|
  {
    e[SENTINEL := e[SENTINEL].(prevGroup := SENTINEL)]
  }

  lemma {:induction false} PassStart(g: Graph, e: seq<TxEntry>, input: seq<nat>)
    requires |e| > 0 && e[SENTINEL].feerate == EMPTY
    ensures ListRep(g, NoGroups(e), PassGroups(g, input[..0]))
  {
    assert PassGroups(g, input[..0]) == [];
    assert Tails([]) == [];
  }

  /** Improve a linearization in place: a backward pass, then a forward pass. */
  method PostLinearize(g: Graph, lin: array<nat>)
    requires WellFormed(g) && Linearization(g, g.used, lin[..])
    modifies lin
    ensures lin[..] == Post(g, old(lin[..]))
    ensures Linearization(g, g.used, lin[..])
    ensures AsGood(g, lin[..], old(lin[..])) && DiagramAbove(g, lin[..], old(lin[..]))
    ensures forall parts :: Chunking(g, lin[..], parts) ==> AllConnected(g, parts)
    ensures Acyclic(g) && (AtMostOneChild(g) || AtMostOneParent(g)) ==> Optimal(g, lin[..])
  {
    var e := seq(|g.entries| + 1, i => TxEntry(0, 0, 0, {}, {}, EMPTY));
    ghost var input := lin[..];
    BackwardOrder(g, input);
    e := Pass(g, lin, e, true);
    e := Pass(g, lin, e, false);
    PostSummary(g, input);
  }

  lemma {:induction false} PostSummary(g: Graph, input: seq<nat>)
    requires WellFormed(g) && Linearization(g, g.used, input)
    ensures Linearization(g, g.used, Post(g, input))
    ensures AsGood(g, Post(g, input), input) && DiagramAbove(g, Post(g, input), input)
    ensures forall parts :: Chunking(g, Post(g, input), parts) ==> AllConnected(g, parts)
    ensures Acyclic(g) && (AtMostOneChild(g) || AtMostOneParent(g)) ==> Optimal(g, Post(g, input))
  {
    PostOrder(g, input);
    assert Sized(g) && Distinct(input) && Distinct(Post(g, input)) && ToSet(Post(g, input)) == ToSet(input) <= g.used;
    hide *;
    PostNeverWorse(g, input);
    AsGoodDiagram(g, Post(g, input), input);
    forall parts | Chunking(g, Post(g, input), parts) ensures AllConnected(g, parts) {
      PostConnected(g, input, parts);
    }
    if Acyclic(g) && (AtMostOneChild(g) || AtMostOneParent(g)) { PostOptimal(g, input); }
  }
}
