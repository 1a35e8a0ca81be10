/** Building and changing a dependency graph. */
module DepGraphBuild {
  import opened FeeFracs
  import opened Lists
  import opened DepGraphs

  /** The ancestors of any of `parents`. */
  function ParentAncestors(g: Graph, parents: set<nat>): set<nat> {
    set p, a | p in parents && a in g.Anc(p) :: a
  }

  /** `g` with every ancestor of `parents` made an ancestor of every descendant of `child`. */
  function Linked(g: Graph, parents: set<nat>, child: nat): Graph {
    var pa, chl := ParentAncestors(g, parents), g.Desc(child);
    Graph(seq(|g.entries|, i requires 0 <= i < |g.entries| =>
                LinkedEntry(g.entries[i], i in chl, pa, i in pa, chl)), g.used)
  }

  function LinkedEntry(e: Entry, addAnc: bool, anc: set<nat>, addDesc: bool, desc: set<nat>): Entry {
    Entry(e.feerate, if addAnc then e.ancestors + anc else e.ancestors,
          if addDesc then e.descendants + desc else e.descendants)
  }

  ghost predicate Linkable(g: Graph, parents: set<nat>, child: nat) {
    WellFormed(g) && parents <= g.used && child in g.used
  }

  lemma {:induction false} LinkedSets(g: Graph, parents: set<nat>, child: nat, i: nat)
    requires i < |g.entries|
    ensures var h := Linked(g, parents, child); var pa := ParentAncestors(g, parents);
            && h.Rate(i) == g.Rate(i)
            && h.Anc(i) == (if i in g.Desc(child) then g.Anc(i) + pa else g.Anc(i))
            && h.Desc(i) == (if i in pa then g.Desc(i) + g.Desc(child) else g.Desc(i))
  {
  }

  lemma {:induction false} ParentAncestorsClosed(g: Graph, parents: set<nat>, a: nat, b: nat)
    requires WellFormed(g) && parents <= g.used && b in ParentAncestors(g, parents) && a in g.Anc(b)
    ensures a in ParentAncestors(g, parents) && a in g.used && b in g.used
  {
    var p :| p in parents && b in g.Anc(p);
    assert a in g.Anc(p);
  }

  lemma {:induction false} ParentAncestorsUsed(g: Graph, parents: set<nat>)
    requires WellFormed(g) && parents <= g.used
    ensures ParentAncestors(g, parents) <= g.used && parents <= ParentAncestors(g, parents)
  {
    forall p | p in parents ensures p in ParentAncestors(g, parents) { assert p in g.Anc(p); }
  }

  /** Linking keeps the ancestor relation reflexive, transitive and mirrored by the descendants,
      even when it closes a cycle. */
  lemma {:induction false} LinkedWellFormed(g: Graph, parents: set<nat>, child: nat)
    requires Linkable(g, parents, child)
    ensures WellFormed(Linked(g, parents, child))
  {
    var h, pa := Linked(g, parents, child), ParentAncestors(g, parents);
    ParentAncestorsUsed(g, parents);
    forall i | i in g.used
      ensures i < |h.entries| && h.Rate(i).size > 0 && i in h.Anc(i) && h.Anc(i) <= h.used && h.Desc(i) <= h.used
    {
      LinkedSets(g, parents, child, i);
    }
    forall i, j | i in g.used && j in g.used ensures j in h.Anc(i) <==> i in h.Desc(j) {
      LinkedSets(g, parents, child, i);
      LinkedSets(g, parents, child, j);
    }
    forall i, j, k | i in h.used && j in h.Anc(i) && k in h.Anc(j) ensures k in h.Anc(i) {
      LinkedTransitive(g, parents, child, i, j, k);
    }
  }

  lemma {:induction false} LinkedTransitive(g: Graph, parents: set<nat>, child: nat, i: nat, j: nat, k: nat)
    requires Linkable(g, parents, child)
    requires i in g.used && j in Linked(g, parents, child).Anc(i) && k in Linked(g, parents, child).Anc(j)
    ensures k in Linked(g, parents, child).Anc(i)
  {
    var pa := ParentAncestors(g, parents);
    ParentAncestorsUsed(g, parents);
    LinkedSets(g, parents, child, i);
    assert j in g.used;
    LinkedSets(g, parents, child, j);
    hide ParentAncestors, Linked;
    if j in g.Anc(i) {
      if k !in g.Anc(j) {
        assert j in g.Desc(child) && child in g.Anc(j) && child in g.Anc(i) && i in g.Desc(child);
      }
    } else {
      if k in g.Anc(j) { ParentAncestorsClosed(g, parents, k, j); }
    }
  }

  /** `h` is a transitively closed graph on the same transactions that contains the dependencies
      of `g` and makes `parents` ancestors of `child`. */
  ghost predicate ClosedExtension(g: Graph, parents: set<nat>, child: nat, h: Graph) {
    && WellFormed(h) && h.used == g.used && parents <= h.Anc(child)
    && forall i :: i in g.used ==> g.Anc(i) <= h.Anc(i)
  }

  /** Linking yields the least such graph. */
  lemma {:induction false} LinkedLeast(g: Graph, parents: set<nat>, child: nat)
    requires Linkable(g, parents, child)
    ensures ClosedExtension(g, parents, child, Linked(g, parents, child))
    ensures forall h, i :: ClosedExtension(g, parents, child, h) && i in g.used ==>
              Linked(g, parents, child).Anc(i) <= h.Anc(i)
  {
    hide *;
    var l := Linked(g, parents, child);
    LinkedExtends(g, parents, child);
    forall h, i | ClosedExtension(g, parents, child, h) && i in g.used ensures l.Anc(i) <= h.Anc(i) {
      LinkedWithin(g, parents, child, h, i);
    }
  }

  lemma {:induction false} LinkedExtends(g: Graph, parents: set<nat>, child: nat)
    requires Linkable(g, parents, child)
    ensures ClosedExtension(g, parents, child, Linked(g, parents, child))
  {
    var l := Linked(g, parents, child);
    LinkedWellFormed(g, parents, child);
    ParentAncestorsUsed(g, parents);
    LinkedSets(g, parents, child, child);
    hide ParentAncestors, Linked;
    assert child in g.Desc(child);
    forall i | i in g.used ensures g.Anc(i) <= l.Anc(i) { LinkedSets(g, parents, child, i); }
  }

  lemma {:induction false} LinkedWithin(g: Graph, parents: set<nat>, child: nat, h: Graph, i: nat)
    requires Linkable(g, parents, child) && ClosedExtension(g, parents, child, h) && i in g.used
    ensures Linked(g, parents, child).Anc(i) <= h.Anc(i)
  {
    LinkedSets(g, parents, child, i);
    hide Linked;
    forall a | a in ParentAncestors(g, parents) && i in g.Desc(child) ensures a in h.Anc(i) {
      var p :| p in parents && a in g.Anc(p);
      assert child in g.Anc(i) && child in h.Anc(i) && p in h.Anc(child) && a in h.Anc(p);
      assert p in h.Anc(i);
    }
  }

  /** `h` is `g` with position i renamed to m[i]. */
  ghost predicate Isomorphic(g: Graph, h: Graph, m: seq<nat>) {
    && Injective(g, m)
    && h.used == Image(g.used, m)
    && (forall i :: i in g.used ==> h.Rate(m[i]) == g.Rate(i))
    && (forall i, j :: i in g.used && j in g.used ==> (m[j] in h.Anc(m[i]) <==> j in g.Anc(i)))
  }

  ghost predicate Injective(g: Graph, m: seq<nat>) {
    && (forall i :: i in g.used ==> i < |m|)
    && (forall i, j :: i in g.used && j in g.used && i != j ==> m[i] != m[j])
  }

  function Image(s: set<nat>, m: seq<nat>): set<nat>
    requires forall i :: i in s ==> i < |m|
  {
    set i | i in s :: m[i]
  }

  class DepGraph {
    var entries: seq<Entry>
    var used: set<nat>
    /** The number of positions available, `SetType::Size()`. */
    const size: nat

    function View(): Graph
      reads this
    {
      Graph(entries, used)
    }

    /** All used positions are in range and the last position, if any, is used. */
    ghost predicate Valid()
      reads this
    {
      WellFormed(View()) && |entries| <= size && (entries != [] ==> |entries| - 1 in used)
    }

    constructor (size: nat)
      ensures Valid() && used == {} && this.size == size
    {
      this.size := size;
      entries, used := [], {};
    }

    /** `AddTransaction`: the new transaction gets the first free position and no dependencies. */
    method AddTransaction(feefrac: FeeFrac) returns (idx: nat)
      requires Valid() && feefrac.size > 0 && |used| < size
      modifies this
      ensures Valid() && idx !in old(used) && used == old(used) + {idx}
      ensures forall i :: 0 <= i < idx ==> i in old(used)
      ensures View().Rate(idx) == feefrac && View().Anc(idx) == {idx} == View().Desc(idx)
      ensures forall i :: i in old(used) ==> View().entries[i] == old(entries)[i]
    {
      hide WellFormed;
      ghost var g := View();
      UsedInRange(g);
      idx := FirstFree();
      var e := Entry(feefrac, {idx}, {idx});
      if idx == |entries| {
        entries := entries + [e];
      } else {
        entries := entries[idx := e];
      }
      used := used + {idx};
      AddedWellFormed(g, View(), idx, feefrac);
    }

    method FirstFree() returns (idx: nat)
      requires Valid() && |used| < size
      ensures idx !in used && idx <= |entries| && idx < size && forall i :: 0 <= i < idx ==> i in used
    {
      idx := 0;
      while idx in used
        invariant idx <= |entries| && forall i :: 0 <= i < idx ==> i in used
        decreases |entries| - idx
      {
        idx := idx + 1;
      }
      Interval(idx, used);
    }

    /** `RemoveTransactions`: dependencies between the remaining transactions are kept, including
        those that went through a removed one. */
    method RemoveTransactions(del: set<nat>)
      requires Valid()
      modifies this
      ensures Valid() && used == old(used) - del
      ensures forall i :: i in used ==> View().Rate(i) == old(View()).Rate(i)
      ensures forall i :: i in used ==> View().Anc(i) == old(View()).Anc(i) - del
      ensures forall i :: i in used ==> View().Desc(i) == old(View()).Desc(i) - del
    {
      ghost var g := View();
      used := used - del;
      while entries != [] && |entries| - 1 !in used
        invariant used == g.used - del && entries == g.entries[..|entries|] && |entries| <= |g.entries|
        invariant forall i :: i in used ==> i < |entries|
        decreases |entries|
      {
        entries := entries[..|entries| - 1];
      }
      ghost var kept := entries;
      var n := |entries|;
      for k := 0 to n
        invariant |entries| == n && used == g.used - del
        invariant forall i :: k <= i < n ==> entries[i] == kept[i]
        invariant forall i :: 0 <= i < k ==> entries[i] == Restricted(kept[i], used)
      {
        entries := entries[k := Restricted(entries[k], used)];
      }
      RemovedWellFormed(g, View(), del);
    }

    /** `AddDependencies`: make `parents` ancestors of `child`. */
    method AddDependencies(parents: set<nat>, child: nat)
      requires Valid() && parents <= used && child in used
      modifies this
      ensures Valid() && View() == Linked(old(View()), parents, child) && used == old(used)
        && |entries| == old(|entries|)
    {
      hide WellFormed, Linked, ParentAncestors;
      ghost var g := View();
      UsedInRange(g);
      LinkedWellFormed(g, parents, child);
      ParentAncestorsUsed(g, parents);
      var parAnc := NewAncestors(View(), parents, child);
      if parAnc == {} {
        SameGraph(g, parents, child);
        return;
      }
      var chlDes := View().Desc(child);
      var updated := AddToDescendants(entries, parAnc, chlDes);
      updated := AddToAncestors(updated, chlDes, parAnc);
      LinkedEntries(g, parents, child, parAnc, updated);
      LinkedUsed(g, parents, child);
      entries := updated;
    }

    /** The remapping constructor: an isomorphic copy with position i moved to mapping[i]. */
    constructor Remap(g: Graph, mapping: seq<nat>, posRange: nat)
      requires WellFormed(g) && Acyclic(g) && Injective(g, mapping)
      requires forall i :: i in g.used ==> mapping[i] < posRange
      requires if g.used == {} then posRange == 0 else exists i :: i in g.used && mapping[i] == posRange - 1
      ensures Valid() && Isomorphic(g, View(), mapping) && |View().entries| == posRange
    {
      hide WellFormed, Acyclic, Isomorphic, SoundCopy, Copied, Linked;
      var e := Placed(g, mapping, posRange);
      entries, used := e, Image(g.used, mapping);
      size := posRange;
      new;
      PlacedWellFormed(g, View(), mapping, posRange);
      var rest := g.used;
      while rest != {}
        invariant rest <= g.used && Valid() && |entries| == posRange && used == Image(g.used, mapping)
        invariant SoundCopy(g, View(), mapping)
        invariant forall i :: i in g.used && i !in rest ==> Copied(g, View(), mapping, i)
        decreases rest
      {
        var i := First(rest);
        rest := rest - {i};
        var parents := GetReducedParents(g, i);
        RemapStep(g, View(), mapping, i, parents);
        AddDependencies(Image(parents, mapping), mapping[i]);
      }
      RemapDone(g, View(), mapping);
    }
  }

  // ---------------------------------------------------------------- adding and removing

  lemma {:induction false} UsedInRange(g: Graph)
    requires WellFormed(g)
    ensures forall i :: i in g.used ==> i < |g.entries| && g.Desc(i) <= g.used
  {
  }

  lemma {:induction false} Interval(n: nat, s: set<nat>)
    requires forall i :: 0 <= i < n ==> i in s
    ensures n <= |s|
  {
    if n > 0 {
      Interval(n - 1, s - {n - 1});
    }
  }

  lemma {:induction false} AddedWellFormed(g: Graph, h: Graph, idx: nat, f: FeeFrac)
    requires WellFormed(g) && f.size > 0 && idx !in g.used && idx < |h.entries| && h.used == g.used + {idx}
    requires h.entries[idx] == Entry(f, {idx}, {idx})
    requires forall i :: i in g.used ==> i < |h.entries| && h.entries[i] == g.entries[i]
    ensures WellFormed(h)
  {
    forall i, j, k | i in h.used && j in h.Anc(i) && k in h.Anc(j) ensures k in h.Anc(i) {
      if i != idx { assert j in g.Anc(i) && j in g.used; }
    }
  }

  function Restricted(e: Entry, keep: set<nat>): Entry {
    Entry(e.feerate, e.ancestors * keep, e.descendants * keep)
  }

  lemma {:induction false} RemovedWellFormed(g: Graph, h: Graph, del: set<nat>)
    requires WellFormed(g) && h.used == g.used - del
    requires forall i :: i in h.used ==> i < |h.entries| && h.entries[i] == Restricted(g.entries[i], h.used)
    ensures WellFormed(h)
    ensures forall i :: i in h.used ==> h.Anc(i) == g.Anc(i) - del && h.Desc(i) == g.Desc(i) - del
  {
    forall i | i in h.used ensures h.Anc(i) == g.Anc(i) - del && h.Desc(i) == g.Desc(i) - del {
      assert g.Anc(i) <= g.used && g.Desc(i) <= g.used;
    }
  }

  // ---------------------------------------------------------------- AddDependencies

  lemma {:induction false} OneMoreParent(g: Graph, done: set<nat>, par: nat)
    ensures ParentAncestors(g, done + {par}) == ParentAncestors(g, done) + g.Anc(par)
  {
  }

  /** The ancestors computed by the loop are those the child did not have yet. */
  lemma {:induction false} MissingAncestors(g: Graph, parents: set<nat>, child: nat, parAnc: set<nat>)
    requires Linkable(g, parents, child)
    requires parAnc == ParentAncestors(g, parents - g.Anc(child)) - g.Anc(child)
    ensures parAnc == ParentAncestors(g, parents) - g.Anc(child)
  {
    forall a | a in ParentAncestors(g, parents) && a !in g.Anc(child) ensures a in parAnc {
      var p :| p in parents && a in g.Anc(p);
      assert p !in g.Anc(child);
    }
  }

  lemma {:induction false} LinkedUsed(g: Graph, parents: set<nat>, child: nat)
    ensures Linked(g, parents, child).used == g.used && |Linked(g, parents, child).entries| == |g.entries|
  {
  }

  /** The ancestors of `parents` that are not yet ancestors of `child`. */
  method NewAncestors(g: Graph, parents: set<nat>, child: nat) returns (parAnc: set<nat>)
    requires Linkable(g, parents, child)
    ensures parAnc == ParentAncestors(g, parents) - g.Anc(child)
  {
    ghost var all := parents - g.Anc(child);
    parAnc := {};
    var rest := parents - g.Anc(child);
    NoParents(g);
    assert all - rest == {};
    hide WellFormed, ParentAncestors;
    while rest != {}
      invariant rest <= all && parAnc == ParentAncestors(g, all - rest)
      decreases rest
    {
      var par := First(rest);
      OneMoreParent(g, all - rest, par);
      assert all - (rest - {par}) == (all - rest) + {par};
      parAnc := parAnc + g.Anc(par);
      rest := rest - {par};
    }
    assert all - rest == all;
    parAnc := parAnc - g.Anc(child);
    MissingAncestors(g, parents, child, parAnc);
  }

  lemma {:induction false} NoParents(g: Graph)
    ensures ParentAncestors(g, {}) == {}
  {
  }

  method AddToDescendants(entries0: seq<Entry>, which: set<nat>, desc: set<nat>) returns (entries: seq<Entry>)
    requires forall a :: a in which ==> a < |entries0|
    ensures |entries| == |entries0|
    ensures forall i :: 0 <= i < |entries| ==> entries[i] == LinkedEntry(entries0[i], false, {}, i in which, desc)
  {
    entries := entries0;
    var rest := which;
    while rest != {}
      invariant rest <= which && |entries| == |entries0|
      invariant forall i :: 0 <= i < |entries| ==>
        entries[i] == LinkedEntry(entries0[i], false, {}, i in which && i !in rest, desc)
      decreases rest
    {
      var a := First(rest);
      entries := entries[a := entries[a].(descendants := entries[a].descendants + desc)];
      rest := rest - {a};
    }
  }

  method AddToAncestors(entries0: seq<Entry>, which: set<nat>, anc: set<nat>) returns (entries: seq<Entry>)
    requires forall d :: d in which ==> d < |entries0|
    ensures |entries| == |entries0|
    ensures forall i :: 0 <= i < |entries| ==> entries[i] == LinkedEntry(entries0[i], i in which, anc, false, {})
  {
    entries := entries0;
    var rest := which;
    while rest != {}
      invariant rest <= which && |entries| == |entries0|
      invariant forall i :: 0 <= i < |entries| ==>
        entries[i] == LinkedEntry(entries0[i], i in which && i !in rest, anc, false, {})
      decreases rest
    {
      var d := First(rest);
      entries := entries[d := entries[d].(ancestors := entries[d].ancestors + anc)];
      rest := rest - {d};
    }
  }

  /** Adding only the missing ancestors has the same effect as adding all of them. */
  lemma {:induction false} MissingSuffice(g: Graph, parents: set<nat>, child: nat, i: nat)
    requires Linkable(g, parents, child) && i in g.used
    ensures var pa := ParentAncestors(g, parents); var chl := g.Desc(child);
            && (i in chl ==> g.Anc(i) + pa == g.Anc(i) + (pa - g.Anc(child)))
            && (i in pa && i in g.Anc(child) ==> g.Desc(i) + chl == g.Desc(i))
  {
    var pa := ParentAncestors(g, parents);
    hide ParentAncestors;
    if i in g.Desc(child) {
      assert child in g.Anc(i);
      assert g.Anc(child) <= g.Anc(i);
    }
    if i in g.Anc(child) {
      forall d | d in g.Desc(child) ensures d in g.Desc(i) { assert child in g.Anc(d); }
    }
  }

  lemma {:induction false} LinkedEntries(g: Graph, parents: set<nat>, child: nat, parAnc: set<nat>, entries: seq<Entry>)
    requires Linkable(g, parents, child) && parAnc == ParentAncestors(g, parents) - g.Anc(child)
    requires |entries| == |g.entries|
    requires forall i :: 0 <= i < |entries| ==>
               entries[i] == LinkedEntry(g.entries[i], i in g.Desc(child), parAnc, i in parAnc, g.Desc(child))
    ensures entries == Linked(g, parents, child).entries
  {
    ParentAncestorsUsed(g, parents);
    var l := Linked(g, parents, child).entries;
    forall i | 0 <= i < |entries| ensures entries[i] == l[i] {
      if i in g.used {
        MissingSuffice(g, parents, child, i);
      } else {
        assert i !in g.Desc(child) && i !in ParentAncestors(g, parents);
      }
    }
  }

  lemma {:induction false} SameGraph(g: Graph, parents: set<nat>, child: nat)
    requires Linkable(g, parents, child) && ParentAncestors(g, parents) - g.Anc(child) == {}
    ensures Linked(g, parents, child) == g
  {
    forall i | 0 <= i < |g.entries|
      ensures g.entries[i] == LinkedEntry(g.entries[i], i in g.Desc(child), {}, i in {}, g.Desc(child))
    {
    }
    LinkedEntries(g, parents, child, {}, g.entries);
  }

  // ---------------------------------------------------------------- the remapping constructor

  /** Unconnected copies of all transactions at their new positions. */
  method Placed(g: Graph, m: seq<nat>, posRange: nat) returns (entries: seq<Entry>)
    requires Injective(g, m) && forall i :: i in g.used ==> m[i] < posRange
    ensures |entries| == posRange
    ensures forall i :: i in g.used ==> entries[m[i]] == Entry(g.Rate(i), {m[i]}, {m[i]})
  {
    entries := seq(posRange, k => Entry(EMPTY, {}, {}));
    var rest := g.used;
    while rest != {}
      invariant rest <= g.used && |entries| == posRange
      invariant forall i :: i in g.used && i !in rest ==> entries[m[i]] == Entry(g.Rate(i), {m[i]}, {m[i]})
      decreases rest
    {
      var i := First(rest);
      entries := entries[m[i] := Entry(g.Rate(i), {m[i]}, {m[i]})];
      rest := rest - {i};
    }
  }

  /** The copy has the right transactions and no dependency the original does not have. */
  ghost predicate SoundCopy(g: Graph, h: Graph, m: seq<nat>) {
    && Injective(g, m) && h.used == Image(g.used, m)
    && (forall i :: i in g.used ==> h.Rate(m[i]) == g.Rate(i))
    && (forall i, j :: i in g.used && j in g.used && m[j] in h.Anc(m[i]) ==> j in g.Anc(i))
  }

  /** The ancestor `x` of `i` is an ancestor of some `p` already linked to `i` in the copy. */
  ghost predicate ParentLink(g: Graph, h: Graph, m: seq<nat>, i: nat, x: nat)
    requires Injective(g, m)
  {
    exists p :: p in g.used && p in g.Anc(i) && p != i && x in g.Anc(p) && i in g.used && m[p] in h.Anc(m[i])
  }

  ghost predicate Copied(g: Graph, h: Graph, m: seq<nat>, i: nat)
    requires Injective(g, m)
  {
    forall x {:trigger ParentLink(g, h, m, i, x)} :: x in g.Anc(i) && x != i ==> ParentLink(g, h, m, i, x)
  }

  lemma {:induction false} PlacedWellFormed(g: Graph, h: Graph, m: seq<nat>, posRange: nat)
    requires WellFormed(g) && Injective(g, m) && h.used == Image(g.used, m) && |h.entries| == posRange
    requires forall i :: i in g.used ==> m[i] < posRange && h.entries[m[i]] == Entry(g.Rate(i), {m[i]}, {m[i]})
    requires if g.used == {} then posRange == 0 else exists i :: i in g.used && m[i] == posRange - 1
    ensures WellFormed(h) && SoundCopy(g, h, m) && (h.entries != [] ==> |h.entries| - 1 in h.used)
  {
    forall a | a in h.used ensures a < |h.entries| && h.Anc(a) == {a} == h.Desc(a) && h.Rate(a).size > 0 {
      var i :| i in g.used && m[i] == a;
    }
    forall i | i in g.used ensures m[i] in h.used { }
  }

  lemma {:induction false} RemapStep(g: Graph, h: Graph, m: seq<nat>, i: nat, parents: set<nat>)
    requires WellFormed(g) && WellFormed(h) && SoundCopy(g, h, m) && i in g.used && parents <= g.Anc(i) - {i}
    requires forall x {:trigger Covered(g, parents, x)} :: x in g.Anc(i) && x != i ==> Covered(g, parents, x)
    ensures m[i] in h.used && parents <= g.used && Image(parents, m) <= h.used
    ensures var h' := Linked(h, Image(parents, m), m[i]);
            && SoundCopy(g, h', m) && Copied(g, h', m, i)
            && forall j :: j in g.used && Copied(g, h, m, j) ==> Copied(g, h', m, j)
  {
    var ps, c := Image(parents, m), m[i];
    var h' := Linked(h, ps, c);
    assert c in h.used && parents <= g.used;
    forall a | a in ps ensures a in h.used { }
    LinkedLeast(h, ps, c);
    RemapSound(g, h, m, i, parents);
    hide Linked, SoundCopy;
    forall x | x in g.Anc(i) && x != i ensures ParentLink(g, h', m, i, x) {
      assert Covered(g, parents, x);
      var p :| p in parents && x in g.Anc(p);
      assert m[p] in ps;
    }
    forall j | j in g.used && Copied(g, h, m, j) ensures Copied(g, h', m, j) {
      forall x | x in g.Anc(j) && x != j ensures ParentLink(g, h', m, j, x) {
        assert ParentLink(g, h, m, j, x);
        var p :| p in g.used && p in g.Anc(j) && p != j && x in g.Anc(p) && m[p] in h.Anc(m[j]);
        assert m[j] in h.used by { ImageHas(g, h, m, j); }
        assert m[p] in h'.Anc(m[j]);
      }
    }
  }

  lemma {:induction false} ImageHas(g: Graph, h: Graph, m: seq<nat>, j: nat)
    requires SoundCopy(g, h, m) && j in g.used
    ensures m[j] in h.used
  {
  }

  lemma {:induction false} RemapSound(g: Graph, h: Graph, m: seq<nat>, i: nat, parents: set<nat>)
    requires WellFormed(g) && WellFormed(h) && SoundCopy(g, h, m) && i in g.used && parents <= g.Anc(i)
    ensures SoundCopy(g, Linked(h, Image(parents, m), m[i]), m)
  {
    var ps, c := Image(parents, m), m[i];
    var h' := Linked(h, ps, c);
    forall a, b | a in g.used && b in g.used && m[b] in h'.Anc(m[a]) ensures b in g.Anc(a) {
      assert m[a] in h.used;
      LinkedSets(h, ps, c, m[a]);
      if m[b] !in h.Anc(m[a]) {
        var p :| p in ps && m[b] in h.Anc(p);
        var q :| q in parents && m[q] == p;
        assert c in h.Anc(m[a]);
        assert b in g.Anc(q) && q in g.Anc(i) && i in g.Anc(a);
      }
    }
    forall k | k in g.used ensures h'.Rate(m[k]) == g.Rate(k) {
      assert m[k] in h.used;
      LinkedSets(h, ps, c, m[k]);
    }
  }

  lemma {:induction false} RemapComplete(g: Graph, h: Graph, m: seq<nat>, i: nat, x: nat)
    requires WellFormed(g) && Acyclic(g) && WellFormed(h) && SoundCopy(g, h, m)
    requires forall j :: j in g.used ==> Copied(g, h, m, j)
    requires i in g.used && x in g.Anc(i)
    ensures m[x] in h.Anc(m[i])
    decreases |g.Anc(i)|
  {
    ImageHas(g, h, m, i);
    if x != i {
      assert ParentLink(g, h, m, i, x);
      var p :| p in g.used && p in g.Anc(i) && p != i && x in g.Anc(p) && m[p] in h.Anc(m[i]);
      AncestorCount(g, i, p);
      RemapComplete(g, h, m, p, x);
    }
  }

  lemma {:induction false} RemapDone(g: Graph, h: Graph, m: seq<nat>)
    requires WellFormed(g) && Acyclic(g) && WellFormed(h) && SoundCopy(g, h, m)
    requires forall j :: j in g.used ==> Copied(g, h, m, j)
    ensures Isomorphic(g, h, m)
  {
    forall i, j | i in g.used && j in g.used ensures m[j] in h.Anc(m[i]) <==> j in g.Anc(i) {
      if j in g.Anc(i) { RemapComplete(g, h, m, i, j); }
    }
  }
}
