/** The block index: ancestor lookup through skip pointers, and the active chain. */
module Chain {
  import opened Powers

  // ---------------------------------------------------------------- skip heights

  /** Clear the lowest set bit: n & (n - 1). */
  function InvertLowestOne(n: nat): (r: nat)
    ensures n > 0 ==> r < n
  {
    if n == 0 then 0 else if n % 2 == 1 then n - 1 else 2 * InvertLowestOne(n / 2)
  }

  /** It takes away the largest power of two that divides the number. */
  lemma {:induction false} InvertLaw(n: nat) returns (k: nat, m: nat)
    requires n > 0
    ensures n == (2 * m + 1) * Pow2(k) && InvertLowestOne(n) == 2 * m * Pow2(k)
  {
    if n % 2 == 1 {
      k, m := 0, n / 2;
      assert Pow2(0) == 1;
    } else {
      k, m := InvertLaw(n / 2);
      assert Pow2(k + 1) == 2 * Pow2(k);
      DoubleBoth(2 * m + 1, Pow2(k));
      DoubleBoth(2 * m, Pow2(k));
      k := k + 1;
    }
  }

  lemma {:induction false} DoubleBoth(a: nat, b: nat)
    ensures a * (2 * b) == 2 * (a * b)
  {
  }

  function GetSkipHeight(height: nat): (r: nat)
    ensures height > 0 ==> r < height
  {
    if height < 2 then 0
    else if height % 2 == 1 then InvertLowestOne(InvertLowestOne(height - 1)) + 1
    else InvertLowestOne(height)
  }

  // ---------------------------------------------------------------- the tree of blocks

  class CBlockIndex {
    const pprev: CBlockIndex?
    const nHeight: nat
    const hash: nat
    var pskip: CBlockIndex?

    /** This block and all below it. */
    ghost const line: set<CBlockIndex>

    constructor (prev: CBlockIndex?, h: nat)
      requires prev != null ==> prev.Linked()
      ensures Linked() && pprev == prev && hash == h && pskip == null
      ensures nHeight == if prev == null then 0 else prev.nHeight + 1
    {
      pprev, nHeight, hash, pskip := prev, if prev == null then 0 else prev.nHeight + 1, h, null;
      line := {this} + if prev == null then {} else prev.line;
    }

    /** Heights count the links down to the first block. */
    ghost predicate Linked()
      decreases nHeight
    {
      if pprev == null then nHeight == 0 && line == {this}
      else nHeight == pprev.nHeight + 1 && line == {this} + pprev.line && pprev.Linked()
    }

    /** `BuildSkip`: point back to the ancestor at the skip height. */
    method BuildSkip()
      requires Linked() && if pprev != null then SkipsOk(pprev) else pskip == null
      modifies this`pskip
      ensures SkipsOk(this) && (pprev != null ==> pskip != null)
    {
      LineBelow(this);
      if pprev != null {
        assert forall x :: x in pprev.line ==> SkipOk(x) && x != this;
        pskip := pprev.GetAncestor(GetSkipHeight(nHeight));
        assert forall x :: x in pprev.line ==> SkipOk(x);
        assert SkipOk(this);
      }
    }

    /** `GetAncestor`: skip pointers only shorten the walk. */
    method GetAncestor(height: int) returns (r: CBlockIndex?)
      requires Linked() && SkipsOk(this)
      ensures r == if 0 <= height <= nHeight then Ancestor(this, height) else null
    {
      if height > nHeight || height < 0 { return null; }
      var walk: CBlockIndex, heightWalk := this, nHeight;
      while heightWalk > height
        invariant walk.Linked() && SkipsOk(walk) && heightWalk == walk.nHeight >= height
        invariant Ancestor(walk, height) == Ancestor(this, height)
      {
        assert walk in Line(walk) && SkipOk(walk);
        var heightSkip := GetSkipHeight(heightWalk);
        var heightSkipPrev := GetSkipHeight(heightWalk - 1);
        if walk.pskip != null &&
           (heightSkip == height || (heightSkip > height
             && !(heightSkipPrev < heightSkip - 2 && heightSkipPrev >= height)))
        {
          AncestorTrans(walk, heightSkip, height);
          SkipsBelow(walk, heightSkip);
          walk := walk.pskip;
          heightWalk := heightSkip;
        } else {
          walk := walk.pprev;
          heightWalk := heightWalk - 1;
        }
      }
      r := walk;
    }
  }

  /** Walking `pprev` down to a height. */
  ghost function Ancestor(b: CBlockIndex, h: nat): (r: CBlockIndex)
    requires b.Linked() && h <= b.nHeight
    ensures r.Linked() && r.nHeight == h
    decreases b.nHeight
  {
    if b.nHeight == h then b else Ancestor(b.pprev, h)
  }

  ghost function Line(b: CBlockIndex): set<CBlockIndex> { b.line }

  /** A skip pointer, if set, leads to the ancestor at the skip height. */
  ghost predicate SkipOk(b: CBlockIndex)
    reads b
  {
    b.Linked() && (b.pskip == null || b.pskip == Ancestor(b, GetSkipHeight(b.nHeight)))
  }

  ghost predicate SkipsOk(b: CBlockIndex)
    requires b.Linked()
    reads Line(b)
  {
    forall x :: x in Line(b) ==> SkipOk(x)
  }

  lemma {:induction false} AncestorTrans(b: CBlockIndex, h: nat, k: nat)
    requires b.Linked() && k <= h <= b.nHeight
    ensures Ancestor(Ancestor(b, h), k) == Ancestor(b, k)
    decreases b.nHeight
  {
    if b.nHeight != h { AncestorTrans(b.pprev, h, k); }
  }

  lemma {:induction false} SkipsBelow(b: CBlockIndex, h: nat)
    requires b.Linked() && SkipsOk(b) && h <= b.nHeight
    ensures SkipsOk(Ancestor(b, h))
  {
    LineCut(b, h);
  }

  /** The blocks below `b` all have smaller heights, so `b` is none of them. */
  lemma {:induction false} LineBelow(b: CBlockIndex)
    requires b.Linked()
    ensures forall x :: x in Line(b) ==> x.nHeight <= b.nHeight
    ensures b.pprev != null ==> b !in Line(b.pprev)
    decreases b.nHeight
  {
    if b.pprev != null { LineBelow(b.pprev); }
  }

  lemma {:induction false} AncestorInLine(b: CBlockIndex, x: CBlockIndex)
    requires b.Linked()
    ensures x in Line(b) <==> x.nHeight <= b.nHeight && Ancestor(b, x.nHeight) == x
    decreases b.nHeight
  {
    LineBelow(b);
    if b.pprev != null { AncestorInLine(b.pprev, x); }
  }

  lemma {:induction false} LineLinked(b: CBlockIndex, x: CBlockIndex)
    requires b.Linked() && x in Line(b)
    ensures x.Linked() && Line(x) <= Line(b)
    decreases b.nHeight
  {
    if x != b { LineLinked(b.pprev, x); }
  }

  // ---------------------------------------------------------------- common ancestors

  /** `r` is the highest block from which both lines descend; none if the lines are disjoint. */
  ghost predicate HighestIn(r: CBlockIndex?, line: set<CBlockIndex>) {
    if r == null then line == {} else r in line && forall x :: x in line ==> x.nHeight <= r.nHeight
  }

  /** `LastCommonAncestor`: level the heights, then walk both lines down in step. */
  method LastCommonAncestor(a: CBlockIndex, b: CBlockIndex) returns (r: CBlockIndex?)
    requires a.Linked() && b.Linked() && SkipsOk(a) && SkipsOk(b)
    ensures HighestIn(r, Line(a) * Line(b))
  {
    var pa: CBlockIndex?, pb: CBlockIndex? := a, b;
    if a.nHeight > b.nHeight {
      pa := a.GetAncestor(b.nHeight);
      Level(a, b);
      assert Line(a) * Line(b) == Line(pa) * Line(pb);
    } else if b.nHeight > a.nHeight {
      pb := b.GetAncestor(a.nHeight);
      Level(b, a);
      assert Line(a) * Line(b) == Line(b) * Line(a) == Line(pb) * Line(pa) == Line(pa) * Line(pb);
    }
    while pa != pb && pa != null && pb != null
      invariant (pa == null) == (pb == null)
      invariant pa != null && pb != null ==>
        pa.Linked() && pb.Linked() && pa.nHeight == pb.nHeight && Line(a) * Line(b) == Line(pa) * Line(pb)
      invariant pa == null ==> Line(a) * Line(b) == {}
      decreases if pa == null then 0 else pa.nHeight + 1
    {
      StepDown(pa, pb);
      pa, pb := pa.pprev, pb.pprev;
    }
    if pa != null { LineBelow(pa); }
    r := pa;
  }

  lemma {:induction false} Level(a: CBlockIndex, b: CBlockIndex)
    requires a.Linked() && b.Linked() && a.nHeight >= b.nHeight
    ensures Line(a) * Line(b) == Line(Ancestor(a, b.nHeight)) * Line(b)
  {
    LineBelow(b);
    LineCut(a, b.nHeight);
    var c := Ancestor(a, b.nHeight);
    forall x | x in Line(b) ensures x in Line(a) <==> x in Line(c) {}
  }

  /** Different blocks at one height share what their parents share. */
  lemma {:induction false} StepDown(a: CBlockIndex, b: CBlockIndex)
    requires a.Linked() && b.Linked() && a.nHeight == b.nHeight && a != b
    ensures if a.pprev == null || b.pprev == null then a.pprev == b.pprev && Line(a) * Line(b) == {}
            else Line(a) * Line(b) == Line(a.pprev) * Line(b.pprev)
  {
    LineBelow(a); LineBelow(b);
    if a.pprev != null { LineBelow(a.pprev); LineBelow(b.pprev); }
  }

  /** Below a height, a line is the line of the ancestor there. */
  lemma {:induction false} LineCut(b: CBlockIndex, h: nat)
    requires b.Linked() && h <= b.nHeight
    ensures forall x :: x in Line(Ancestor(b, h)) ==> x in Line(b)
    ensures forall x :: x in Line(b) && x.nHeight <= h ==> x in Line(Ancestor(b, h))
    decreases b.nHeight
  {
    LineBelow(b);
    if b.nHeight != h { LineCut(b.pprev, h); }
  }

  // ---------------------------------------------------------------- the active chain

  class CChain {
    var vChain: seq<CBlockIndex?>

    /** The vector holds the line of its last block, each at its height. */
    ghost predicate Valid()
      reads this
    {
      forall i :: 0 <= i < |vChain| ==> Holds(vChain, i)
    }

    function At(height: int): CBlockIndex?
      reads this
    {
      if height < 0 || height >= |vChain| then null else vChain[height]
    }

    predicate Contains(b: CBlockIndex)
      reads this
    {
      At(b.nHeight) == b
    }

    /** `SetTip`: the walk stops at the first block already in place, and the rest is right. */
    method SetTip(block: CBlockIndex)
      requires Valid() && block.Linked()
      modifies this
      ensures Valid() && |vChain| == block.nHeight + 1
      ensures forall i :: 0 <= i <= block.nHeight ==> vChain[i] == Ancestor(block, i)
    {
      ghost var was := vChain;
      var n := block.nHeight + 1;
      vChain := if n <= |vChain| then vChain[..n] else vChain + seq(n - |vChain|, _ => null);
      var index: CBlockIndex? := block;
      while index != null && vChain[index.nHeight] != index
        invariant |vChain| == n && (index != null ==>
          index.Linked() && index.nHeight < n && Ancestor(block, index.nHeight) == index)
        invariant forall i :: (if index == null then -1 else index.nHeight) < i < n ==> vChain[i] == Ancestor(block, i)
        invariant forall i :: 0 <= i <= (if index == null then -1 else index.nHeight) ==>
          vChain[i] == if i < |was| then was[i] else null
        decreases if index == null then 0 else index.nHeight + 1
      {
        vChain := vChain[index.nHeight := index];
        if index.pprev != null { AncestorTrans(block, index.nHeight, index.nHeight - 1); }
        index := index.pprev;
      }
      if index != null {
        forall i | 0 <= i <= index.nHeight ensures vChain[i] == Ancestor(block, i) {
          StoredBelow(was, index.nHeight, i);
          AncestorTrans(block, index.nHeight, i);
        }
      }
      forall i | 0 < i < n ensures vChain[i].pprev == vChain[i - 1] { AncestorTrans(block, i, i - 1); }
    }

    /** The blocks of the chain. */
    ghost function Blocks(): set<CBlockIndex>
      reads this
    {
      set b: CBlockIndex | b in vChain
    }

    /** `FindFork`: the highest block of the chain on the line of `index`. */
    method FindFork(index: CBlockIndex?) returns (r: CBlockIndex?)
      requires Valid() && (index != null ==> index.Linked() && SkipsOk(index))
      ensures index == null ==> r == null
      ensures index != null ==> HighestIn(r, Line(index) * Blocks())
    {
      if index == null { return null; }
      var walk: CBlockIndex? := index;
      ghost var common := Line(index) * Blocks();
      InChain(this);
      if index.nHeight > |vChain| - 1 {
        walk := index.GetAncestor(|vChain| - 1);
        if walk != null { LineCut(index, |vChain| - 1); }
      }
      assert walk == null ==> common == {} by {
        if walk == null { assert vChain == []; }
      }
      while walk != null && !Contains(walk)
        invariant walk != null ==> walk.Linked() && walk.nHeight < |vChain| && common == Line(walk) * Blocks()
        invariant walk == null ==> common == {}
        decreases if walk == null then 0 else walk.nHeight + 1
      {
        walk := walk.pprev;
      }
      if walk != null { LineBelow(walk); }
      r := walk;
    }
  }

  lemma {:induction false} InChain(c: CChain)
    requires c.Valid()
    ensures forall b :: b in c.Blocks() <==> c.Contains(b)
    ensures forall b :: b in c.Blocks() ==> b.nHeight < |c.vChain|
  {
    forall b | b in c.Blocks() ensures c.Contains(b) && b.nHeight < |c.vChain| {
      var i :| 0 <= i < |c.vChain| && c.vChain[i] == b;
      assert Holds(c.vChain, i);
    }
  }

  /** Position `i` of the vector is the block at height `i`, on top of position `i - 1`. */
  ghost predicate Holds(v: seq<CBlockIndex?>, i: int)
    requires 0 <= i < |v|
  {
    && v[i] != null && v[i].Linked() && v[i].nHeight == i
    && (i > 0 ==> v[i].pprev == v[i - 1])
  }

  lemma {:induction false} StoredBelow(v: seq<CBlockIndex?>, h: nat, i: nat)
    requires forall k :: 0 <= k < |v| ==> Holds(v, k)
    requires i <= h < |v|
    ensures v[h] != null && v[h].Linked() && v[h].nHeight == h && v[i] == Ancestor(v[h], i)
    decreases h - i
  {
    assert Holds(v, h) && Holds(v, i);
    if i < h {
      assert Holds(v, i + 1);
      StoredBelow(v, h, i + 1);
      AncestorTrans(v[h], i + 1, i);
    }
  }

  // ---------------------------------------------------------------- locators

  function BitLength(n: nat): nat { if n == 0 then 0 else 1 + BitLength(n / 2) }

  lemma {:induction false} BitLengthBound(n: nat)
    ensures n < Pow2(BitLength(n))
  {
    if n > 0 { BitLengthBound(n / 2); }
  }

  /** The heights the locator visits: with `n` entries taken, the next height below `h`. */
  ghost function LocatorHeight(h: nat, n: nat): int {
    if n <= 10 then h - n else h - 9 - Pow2(n - 10)
  }

  /** The height of an entry: eleven consecutive ones, then steps that double, and never below 0. */
  ghost function LocatorEntryHeight(h: nat, n: nat): nat { if LocatorHeight(h, n) > 0 then LocatorHeight(h, n) else 0 }

  /** Where the loop of `LocatorEntries` stands with `n` entries taken. */
  ghost predicate LocatorAt(top: nat, n: nat, height: nat, step: nat) {
    && step == (if n <= 10 then 1 else Pow2(n - 10))
    && height == (if LocatorHeight(top, n) > 0 then LocatorHeight(top, n) else 0)
    && n <= top && (n > 10 ==> n <= 10 + BitLength(top))
  }

  lemma {:induction false} LocatorStep(top: nat, n: nat, height: nat, step: nat)
    requires LocatorAt(top, n, height, step) && height > 0
    ensures LocatorAt(top, n + 1, if height - step > 0 then height - step else 0, if n + 1 > 10 then step * 2 else step)
  {
    if n + 1 > 10 { LocatorBound(top, n + 1); }
  }

  /** While the height before the last step was positive, its power of two is below the height. */
  lemma {:induction false} LocatorBound(top: nat, n: nat)
    requires n > 10 && LocatorHeight(top, n - 1) > 0
    ensures n <= 10 + BitLength(top) && n <= top
  {
    BitLengthBound(top);
    if n > 11 { Pow2Monotone(n - 11, BitLength(top)); }
  }

  /** The hashes of blocks on the line of `index`, from it downwards. */
  ghost predicate Entries(index: CBlockIndex, have: seq<nat>, at: seq<CBlockIndex>) {
    && |have| == |at| && (|at| > 0 ==> at[0] == index)
    && (forall i :: 0 <= i < |at| ==> have[i] == at[i].hash && at[i] in Line(index))
    && (forall i :: 0 < i < |at| ==> at[i].nHeight < at[i - 1].nHeight)
  }

  /** `LocatorEntries`: from the block down to the first one, in strictly descending heights and at
      most 11 entries more than the height has bits. */
  method LocatorEntries(index: CBlockIndex?) returns (have: seq<nat>, ghost at: seq<CBlockIndex>)
    requires index != null ==> index.Linked() && SkipsOk(index)
    ensures index == null ==> have == []
    ensures index != null ==> Entries(index, have, at) && |at| > 0 && at[|at| - 1].nHeight == 0
    ensures index != null ==> forall i :: 0 <= i < |at| ==> at[i].nHeight == LocatorEntryHeight(index.nHeight, i)
    ensures index != null ==> |have| <= if index.nHeight <= 10 then index.nHeight + 1 else 11 + BitLength(index.nHeight)
  {
    hide Pow2, BitLength, LocatorAt, LocatorEntryHeight, SkipsOk, Entries, LocatorHeights;
    have, at := [], [];
    if index == null { return; }
    var step: nat, walk: CBlockIndex := 1, index;
    ghost var top := index.nHeight;
    LocatorStart(top);
    AncestorInLine(index, index);
    NoEntries(index, top);
    while true
      invariant Entries(index, have, at) && (if at == [] then walk == index else walk.nHeight < at[|at| - 1].nHeight)
      invariant SkipsOk(index) && walk.Linked() && walk.nHeight <= top && Ancestor(index, walk.nHeight) == walk
      invariant |have| == |at| && LocatorAt(top, |have|, walk.nHeight, step) && LocatorHeights(top, at)
      decreases walk.nHeight
    {
      AncestorInLine(index, walk);
      LocatorNow(top, |have|, walk.nHeight, step);
      MoreEntries(index, top, have, at, walk);
      have, at := have + [walk.hash], at + [walk];
      if walk.nHeight == 0 { break; }
      LocatorStep(top, |have| - 1, walk.nHeight, step);
      var height := if walk.nHeight - step > 0 then walk.nHeight - step else 0;
      SkipsBelow(index, walk.nHeight);
      AncestorTrans(index, walk.nHeight, height);
      walk := walk.GetAncestor(height);
      if |have| > 10 { step := step * 2; }
    }
    HeightsAre(top, at);
  }

  ghost predicate LocatorHeights(top: nat, at: seq<CBlockIndex>) {
    forall i :: 0 <= i < |at| ==> at[i].nHeight == LocatorEntryHeight(top, i)
  }

  lemma {:induction false} HeightsAre(top: nat, at: seq<CBlockIndex>)
    requires LocatorHeights(top, at)
    ensures forall i :: 0 <= i < |at| ==> at[i].nHeight == LocatorEntryHeight(top, i)
  {
    hide LocatorEntryHeight;
  }

  lemma {:induction false} NoEntries(index: CBlockIndex, top: nat)
    ensures Entries(index, [], []) && LocatorHeights(top, [])
  {
  }

  lemma {:induction false} MoreEntries(index: CBlockIndex, top: nat, have: seq<nat>, at: seq<CBlockIndex>,
                                       walk: CBlockIndex)
    requires Entries(index, have, at) && LocatorHeights(top, at) && walk in Line(index)
    requires if at == [] then walk == index else walk.nHeight < at[|at| - 1].nHeight
    requires walk.nHeight == LocatorEntryHeight(top, |at|)
    ensures Entries(index, have + [walk.hash], at + [walk]) && LocatorHeights(top, at + [walk])
  {
    hide LocatorEntryHeight, Line;
  }

  lemma {:induction false} LocatorStart(top: nat)
    ensures LocatorAt(top, 0, top, 1)
  {
  }

  lemma {:induction false} LocatorNow(top: nat, n: nat, height: nat, step: nat)
    requires LocatorAt(top, n, height, step)
    ensures height == LocatorEntryHeight(top, n)
    ensures step > 0 && n + 1 <= if top <= 10 then top + 1 else 11 + BitLength(top)
  {
    if top > 10 { assert BitLength(top) > 0; }
  }
}
