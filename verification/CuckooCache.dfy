/** A cache with eight candidate slots per element, lazy deletion and two generations. */
module CuckooCache {

  const UINT32: nat := 0x1_0000_0000

  /** One slot: the element, whether it may be overwritten, and whether it belongs to the living epoch. */
  datatype Slot = Slot(elem: nat, collected: bool, living: bool)

  // ---------------------------------------------------------------- counting slots

  function IsLiving(s: Slot): nat { if !s.collected && s.living then 1 else 0 }

  function IsOld(s: Slot): nat { if !s.collected && !s.living then 1 else 0 }

  function Content(s: Slot): multiset<nat> { if s.collected then multiset{} else multiset{s.elem} }

  /** The kept entries of the living epoch, those of the old one, and the kept elements. */
  function Living(t: seq<Slot>): nat { if t == [] then 0 else IsLiving(t[0]) + Living(t[1..]) }

  function Old(t: seq<Slot>): nat { if t == [] then 0 else IsOld(t[0]) + Old(t[1..]) }

  function Kept(t: seq<Slot>): multiset<nat> { if t == [] then multiset{} else Content(t[0]) + Kept(t[1..]) }

  lemma {:induction false} KeptCount(t: seq<Slot>)
    ensures |Kept(t)| == Living(t) + Old(t)
  {
    if t != [] { KeptCount(t[1..]); }
  }

  lemma {:induction false} SetSlot(t: seq<Slot>, i: nat, s: Slot)
    requires i < |t|
    ensures Living(t[i := s]) == Living(t) - IsLiving(t[i]) + IsLiving(s)
    ensures Old(t[i := s]) == Old(t) - IsOld(t[i]) + IsOld(s)
    ensures Kept(t[i := s]) + Content(t[i]) == Kept(t) + Content(s)
  {
    hide IsLiving, IsOld, Content;
    var u := t[i := s];
    if i == 0 {
      assert u[1..] == t[1..];
    } else {
      assert u[1..] == t[1..][i - 1 := s] && u[0] == t[0];
      SetSlot(t[1..], i - 1, s);
      AddToBoth(Content(t[0]), Kept(u[1..]), Kept(t[1..]), Content(t[i]), Content(s));
    }
  }

  lemma {:induction false} AddToBoth(x: multiset<nat>, a: multiset<nat>, b: multiset<nat>, c: multiset<nat>,
                                     d: multiset<nat>)
    requires a + c == b + d
    ensures (x + a) + c == (x + b) + d
  {
    assert (x + a) + c == x + (a + c) && (x + b) + d == x + (b + d);
  }

  /** An element may be overwritten from now on. */
  lemma {:induction false} EraseSlot(t: seq<Slot>, i: nat)
    requires i < |t|
    ensures var t' := t[i := t[i].(collected := true)];
            Kept(t') <= Kept(t) <= Kept(t') + multiset{t[i].elem} && Living(t') <= Living(t) && Old(t') <= Old(t)
  {
    hide Kept, Living, Old;
    var u := t[i := t[i].(collected := true)];
    SetSlot(t, i, t[i].(collected := true));
    assert Kept(u) + Content(t[i]) == Kept(t) + multiset{} == Kept(t);
    assert forall x :: Kept(t)[x] == Kept(u)[x] + Content(t[i])[x];
  }

  function One(b: bool): nat { if b then 1 else 0 }

  /** An element takes a slot that may be overwritten. */
  lemma {:induction false} FillSlot(t: seq<Slot>, i: nat, e: nat, living: bool)
    requires i < |t| && t[i].collected
    ensures var t' := t[i := Slot(e, false, living)];
            Kept(t') == Kept(t) + multiset{e} && Living(t') == Living(t) + One(living)
              && Old(t') == Old(t) + One(!living)
  {
    hide Kept, Living, Old;
    SetSlot(t, i, Slot(e, false, living));
  }

  /** An element pushes out a kept one. */
  lemma {:induction false} SwapSlot(t: seq<Slot>, i: nat, e: nat, living: bool)
    requires i < |t| && !t[i].collected
    ensures var t' := t[i := Slot(e, false, living)];
            && Kept(t') + multiset{t[i].elem} == Kept(t) + multiset{e}
            && Living(t') + One(t[i].living) == Living(t) + One(living)
              && Old(t') + One(!t[i].living) == Old(t) + One(!living)
  {
    hide Kept, Living, Old;
    SetSlot(t, i, Slot(e, false, living));
  }

  // ---------------------------------------------------------------- epochs

  function Max(a: nat, b: nat): nat { if a < b then b else a }

  /** The bound on living entries plus the counter. */
  function Bound(epochSize: nat): nat { Max(epochSize + 1, epochSize + epochSize / 16) }

  function Aged(s: Slot): Slot { if s.living then s.(living := false) else s.(collected := true) }

  function AgedAll(t: seq<Slot>): (r: seq<Slot>)
    ensures |r| == |t| && forall i :: 0 <= i < |t| ==> r[i] == Aged(t[i])
  {
    seq(|t|, i requires 0 <= i < |t| => Aged(t[i]))
  }

  /** The kept elements of one epoch. */
  function KeptIn(t: seq<Slot>, living: bool): multiset<nat> {
    if t == [] then multiset{}
    else (if t[0].living == living then Content(t[0]) else multiset{}) + KeptIn(t[1..], living)
  }

  lemma {:induction false} KeptByEpoch(t: seq<Slot>)
    ensures Kept(t) == KeptIn(t, true) + KeptIn(t, false)
  {
    hide Content;
    if t != [] {
      KeptByEpoch(t[1..]);
      var c, k, a, b := Content(t[0]), Kept(t[1..]), KeptIn(t[1..], true), KeptIn(t[1..], false);
      assert c + (a + b) == (c + a) + b == a + (c + b);
    }
  }

  /** Ageing makes the living entries old and lets go of exactly the old ones. */
  lemma {:induction false} AgedCounts(t: seq<Slot>)
    ensures Living(AgedAll(t)) == 0 && Old(AgedAll(t)) == Living(t)
    ensures Kept(AgedAll(t)) == KeptIn(t, true) && Kept(t) == KeptIn(t, true) + KeptIn(t, false)
  {
    AgedNumbers(t);
    AgedKept(t);
    KeptByEpoch(t);
  }

  lemma {:induction false} AgedNumbers(t: seq<Slot>)
    ensures Living(AgedAll(t)) == 0 && Old(AgedAll(t)) == Living(t)
  {
    hide AgedAll;
    if t != [] {
      AgedNumbers(t[1..]);
      assert AgedAll(t)[1..] == AgedAll(t[1..]);
      assert AgedAll(t)[0] == Aged(t[0]);
    }
  }

  lemma {:induction false} AgedKept(t: seq<Slot>)
    ensures Kept(AgedAll(t)) == KeptIn(t, true)
  {
    hide AgedAll;
    if t != [] {
      AgedKept(t[1..]);
      assert AgedAll(t)[1..] == AgedAll(t[1..]);
      assert Content(AgedAll(t)[0]) == if t[0].living then Content(t[0]) else multiset{};
    }
  }

  /** The epoch size, computed in 32 bits. */
  function EpochSize(size: nat): nat { Max(1, (45 * size) % UINT32 / 100) }

  /** It is 45 percent of the slots, at least one, if and only if the product does not wrap. */
  lemma {:induction false} EpochSizeExact(size: nat)
    requires 2 <= size < UINT32
    ensures EpochSize(size) == Max(1, 45 * size / 100) <==> 45 * size < UINT32
  {
    if 45 * size >= UINT32 { assert (45 * size) % UINT32 / 100 < 45 * size / 100; }
  }

  method CountLiving(t: seq<Slot>) returns (n: nat)
    ensures n == Living(t)
  {
    n := 0;
    assert t[0..] == t;
    for i := 0 to |t|
      invariant n + Living(t[i..]) == Living(t)
    {
      assert t[i..][0] == t[i] && t[i..][1..] == t[i + 1..];
      n := n + if t[i].living && !t[i].collected then 1 else 0;
    }
    assert t[|t|..] == [];
  }

  /** The counter after a check that found `living` kept entries of the living epoch. */
  function NextCounter(counter: nat, living: nat, epochSize: nat): nat {
    if counter != 0 then counter - 1
    else if living >= epochSize then epochSize
    else Max(1, Max(epochSize / 16, epochSize - living))
  }

  function Checked(t: seq<Slot>, counter: nat, epochSize: nat): seq<Slot> {
    if counter == 0 && Living(t) >= epochSize then AgedAll(t) else t
  }

  /** `epoch_check`: every so often, see whether the living epoch is full, and age it if so. */
  method EpochCheck(t0: seq<Slot>, counter0: nat, epochSize: nat) returns (t: seq<Slot>, counter: nat)
    ensures t == Checked(t0, counter0, epochSize) && counter == NextCounter(counter0, Living(t0), epochSize)
    ensures counter0 == 0 ==> Living(t) + counter + 1 <= Bound(epochSize)
    ensures Old(t) <= if t == t0 then Old(t0) else Living(t0)
  {
    t, counter := t0, counter0;
    if counter != 0 {
      counter := counter - 1;
      return;
    }
    var unused := CountLiving(t);
    if unused >= epochSize {
      AgedCounts(t);
      t := AgedAll(t);
      counter := epochSize;
    } else {
      counter := Max(1, Max(epochSize / 16, epochSize - unused));
    }
  }

  // ---------------------------------------------------------------- the cache

  /** Kept elements sit at one of their slots. */
  ghost predicate Placed(t: seq<Slot>, locs: nat -> seq<nat>) {
    forall i :: 0 <= i < |t| && !t[i].collected ==> i in locs(t[i].elem)
  }

  /** The hash functions give eight slots. */
  ghost predicate Hashes(size: nat, locs: nat -> seq<nat>) {
    forall e {:trigger locs(e)} :: |locs(e)| == 8 && forall j :: 0 <= j < 8 ==> locs(e)[j] < size
  }

  ghost predicate Known(t: seq<Slot>, seen: set<nat>) { forall i :: 0 <= i < |t| ==> t[i].elem in seen }

  ghost predicate InSlots(t: seq<Slot>, l: seq<nat>) { |l| == 8 && forall j :: 0 <= j < 8 ==> l[j] < |t| }

  ghost predicate HeldAt(t: seq<Slot>, l: seq<nat>, e: nat, j: nat)
    requires InSlots(t, l)
  {
    j < 8 && t[l[j]].elem == e && forall k :: 0 <= k < j ==> t[l[k]].elem != e
  }

  ghost predicate FreeAt(t: seq<Slot>, l: seq<nat>, j: nat)
    requires InSlots(t, l)
  {
    j < 8 && t[l[j]].collected && forall k :: 0 <= k < j ==> !t[l[k]].collected
  }

  ghost predicate Holds(t: seq<Slot>, l: seq<nat>, e: nat)
    requires InSlots(t, l)
  {
    exists j :: 0 <= j < 8 && t[l[j]].elem == e
  }

  /** The first of the slots that holds `e`, or 8. */
  method FindElement(t: seq<Slot>, l: seq<nat>, e: nat) returns (j: nat)
    requires InSlots(t, l)
    ensures j <= 8 && (j < 8 ==> t[l[j]].elem == e) && forall k :: 0 <= k < j ==> t[l[k]].elem != e
  {
    j := 0;
    while j < 8 && t[l[j]].elem != e
      invariant j <= 8 && forall k :: 0 <= k < j ==> t[l[k]].elem != e
    {
      j := j + 1;
    }
  }

  lemma {:induction false} OneFirst(t: seq<Slot>, l: seq<nat>, e: nat, j: nat, k: nat)
    requires InSlots(t, l) && HeldAt(t, l, e, k) && j <= 8 && (j < 8 ==> t[l[j]].elem == e)
      && forall i :: 0 <= i < j ==> t[l[i]].elem != e
    ensures j == k
  {
  }

  lemma {:induction false} OneFree(t: seq<Slot>, l: seq<nat>, j: nat)
    requires InSlots(t, l) && j <= 8 && (j < 8 ==> t[l[j]].collected) && forall i :: 0 <= i < j ==> !t[l[i]].collected
    ensures forall k: nat :: FreeAt(t, l, k) ==> k == j && j < 8
    ensures j < 8 ==> FreeAt(t, l, j)
  {
  }

  /** The first of the slots that may be overwritten, or 8. */
  method FindFree(t: seq<Slot>, l: seq<nat>) returns (j: nat)
    requires InSlots(t, l)
    ensures j <= 8 && (j < 8 ==> t[l[j]].collected) && forall k :: 0 <= k < j ==> !t[l[k]].collected
  {
    j := 0;
    while j < 8 && !t[l[j]].collected
      invariant j <= 8 && forall k :: 0 <= k < j ==> !t[l[k]].collected
    {
      j := j + 1;
    }
  }

  /** The position of `x` in the list, or its length. */
  function IndexOf(l: seq<nat>, x: int): (k: nat)
    ensures k <= |l|
  {
    if l == [] || l[0] == x then 0 else 1 + IndexOf(l[1..], x)
  }

  lemma {:induction false} IndexOfNone(l: seq<nat>, x: int)
    requires x < 0
    ensures IndexOf(l, x) == |l|
  {
    if l != [] { IndexOfNone(l[1..], x); }
  }

  /** The slot for the next displacement: the one after the last, or the second for the first. */
  function NextLoc(l: seq<nat>, lastLoc: int): nat
    requires |l| == 8
  {
    l[(1 + IndexOf(l, lastLoc)) % 8]
  }

  /** If the slots of an element differ, it never goes back to the slot it was pushed out of. */
  lemma {:induction false} NotBack(l: seq<nat>, lastLoc: int)
    requires |l| == 8 && forall i, j :: 0 <= i < j < 8 ==> l[i] != l[j]
    ensures NextLoc(l, lastLoc) != lastLoc
  {
    IndexOfIs(l, lastLoc);
    var k := IndexOf(l, lastLoc);
    if k == 8 { assert l[1] != lastLoc; }
  }

  lemma {:induction false} IndexOfIs(l: seq<nat>, x: int)
    ensures var k := IndexOf(l, x); (k < |l| ==> l[k] == x) && forall i :: 0 <= i < k ==> l[i] != x
  {
    if l != [] && l[0] != x { IndexOfIs(l[1..], x); }
  }

  /** The chain of displacements: what it does to the table, and what is lost. */
  ghost function Chain(t: seq<Slot>, locs: nat -> seq<nat>, e: nat, living: bool, lastLoc: int,
                       depth: nat): (seq<Slot>, multiset<nat>)
    requires Hashes(|t|, locs)
    decreases depth
  {
    var l := locs(e);
    if depth == 0 then (t, multiset{e})
    else if exists j: nat :: FreeAt(t, l, j) then
      var j: nat :| FreeAt(t, l, j);
      (t[l[j] := Slot(e, false, living)], multiset{})
    else
      var at := NextLoc(l, lastLoc);
      Chain(t[at := Slot(e, false, living)], locs, t[at].elem, t[at].living, at, depth - 1)
  }

  /** With all slots kept, the first displacement goes to the second slot. */
  lemma {:induction false} FirstDisplaced(t: seq<Slot>, locs: nat -> seq<nat>, e: nat, depth: nat)
    requires Hashes(|t|, locs) && depth > 0
    ensures InSlots(t, locs(e))
    ensures (forall j: nat :: !FreeAt(t, locs(e), j)) ==>
              var at := locs(e)[1];
              Chain(t, locs, e, true, -1, depth) ==
                Chain(t[at := Slot(e, false, true)], locs, t[at].elem, t[at].living, at, depth - 1)
  {
    IndexOfNone(locs(e), -1);
  }

  /** The displacement loop of `insert`. Either the chain ends in a free slot, or after `depthLimit`
      steps the element in hand is lost. */
  method Displace(t0: seq<Slot>, locs: nat -> seq<nat>, e0: nat, depthLimit: nat, ghost seen: set<nat>)
    returns (t: seq<Slot>, ghost lost: multiset<nat>)
    requires Hashes(|t0|, locs) && Placed(t0, locs) && Known(t0, seen) && e0 in seen
    ensures |t| == |t0| && Placed(t, locs) && Known(t, seen)
    ensures |lost| <= 1 && Kept(t) + lost == Kept(t0) + multiset{e0}
    ensures Living(t) <= Living(t0) + 1 && Old(t) <= Old(t0) && InSlots(t0, locs(e0))
    ensures (t, lost) == Chain(t0, locs, e0, true, -1, depthLimit)
  {
    hide Living, Old, Kept, Placed, Known, Hashes, NextLoc, FreeAt, Chain;
    t := t0;
    var e, lastEpoch, lastLoc: int := e0, true, -1;
    Eight(|t0|, locs, e0);
    for depth := 0 to depthLimit
      invariant |t| == |t0| && Placed(t, locs) && Known(t, seen) && e in seen
      invariant Kept(t) + multiset{e} == Kept(t0) + multiset{e0}
      invariant Living(t) + One(lastEpoch) == Living(t0) + 1 && Old(t) + One(!lastEpoch) == Old(t0)
      invariant Chain(t, locs, e, lastEpoch, lastLoc, depthLimit - depth) == Chain(t0, locs, e0, true, -1, depthLimit)
    {
      var l := locs(e);
      Eight(|t0|, locs, e);
      var j := FindFree(t, l);
      OneFree(t, l, j);
      ChainStep(t, locs, e, lastEpoch, lastLoc, depthLimit - depth, j);
      if j < 8 {
        PutPlaced(t, locs, e, l[j], lastEpoch, seen);
        FillSlot(t, l[j], e, lastEpoch);
        t, lost := t[l[j] := Slot(e, false, lastEpoch)], multiset{};
        return;
      }
      lastLoc := NextLoc(l, lastLoc);
      PutPlaced(t, locs, e, lastLoc, lastEpoch, seen);
      SwapSlot(t, lastLoc, e, lastEpoch);
      var out := t[lastLoc];
      t := t[lastLoc := Slot(e, false, lastEpoch)];
      e, lastEpoch := out.elem, out.living;
    }
    lost := multiset{e};
    ChainEnd(t, locs, e, lastEpoch, lastLoc);
  }

  lemma {:induction false} ChainEnd(t: seq<Slot>, locs: nat -> seq<nat>, e: nat, living: bool, lastLoc: int)
    requires Hashes(|t|, locs)
    ensures Chain(t, locs, e, living, lastLoc, 0) == (t, multiset{e})
  {
  }

  lemma {:induction false} ChainStep(t: seq<Slot>, locs: nat -> seq<nat>, e: nat, living: bool, lastLoc: int,
                                     depth: nat, j: nat)
    requires Hashes(|t|, locs) && depth > 0 && j <= 8 && InSlots(t, locs(e))
    requires if j < 8 then FreeAt(t, locs(e), j) else forall k: nat :: !FreeAt(t, locs(e), k)
    ensures NextLoc(locs(e), lastLoc) in locs(e) && NextLoc(locs(e), lastLoc) < |t|
    ensures var l := locs(e); var at := NextLoc(l, lastLoc);
            Chain(t, locs, e, living, lastLoc, depth) ==
              if j < 8 then (t[l[j] := Slot(e, false, living)], multiset{})
              else Chain(t[at := Slot(e, false, living)], locs, t[at].elem, t[at].living, at, depth - 1)
  {
    hide Hashes, IndexOf;
    if j < 8 { OneFree(t, locs(e), j); }
  }

  lemma {:induction false} Eight(size: nat, locs: nat -> seq<nat>, e: nat)
    requires Hashes(size, locs)
    ensures |locs(e)| == 8 && forall j :: 0 <= j < 8 ==> locs(e)[j] < size
  {
  }

  /** An element put at one of its slots; the one it pushed out is known. */
  lemma {:induction false} PutPlaced(t: seq<Slot>, locs: nat -> seq<nat>, e: nat, i: nat, living: bool, seen: set<nat>)
    requires Placed(t, locs) && Known(t, seen) && e in seen && i in locs(e) && i < |t|
    ensures var t' := t[i := Slot(e, false, living)]; Placed(t', locs) && Known(t', seen) && t[i].elem in seen
  {
  }

  class Cache {
    const locs: nat -> seq<nat>
    const depthLimit: nat
    const epochSize: nat
    var table: seq<Slot>
    var counter: nat

    /** Every element ever inserted, and the value slots start with. */
    ghost var seen: set<nat>

    ghost predicate Valid()
      reads this
    {
      && Hashes(|table|, locs) && Placed(table, locs) && Known(table, seen)
      && Living(table) + counter <= Bound(epochSize) && Old(table) <= Bound(epochSize)
        && epochSize == EpochSize(|table|)
    }

    /** `setup`. The epoch size is computed in 32 bits. */
    constructor (newSize: nat, hashes: nat -> seq<nat>, depth: nat)
      requires newSize < UINT32 && Hashes(Max(2, newSize), hashes)
      ensures Valid() && |table| == Max(2, newSize) && Kept(table) == multiset{} && seen == {0}
      ensures epochSize == Max(1, 45 * |table| / 100) <==> 45 * |table| < UINT32
      ensures counter == epochSize && locs == hashes && depthLimit == depth
    {
      var size := Max(2, newSize);
      locs, depthLimit := hashes, depth;
      epochSize := EpochSize(size);
      table := seq(size, _ => Slot(0, true, false));
      counter := EpochSize(size);
      EpochSizeExact(size);
      seen := {0};
      new;
      AllCollected(table);
    }

    /** `contains`: look at the element's slots, and optionally let it be overwritten. */
    method Contains(e: nat, erase: bool) returns (found: bool)
      requires Valid()
      modifies this
      ensures Valid() && seen == old(seen) && counter == old(counter) && |table| == old(|table|)
      ensures InSlots(old(table), locs(e)) && InSlots(table, locs(e))
      ensures found <==> Holds(old(table), locs(e), e)
      ensures found <==> Holds(table, locs(e), e)
      ensures found ==> e in seen
      ensures !erase || !found ==> table == old(table)
      ensures erase ==> forall j: nat :: HeldAt(old(table), locs(e), e, j) ==>
                table == old(table)[locs(e)[j] := old(table)[locs(e)[j]].(collected := true)]
      ensures Kept(table) <= old(Kept(table)) <= Kept(table) + multiset{e}
    {
      hide Living, Old, Kept, Bound;
      var l := locs(e);
      var j := FindElement(table, l, e);
      found := j < 8;
      if found && erase {
        EraseSlot(table, l[j]);
        table := table[l[j] := table[l[j]].(collected := true)];
        assert table[l[j]].elem == e;
      }
      forall k: nat | HeldAt(old(table), l, e, k) ensures k == j { OneFirst(old(table), l, e, j, k); }
    }

    /** `insert`. Apart from what `epoch_check` ages out, at most one kept element is lost. */
    method Insert(e: nat) returns (ghost checked: seq<Slot>, ghost lost: multiset<nat>)
      requires Valid()
      modifies this
      ensures Valid() && seen == old(seen) + {e} && |table| == old(|table|)
      ensures checked == Checked(old(table), old(counter), epochSize)
        && counter == NextCounter(old(counter), Living(old(table)), epochSize)
      ensures |lost| <= 1 && Kept(table) + lost == Kept(checked) + multiset{e}
      ensures Hashes(|checked|, locs) && Inserted(checked, locs, e, depthLimit, table, lost)
    {
      hide Living, Old, Kept, Hashes, Placed, Known, AgedAll, Inserted;
      CheckedSame(table, counter, epochSize);
      var t;
      KnownMore(table, seen, e);
      seen := seen + {e};
      t, counter := EpochCheck(table, counter, epochSize);
      checked := t;
      CheckedPlaced(table, t, locs, seen);
      table, lost := InsertInto(t, locs, e, depthLimit, seen);
    }
  }

  /** An element already at one of its slots is kept there, as a living one. Otherwise it starts a chain:
      it takes the first of its slots that may be overwritten, or displaces another element. */
  ghost predicate Inserted(t: seq<Slot>, locs: nat -> seq<nat>, e: nat, depthLimit: nat, t': seq<Slot>,
                           lost: multiset<nat>)
    requires Hashes(|t|, locs)
  {
    var l := locs(e);
    && (forall j: nat :: HeldAt(t, l, e, j) ==> lost == Content(t[l[j]]) && t' == t[l[j] := Slot(e, false, true)])
    && (!Holds(t, l, e) ==> (t', lost) == Chain(t, locs, e, true, -1, depthLimit))
  }

  lemma {:induction false} CheckedSame(t: seq<Slot>, counter: nat, epochSize: nat)
    ensures Checked(t, counter, epochSize) == t || Checked(t, counter, epochSize) == AgedAll(t)
    ensures counter != 0 || Living(t) < epochSize ==> Checked(t, counter, epochSize) == t
  {
  }

  /** `insert` after the epoch check: keep the element where it is, or find it a slot. */
  method InsertInto(t0: seq<Slot>, locs: nat -> seq<nat>, e: nat, depthLimit: nat, ghost seen: set<nat>)
    returns (t: seq<Slot>, ghost lost: multiset<nat>)
    requires Hashes(|t0|, locs) && Placed(t0, locs) && Known(t0, seen) && e in seen
    ensures |t| == |t0| && Placed(t, locs) && Known(t, seen)
    ensures |lost| <= 1 && Kept(t) + lost == Kept(t0) + multiset{e}
    ensures Living(t) <= Living(t0) + 1 && Old(t) <= Old(t0)
    ensures Inserted(t0, locs, e, depthLimit, t, lost)
  {
    hide Living, Old, Kept, Inserted, Placed, Known, HeldAt, FreeAt, Holds, Hashes, Chain;
    Eight(|t0|, locs, e);
    var l := locs(e);
    var j := FindElement(t0, l, e);
    if j < 8 {
      KeepThere(t0, locs, e, j, depthLimit, seen);
      SetSlot(t0, l[j], Slot(e, false, true));
      lost := Content(t0[l[j]]);
      t := t0[l[j] := Slot(e, false, true)];
    } else {
      t, lost := Displace(t0, locs, e, depthLimit, seen);
      FoundNowhere(t0, locs, e, depthLimit, t, lost);
    }
  }

  lemma {:induction false} KeepThere(t: seq<Slot>, locs: nat -> seq<nat>, e: nat, j: nat, depthLimit: nat,
                                     seen: set<nat>)
    requires Hashes(|t|, locs) && Placed(t, locs) && Known(t, seen) && e in seen
    requires j < 8 && t[locs(e)[j]].elem == e && forall k :: 0 <= k < j ==> t[locs(e)[k]].elem != e
    ensures var l := locs(e); var t' := t[l[j] := Slot(e, false, true)];
            Placed(t', locs) && Known(t', seen) && Inserted(t, locs, e, depthLimit, t', Content(t[l[j]]))
  {
    hide Chain;
    var l := locs(e);
    assert Holds(t, l, e);
    forall k: nat | HeldAt(t, l, e, k) ensures k == j { OneFirst(t, l, e, j, k); }
  }

  lemma {:induction false} FoundNowhere(t: seq<Slot>, locs: nat -> seq<nat>, e: nat, depthLimit: nat, t': seq<Slot>,
                                        lost: multiset<nat>)
    requires Hashes(|t|, locs) && (forall k :: 0 <= k < 8 ==> t[locs(e)[k]].elem != e)
    requires (t', lost) == Chain(t, locs, e, true, -1, depthLimit)
    ensures Inserted(t, locs, e, depthLimit, t', lost)
  {
    hide Chain;
  }

  lemma {:induction false} KnownMore(t: seq<Slot>, seen: set<nat>, e: nat)
    requires Known(t, seen)
    ensures Known(t, seen + {e})
  {
  }

  lemma {:induction false} CheckedPlaced(t0: seq<Slot>, t: seq<Slot>, locs: nat -> seq<nat>, seen: set<nat>)
    requires (t == t0 || t == AgedAll(t0)) && Placed(t0, locs) && Known(t0, seen)
    ensures |t| == |t0| && Placed(t, locs) && Known(t, seen)
  {
  }

  lemma {:induction false} KeptSlot(t: seq<Slot>, e: nat) returns (i: nat)
    requires e in Kept(t)
    ensures i < |t| && !t[i].collected && t[i].elem == e
  {
    if e in Content(t[0]) {
      i := 0;
    } else {
      i := KeptSlot(t[1..], e);
      i := i + 1;
    }
  }

  /** Whatever is kept is found: `contains` answers yes for it. */
  lemma {:induction false} KeptFound(c: Cache, e: nat)
    requires c.Valid() && e in Kept(c.table)
    ensures InSlots(c.table, c.locs(e)) && Holds(c.table, c.locs(e), e)
  {
    var i := KeptSlot(c.table, e);
    var l := c.locs(e);
    var j :| 0 <= j < |l| && l[j] == i;
    assert c.table[c.locs(e)[j]].elem == e;
  }

  /** However many elements were inserted, at most twice the bound are kept. */
  lemma {:induction false} KeptBounded(c: Cache)
    requires c.Valid()
    ensures |Kept(c.table)| <= 2 * Bound(c.epochSize)
  {
    KeptCount(c.table);
  }

  /** A table whose 45 percent wrap to nothing: of 95443718 slots at most four are kept. */
  lemma {:induction false} WrappedEpoch(c: Cache)
    requires c.Valid() && |c.table| == 95443718
    ensures c.epochSize == 1 && |Kept(c.table)| <= 4
  {
    KeptBounded(c);
  }

  lemma {:induction false} AllCollected(t: seq<Slot>)
    requires forall i :: 0 <= i < |t| ==> t[i].collected
    ensures Living(t) == 0 && Old(t) == 0 && Kept(t) == multiset{}
  {
    if t != [] { AllCollected(t[1..]); }
  }
}
