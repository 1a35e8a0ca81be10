/** Compact blocks: slots prefilled, found in the pool by short identifier, or requested. */
module BlockEncodings {
  import opened Options
  import opened Lists

  /** A transaction, named by its witness hash. */
  type Tx = nat

  datatype Prefilled = Prefilled(index: nat, tx: Tx)

  datatype CompactBlock = CompactBlock(header: nat, shortIds: seq<nat>, prefilled: seq<Prefilled>) {
    function BlockTxCount(): nat { |shortIds| + |prefilled| }
  }

  datatype ReadStatus = READ_STATUS_OK | READ_STATUS_INVALID | READ_STATUS_FAILED | READ_STATUS_CHECKBLOCK_FAILED

  const NULL_HEADER: nat := 0
  const UINT16_MAX: nat := 0xffff

  type Slots = seq<Option<Tx>>

  // ---------------------------------------------------------------- prefilled transactions

  /** The position in the block of prefilled transaction `j`: indexes are differences. */
  function PositionOf(p: seq<Prefilled>, j: nat): nat
    requires j < |p|
  {
    if j == 0 then p[0].index else PositionOf(p, j - 1) + p[j].index + 1
  }

  lemma {:induction false} PositionsGrow(p: seq<Prefilled>, i: nat, j: nat)
    requires i < j < |p|
    ensures PositionOf(p, i) < PositionOf(p, j)
  {
    if i < j - 1 { PositionsGrow(p, i, j - 1); }
  }

  /** Exactly the first `n` prefilled transactions are in place. */
  ghost predicate PlacedFirst(a: Slots, p: seq<Prefilled>, n: nat) {
    && n <= |p|
    && (forall j :: 0 <= j < n ==> PositionOf(p, j) < |a| && a[PositionOf(p, j)] == Some(p[j].tx))
    && (forall k :: 0 <= k < |a| && a[k].Some? ==> exists j :: 0 <= j < n && k == PositionOf(p, j))
  }

  function EmptyBefore(a: Slots, n: nat): nat
    requires n <= |a|
  {
    if n == 0 then 0 else EmptyBefore(a, n - 1) + if a[n - 1].None? then 1 else 0
  }

  lemma {:induction false} FillOne(a: Slots, k: nat, tx: Tx, n: nat)
    requires k < |a| && a[k].None? && n <= |a|
    ensures EmptyBefore(a[k := Some(tx)], n) == EmptyBefore(a, n) - if k < n then 1 else 0
  {
    if n > 0 { FillOne(a, k, tx, n - 1); }
  }

  lemma {:induction false} AllEmpty(a: Slots, n: nat)
    requires n <= |a| && forall k :: 0 <= k < |a| ==> a[k].None?
    ensures EmptyBefore(a, n) == n
  {
    if n > 0 { AllEmpty(a, n - 1); }
  }

  /** The prefilled transactions are there and fit between the short identifiers. */
  ghost predicate WellPlaced(c: CompactBlock, isNull: Tx -> bool, n: nat) {
    n <= |c.prefilled| && forall j :: 0 <= j < n ==> FitsAt(c, isNull, j)
  }

  ghost predicate FitsAt(c: CompactBlock, isNull: Tx -> bool, j: nat)
    requires j < |c.prefilled|
  {
    !isNull(c.prefilled[j].tx) && PositionOf(c.prefilled, j) <= UINT16_MAX
      && PositionOf(c.prefilled, j) <= |c.shortIds| + j
  }

  /** The slots as the first loop leaves them when it stops at a prefilled transaction that does not fit. */
  ghost predicate PlacedUntil(a: Slots, c: CompactBlock, isNull: Tx -> bool) {
    |a| == c.BlockTxCount() && exists n: nat :: n < |c.prefilled| && StopsPlacing(a, c, isNull, n)
  }

  ghost predicate StopsPlacing(a: Slots, c: CompactBlock, isNull: Tx -> bool, n: nat)
    requires n < |c.prefilled|
  {
    WellPlaced(c, isNull, n) && !FitsAt(c, isNull, n) && PlacedFirst(a, c.prefilled, n)
  }

  /** The first loop of `InitData`: never outside the slots, and one slot for each. */
  method PlacePrefilled(c: CompactBlock, isNull: Tx -> bool) returns (ok: bool, a: Slots)
    requires c.BlockTxCount() <= UINT16_MAX
    ensures |a| == c.BlockTxCount()
    ensures ok <==> WellPlaced(c, isNull, |c.prefilled|)
    ensures ok ==> PlacedFirst(a, c.prefilled, |c.prefilled|) && EmptyBefore(a, |a|) == |c.shortIds|
    ensures !ok ==> PlacedUntil(a, c, isNull)
  {
    hide PlacedFirst, EmptyBefore, PositionOf;
    a := seq(c.BlockTxCount(), _ => None);
    AllEmpty(a, |a|);
    NonePlaced(a, c.prefilled);
    var last := -1;
    ok := false;
    for i := 0 to |c.prefilled|
      invariant |a| == c.BlockTxCount() && last < |c.shortIds| + i
        && last == if i == 0 then -1 else PositionOf(c.prefilled, i - 1)
      invariant PlacedFirst(a, c.prefilled, i) && EmptyBefore(a, |a|) == |a| - i
      invariant WellPlaced(c, isNull, i)
    {
      assert WellPlaced(c, isNull, |c.prefilled|) ==> FitsAt(c, isNull, i);
      assert !FitsAt(c, isNull, i) ==> StopsPlacing(a, c, isNull, i);
      if isNull(c.prefilled[i].tx) { return; }
      PositionNext(c.prefilled, i);
      last := last + c.prefilled[i].index + 1;
      if last > UINT16_MAX { return; }
      if last > |c.shortIds| + i { return; }
      PlaceNext(a, c.prefilled, i, last);
      FillOne(a, last, c.prefilled[i].tx, |a|);
      a := a[last := Some(c.prefilled[i].tx)];
    }
    ok := true;
  }

  lemma {:induction false} NonePlaced(a: Slots, p: seq<Prefilled>)
    requires forall k :: 0 <= k < |a| ==> a[k].None?
    ensures PlacedFirst(a, p, 0)
  {
  }

  lemma {:induction false} PositionNext(p: seq<Prefilled>, i: nat)
    requires i < |p|
    ensures PositionOf(p, i) == (if i == 0 then -1 else PositionOf(p, i - 1)) + p[i].index + 1
  {
  }

  lemma {:induction false} PlaceNext(a: Slots, p: seq<Prefilled>, i: nat, at: nat)
    requires i < |p| && PlacedFirst(a, p, i) && at == PositionOf(p, i) < |a|
    ensures a[at].None? && PlacedFirst(a[at := Some(p[i].tx)], p, i + 1)
  {
    forall j | 0 <= j < i ensures PositionOf(p, j) < at { PositionsGrow(p, j, i); }
    var b := a[at := Some(p[i].tx)];
    forall k | 0 <= k < |b| && b[k].Some? ensures exists j :: 0 <= j < i + 1 && k == PositionOf(p, j) {
      if k == at { assert k == PositionOf(p, i); }
    }
  }

  // ---------------------------------------------------------------- short identifiers

  /** `slots` lists the first empty slots, in order. */
  ghost predicate FirstEmpty(a: Slots, slots: seq<nat>, end: nat) {
    && end <= |a| && |slots| == EmptyBefore(a, end)
    && (forall j :: 0 <= j < |slots| ==> slots[j] < end && a[slots[j]].None? && EmptyBefore(a, slots[j]) == j)
  }

  lemma {:induction false} EmptyGrows(a: Slots, m: nat, n: nat)
    requires m <= n <= |a|
    ensures EmptyBefore(a, m) <= EmptyBefore(a, n)
  {
    if m < n { EmptyGrows(a, m, n - 1); }
  }

  /** The second loop: pair the short identifiers with the empty slots. `crowded` stands for the
      occupancy test of the hash table. */
  method AssignSlots(ids: seq<nat>, a: Slots, crowded: nat -> bool)
    returns (ok: bool, at: map<nat, nat>, ghost slots: seq<nat>)
    requires EmptyBefore(a, |a|) == |ids|
    ensures ok <==> Distinct(ids) && forall i :: 0 <= i < |ids| ==> !crowded(i)
    ensures ok ==> FirstEmpty(a, slots, |a|) && |slots| == |ids|
    ensures ok ==> at.Keys == ToSet(ids) && forall j :: 0 <= j < |ids| ==> at[ids[j]] == slots[j]
  {
    hide Distinct, ToSet, FirstEmpty, EmptyBefore, Assigned;
    at, slots, ok := map[], [], false;
    var offset := 0;
    AssignStart(a, ids);
    for i := 0 to |ids|
      invariant i + offset <= |a| && |slots| == i && FirstEmpty(a, slots, i + offset)
      invariant Assigned(ids, i, at, slots) && forall j :: 0 <= j < i ==> !crowded(j)
    {
      StillEmpty(a, slots, i + offset);
      while a[i + offset].Some?
        invariant i + offset < |a| && FirstEmpty(a, slots, i + offset)
        decreases |a| - offset
      {
        NextSlot(a, slots, i + offset);
        offset := offset + 1;
        StillEmpty(a, slots, i + offset);
      }
      AssignNext(ids, i, at, slots, i + offset);
      NextSlot(a, slots, i + offset);
      at := at[ids[i] := i + offset];
      slots := slots + [i + offset];
      if crowded(i) { return; }
    }
    AssignEnd(ids, at, slots);
    if |at| != |ids| { return; }
    RestFull(a, slots, |ids| + offset);
    ok := true;
  }

  /** The first `i` identifiers have their slots; a repeated one has the last. */
  ghost predicate Assigned(ids: seq<nat>, i: nat, at: map<nat, nat>, slots: seq<nat>) {
    && i <= |ids| && |slots| == i && at.Keys == ToSet(ids[..i])
    && (Distinct(ids[..i]) ==> forall j :: 0 <= j < i ==> ids[j] in at && at[ids[j]] == slots[j])
  }

  lemma {:induction false} AssignStart(a: Slots, ids: seq<nat>)
    ensures Assigned(ids, 0, map[], []) && FirstEmpty(a, [], 0)
  {
  }

  lemma {:induction false} AssignNext(ids: seq<nat>, i: nat, at: map<nat, nat>, slots: seq<nat>, k: nat)
    requires Assigned(ids, i, at, slots) && i < |ids|
    ensures Assigned(ids, i + 1, at[ids[i] := k], slots + [k])
  {
    hide Distinct, ToSet;
    NextId(ids, i);
  }

  lemma {:induction false} AssignEnd(ids: seq<nat>, at: map<nat, nat>, slots: seq<nat>)
    requires Assigned(ids, |ids|, at, slots)
    ensures |at| == |ids| <==> Distinct(ids)
    ensures Distinct(ids) ==> at.Keys == ToSet(ids) && forall j :: 0 <= j < |ids| ==> at[ids[j]] == slots[j]
  {
    hide Distinct, ToSet;
    assert ids[..|ids|] == ids;
    assert |at| == |at.Keys|;
    if Distinct(ids) { DistinctCard(ids); }
    if |ToSet(ids)| == |ids| { CardDistinct(ids); }
  }

  lemma {:induction false} StillEmpty(a: Slots, slots: seq<nat>, n: nat)
    requires FirstEmpty(a, slots, n) && |slots| < EmptyBefore(a, |a|)
    ensures n < |a|
  {
  }

  lemma {:induction false} NextSlot(a: Slots, slots: seq<nat>, n: nat)
    requires FirstEmpty(a, slots, n) && n < |a|
    ensures FirstEmpty(a, if a[n].Some? then slots else slots + [n], n + 1)
  {
  }

  lemma {:induction false} NextId(ids: seq<nat>, i: nat)
    requires i < |ids|
    ensures ToSet(ids[..i + 1]) == ToSet(ids[..i]) + {ids[i]}
    ensures Distinct(ids[..i + 1]) ==> Distinct(ids[..i]) && forall j :: 0 <= j < i ==> ids[j] != ids[i]
  {
    assert ids[..i + 1] == ids[..i] + [ids[i]];
    ToSetConcat(ids[..i], [ids[i]]);
    DistinctConcat(ids[..i], [ids[i]]);
  }

  lemma {:induction false} RestFull(a: Slots, slots: seq<nat>, end: nat)
    requires FirstEmpty(a, slots, end) && |slots| == EmptyBefore(a, |a|)
    ensures FirstEmpty(a, slots, |a|)
  {
  }

  /** As many different elements as positions: no repetition. */
  lemma {:induction false} CardDistinct<T>(s: seq<T>)
    requires |ToSet(s)| == |s|
    ensures Distinct(s)
  {
    if s != [] {
      var n := |s| - 1;
      var init := s[..n];
      assert s == init + [s[n]];
      ToSetConcat(init, [s[n]]);
      assert ToSet([s[n]]) == {s[n]};
      CardBound(init);
      CardDistinct(init);
      DistinctConcat(init, [s[n]]);
    }
  }

  lemma {:induction false} CardBound<T>(s: seq<T>)
    ensures |ToSet(s)| <= |s|
  {
    if s != [] {
      var init := s[..|s| - 1];
      assert s == init + [s[|s| - 1]];
      ToSetConcat(init, [s[|s| - 1]]);
      assert ToSet([s[|s| - 1]]) == {s[|s| - 1]};
      CardBound(init);
    }
  }

  // ---------------------------------------------------------------- scanning the pools

  /** How many of the slots for short identifiers are filled. */
  function Filled(a: Slots, slots: seq<nat>): nat
    requires forall j :: 0 <= j < |slots| ==> slots[j] < |a|
  {
    if slots == [] then 0 else (if a[slots[0]].Some? then 1 else 0) + Filled(a, slots[1..])
  }

  lemma {:induction false} FilledSet(a: Slots, slots: seq<nat>, j: nat, x: Option<Tx>)
    requires (forall i :: 0 <= i < |slots| ==> slots[i] < |a|) && Distinct(slots) && j < |slots|
    ensures Filled(a[slots[j] := x], slots) ==
      Filled(a, slots) - (if a[slots[j]].Some? then 1 else 0) + (if x.Some? then 1 else 0)
  {
    var b, rest := a[slots[j] := x], slots[1..];
    if j == 0 {
      FilledSame(a, b, rest);
    } else {
      assert rest[j - 1] == slots[j];
      FilledSet(a, rest, j - 1, x);
    }
  }

  lemma {:induction false} FilledSame(a: Slots, b: Slots, slots: seq<nat>)
    requires |a| == |b| && forall i :: 0 <= i < |slots| ==> slots[i] < |a| && a[slots[i]] == b[slots[i]]
    ensures Filled(a, slots) == Filled(b, slots)
  {
    if slots != [] { FilledSame(a, b, slots[1..]); }
  }

  /** What the scans know of one short identifier: whether it was matched, and by what. */
  datatype Found = Found(have: bool, tx: Option<Tx>)

  /** A candidate with the identifier. A second one empties the slot for good, unless `compare` finds
      it to be the transaction already there. */
  function Offered(f: Found, tx: Tx, compare: bool): Found {
    if !f.have then Found(true, Some(tx))
    else if f.tx.Some? && !(compare && f.tx.value == tx) then Found(true, None)
    else f
  }

  function FromPool(id: nat, pool: seq<Tx>, shortId: Tx -> nat): Found {
    if pool == [] then Found(false, None)
    else
      var f, tx := FromPool(id, pool[..|pool| - 1], shortId), pool[|pool| - 1];
      if shortId(tx) == id then Offered(f, tx, false) else f
  }

  function FromBoth(id: nat, pool: seq<Tx>, extra: seq<Option<Tx>>, shortId: Tx -> nat): Found {
    if extra == [] then FromPool(id, pool, shortId)
    else
      var f, x := FromBoth(id, pool, extra[..|extra| - 1], shortId), extra[|extra| - 1];
      if x.Some? && shortId(x.value) == id then Offered(f, x.value, true) else f
  }

  lemma {:induction false} PoolShape(id: nat, pool: seq<Tx>, shortId: Tx -> nat)
    ensures var f := FromPool(id, pool, shortId);
            (!f.have ==> f.tx.None?) && (f.tx.Some? ==> f.tx.value in pool && shortId(f.tx.value) == id)
  {
    if pool != [] { PoolShape(id, pool[..|pool| - 1], shortId); }
  }

  /** What is found is a candidate with the identifier. */
  lemma {:induction false} FoundShape(id: nat, pool: seq<Tx>, extra: seq<Option<Tx>>, shortId: Tx -> nat)
    ensures var f := FromBoth(id, pool, extra, shortId);
            && (!f.have ==> f.tx.None?)
            && (f.tx.Some? ==> (f.tx.value in pool || f.tx in extra) && shortId(f.tx.value) == id)
  {
    if extra == [] { PoolShape(id, pool, shortId); } else { FoundShape(id, pool, extra[..|extra| - 1], shortId); }
  }

  /** A transaction of the pool or one of the extra ones with this identifier. */
  ghost predicate IsCandidate(x: Tx, id: nat, pool: seq<Tx>, extra: seq<Option<Tx>>, shortId: Tx -> nat) {
    (x in pool || Some(x) in extra) && shortId(x) == id
  }

  /** Two places of the pool have this identifier. */
  ghost predicate PoolCollides(id: nat, pool: seq<Tx>, shortId: Tx -> nat) {
    exists i, j :: 0 <= i < j < |pool| && shortId(pool[i]) == id == shortId(pool[j])
  }

  ghost predicate OnlyCandidate(t: Tx, id: nat, pool: seq<Tx>, extra: seq<Option<Tx>>, shortId: Tx -> nat) {
    && IsCandidate(t, id, pool, extra, shortId)
    && forall x: Tx :: IsCandidate(x, id, pool, extra, shortId) ==> x == t
  }

  /** What is found for an identifier: a transaction if and only if it is the only candidate, at one place of
      the pool at most; and something was seen if and only if there is a candidate. */
  lemma {:induction false} FoundExactly(id: nat, pool: seq<Tx>, extra: seq<Option<Tx>>, shortId: Tx -> nat, t: Tx)
    ensures var f := FromBoth(id, pool, extra, shortId);
            && (f.tx == Some(t) <==>
                  OnlyCandidate(t, id, pool, extra, shortId) && !PoolCollides(id, pool, shortId))
            && (f.have <==> exists x: Tx :: IsCandidate(x, id, pool, extra, shortId))
            && (!f.have ==> f.tx.None?) && (PoolCollides(id, pool, shortId) ==> f.have)
  {
    hide FromPool, PoolCollides, IsCandidate;
    if extra == [] {
      PoolExactly(id, pool, shortId, t);
    } else {
      var init, last := extra[..|extra| - 1], extra[|extra| - 1];
      FoundExactly(id, pool, init, shortId, t);
      var f := FromBoth(id, pool, init, shortId);
      if f.tx.Some? { FoundExactly(id, pool, init, shortId, f.tx.value); }
      forall x: Tx
        ensures IsCandidate(x, id, pool, extra, shortId) <==>
          IsCandidate(x, id, pool, init, shortId) || (last == Some(x) && shortId(x) == id)
      {
        CandidateNext(x, id, pool, extra, shortId);
      }
    }
  }

  lemma {:induction false} CandidateNext(x: Tx, id: nat, pool: seq<Tx>, extra: seq<Option<Tx>>, shortId: Tx -> nat)
    ensures extra != [] ==>
      (IsCandidate(x, id, pool, extra, shortId) <==>
         IsCandidate(x, id, pool, extra[..|extra| - 1], shortId) || (extra[|extra| - 1] == Some(x) && shortId(x) == id))
    ensures extra == [] && pool != [] ==>
      (IsCandidate(x, id, pool, extra, shortId) <==>
         IsCandidate(x, id, pool[..|pool| - 1], extra, shortId) || (pool[|pool| - 1] == x && shortId(x) == id))
  {
    if extra != [] { assert extra == extra[..|extra| - 1] + [extra[|extra| - 1]]; }
    if pool != [] { assert pool == pool[..|pool| - 1] + [pool[|pool| - 1]]; }
  }

  lemma {:induction false} PoolExactly(id: nat, pool: seq<Tx>, shortId: Tx -> nat, t: Tx)
    ensures var f := FromPool(id, pool, shortId);
            && (f.tx == Some(t) <==> OnlyCandidate(t, id, pool, [], shortId) && !PoolCollides(id, pool, shortId))
            && (f.have <==> exists x: Tx :: IsCandidate(x, id, pool, [], shortId))
            && (!f.have ==> f.tx.None?) && (PoolCollides(id, pool, shortId) ==> f.have)
  {
    hide IsCandidate, PoolCollides;
    if pool == [] {
      NothingThere(id, shortId);
    } else {
      var init, last := pool[..|pool| - 1], pool[|pool| - 1];
      PoolExactly(id, init, shortId, t);
      var f := FromPool(id, init, shortId);
      if f.tx.Some? { PoolExactly(id, init, shortId, f.tx.value); }
      forall x: Tx
        ensures IsCandidate(x, id, pool, [], shortId) <==>
          IsCandidate(x, id, init, [], shortId) || (last == x && shortId(x) == id)
      {
        CandidateNext(x, id, pool, [], shortId);
      }
      CollidesNext(id, pool, shortId);
    }
  }

  lemma {:induction false} NothingThere(id: nat, shortId: Tx -> nat)
    ensures !PoolCollides(id, [], shortId) && forall x: Tx :: !IsCandidate(x, id, [], [], shortId)
  {
  }

  lemma {:induction false} CollidesNext(id: nat, pool: seq<Tx>, shortId: Tx -> nat)
    requires pool != []
    ensures var init, last := pool[..|pool| - 1], pool[|pool| - 1];
            PoolCollides(id, pool, shortId) <==>
              PoolCollides(id, init, shortId)
                || (shortId(last) == id && exists x: Tx :: IsCandidate(x, id, init, [], shortId))
  {
    var n := |pool| - 1;
    var init := pool[..n];
    assert forall i :: 0 <= i < n ==> init[i] == pool[i];
    if PoolCollides(id, pool, shortId) {
      var i, j :| 0 <= i < j < |pool| && shortId(pool[i]) == id == shortId(pool[j]);
      if j < n {
        assert shortId(init[i]) == id == shortId(init[j]);
      } else {
        assert IsCandidate(init[i], id, init, [], shortId);
      }
    }
    if PoolCollides(id, init, shortId) {
      var i, j :| 0 <= i < j < n && shortId(init[i]) == id == shortId(init[j]);
      assert shortId(pool[i]) == id == shortId(pool[j]);
    }
    if x: Tx :| shortId(pool[n]) == id && IsCandidate(x, id, init, [], shortId) {
      var i :| 0 <= i < n && init[i] == x;
      assert shortId(pool[i]) == id == shortId(pool[n]);
    }
  }

  lemma {:induction false} PoolUnique(id: nat, pool: seq<Tx>, shortId: Tx -> nat, tx: Tx)
    requires Distinct(pool) && shortId(tx) == id && forall x :: x in pool && shortId(x) == id ==> x == tx
    ensures FromPool(id, pool, shortId) == if tx in pool then Found(true, Some(tx)) else Found(false, None)
  {
    if pool != [] {
      var init, last := pool[..|pool| - 1], pool[|pool| - 1];
      assert pool == init + [last];
      DistinctConcat(init, [last]);
      PoolUnique(id, init, shortId, tx);
      assert last !in init;
    }
  }

  /** With no other candidate of its identifier, a transaction is found if it is anywhere. */
  lemma {:induction false} FoundUnique(id: nat, pool: seq<Tx>, extra: seq<Option<Tx>>, shortId: Tx -> nat, tx: Tx)
    requires Distinct(pool) && shortId(tx) == id
    requires forall x :: (x in pool || Some(x) in extra) && shortId(x) == id ==> x == tx
    ensures FromBoth(id, pool, extra, shortId) ==
      if tx in pool || Some(tx) in extra then Found(true, Some(tx)) else Found(false, None)
  {
    if extra == [] {
      PoolUnique(id, pool, shortId, tx);
    } else {
      var init, last := extra[..|extra| - 1], extra[|extra| - 1];
      assert extra == init + [last];
      FoundUnique(id, pool, init, shortId, tx);
    }
  }

  /** What the scans keep: prefilled slots stay, and a slot for a short identifier holds what the
      candidates so far make of it. */
  ghost predicate Scanning(a: Slots, a0: Slots, have: seq<bool>, ids: seq<nat>, slots: seq<nat>, pool: seq<Tx>,
                           extra: seq<Option<Tx>>, shortId: Tx -> nat) {
    && |a| == |a0| == |have| && |slots| == |ids| && Distinct(slots)
    && (forall j :: 0 <= j < |slots| ==> slots[j] < |a|)
    && (forall j :: 0 <= j < |slots| ==> Found(have[slots[j]], a[slots[j]]) == FromBoth(ids[j], pool, extra, shortId))
    && (forall k :: 0 <= k < |a| && k !in slots ==> a[k] == a0[k])
  }

  /** One more candidate, from the extra transactions or from the pool. */
  function More(pool: seq<Tx>, extra: seq<Option<Tx>>, tx: Tx, fromExtra: bool): (seq<Tx>, seq<Option<Tx>>) {
    if fromExtra then (pool, extra + [Some(tx)]) else (pool + [tx], extra)
  }

  lemma {:induction false} MoreFound(id: nat, pool: seq<Tx>, extra: seq<Option<Tx>>, shortId: Tx -> nat, tx: Tx,
                                     fromExtra: bool)
    requires !fromExtra ==> extra == []
    ensures var f := FromBoth(id, pool, extra, shortId); var (pool', extra') := More(pool, extra, tx, fromExtra);
            FromBoth(id, pool', extra', shortId) == if shortId(tx) == id then Offered(f, tx, fromExtra) else f
  {
    if fromExtra { assert (extra + [Some(tx)])[..|extra|] == extra; } else { assert (pool + [tx])[..|pool|] == pool; }
  }

  lemma {:induction false} ScanStep(a: Slots, a0: Slots, have: seq<bool>, ids: seq<nat>, slots: seq<nat>,
                                    pool: seq<Tx>, extra: seq<Option<Tx>>, shortId: Tx -> nat,
                                    j: nat, tx: Tx, fromExtra: bool)
    requires Scanning(a, a0, have, ids, slots, pool, extra, shortId) && (!fromExtra ==> extra == []) && j < |ids|
      && Distinct(ids) && shortId(tx) == ids[j]
    ensures var k := slots[j]; var f := Offered(Found(have[k], a[k]), tx, fromExtra);
            var (pool', extra') := More(pool, extra, tx, fromExtra);
            Scanning(a[k := f.tx], a0, have[k := f.have], ids, slots, pool', extra', shortId)
  {
    hide FromBoth, Offered;
    forall i | 0 <= i < |ids| ensures var (pool', extra') := More(pool, extra, tx, fromExtra);
      FromBoth(ids[i], pool', extra', shortId) ==
        if i == j then Offered(FromBoth(ids[i], pool, extra, shortId), tx, fromExtra)
        else FromBoth(ids[i], pool, extra, shortId)
    {
      MoreFound(ids[i], pool, extra, shortId, tx, fromExtra);
    }
  }

  lemma {:induction false} ScanSkip(a: Slots, a0: Slots, have: seq<bool>, ids: seq<nat>, slots: seq<nat>,
                                    pool: seq<Tx>, extra: seq<Option<Tx>>, shortId: Tx -> nat,
                                    tx: Tx, fromExtra: bool)
    requires Scanning(a, a0, have, ids, slots, pool, extra, shortId) && (!fromExtra ==> extra == [])
      && shortId(tx) !in ids
    ensures var (pool', extra') := More(pool, extra, tx, fromExtra);
            Scanning(a, a0, have, ids, slots, pool', extra', shortId)
  {
    hide FromBoth, Offered;
    forall i | 0 <= i < |ids| ensures var (pool', extra') := More(pool, extra, tx, fromExtra);
      FromBoth(ids[i], pool', extra', shortId) == FromBoth(ids[i], pool, extra, shortId)
    {
      MoreFound(ids[i], pool, extra, shortId, tx, fromExtra);
    }
  }

  /** One candidate transaction. */
  method Offer(tx: Tx, compare: bool, ghost a0: Slots, a1: Slots, have1: seq<bool>, count1: int, at: map<nat, nat>,
               ghost ids: seq<nat>, ghost slots: seq<nat>,
               shortId: Tx -> nat, ghost pool: seq<Tx>, ghost extra: seq<Option<Tx>>)
    returns (a: Slots, have: seq<bool>, count: int)
    requires Scanning(a1, a0, have1, ids, slots, pool, extra, shortId) && (!compare ==> extra == []) && Distinct(ids)
    requires at.Keys == ToSet(ids) && forall j :: 0 <= j < |ids| ==> at[ids[j]] == slots[j]
    ensures var (pool', extra') := More(pool, extra, tx, compare);
            Scanning(a, a0, have, ids, slots, pool', extra', shortId)
    ensures count - count1 == Filled(a, slots) - Filled(a1, slots)
  {
    hide Filled, Scanning, More;
    a, have, count := a1, have1, count1;
    var id := shortId(tx);
    if id in at {
      ghost var j := IdIndex(ids, id);
      ScanFacts(a, a0, have, ids, slots, pool, extra, shortId, j);
      ScanStep(a, a0, have, ids, slots, pool, extra, shortId, j, tx, compare);
      var k := at[id];
      if !have[k] {
        FilledSet(a, slots, j, Some(tx));
        a, have, count := a[k := Some(tx)], have[k := true], count + 1;
      } else if a[k].Some? && !(compare && a[k].value == tx) {
        FilledSet(a, slots, j, None);
        a, count := a[k := None], count - 1;
      }
    } else {
      ScanSkip(a, a0, have, ids, slots, pool, extra, shortId, tx, compare);
    }
  }

  lemma {:induction false} IdIndex(ids: seq<nat>, id: nat) returns (j: nat)
    requires id in ToSet(ids)
    ensures j < |ids| && ids[j] == id
  {
    j :| 0 <= j < |ids| && ids[j] == id;
  }

  lemma {:induction false} ScanFacts(a: Slots, a0: Slots, have: seq<bool>, ids: seq<nat>, slots: seq<nat>,
                                     pool: seq<Tx>, extra: seq<Option<Tx>>, shortId: Tx -> nat,
                                     j: nat)
    requires Scanning(a, a0, have, ids, slots, pool, extra, shortId) && j < |ids|
    ensures |a| == |have| == |a0| && |slots| == |ids| && Distinct(slots)
      && (forall i :: 0 <= i < |slots| ==> slots[i] < |a|)
    ensures !have[slots[j]] ==> a[slots[j]].None?
    ensures have[slots[j]] ==> have[slots[j] := true] == have
    ensures a[slots[j] := a[slots[j]]] == a
  {
    hide FromBoth;
    FoundShape(ids[j], pool, extra, shortId);
  }

  lemma {:induction false} ScanStart(a: Slots, ids: seq<nat>, slots: seq<nat>, shortId: Tx -> nat)
    requires FirstEmpty(a, slots, |a|) && |slots| == |ids|
    ensures Scanning(a, a, seq(|a|, _ => false), ids, slots, [], [], shortId) && Filled(a, slots) == 0
  {
    forall i, j | 0 <= i < j < |slots| ensures slots[i] != slots[j] {
      assert EmptyBefore(a, slots[i]) == i && EmptyBefore(a, slots[j]) == j;
    }
    NoneFilled(a, slots);
  }

  lemma {:induction false} NoneFilled(a: Slots, slots: seq<nat>)
    requires forall j :: 0 <= j < |slots| ==> slots[j] < |a| && a[slots[j]].None?
    ensures Filled(a, slots) == 0
  {
    if slots != [] { NoneFilled(a, slots[1..]); }
  }

  /** As many filled slots as slots: none is empty. */
  lemma {:induction false} AllFilled(a: Slots, slots: seq<nat>)
    requires (forall j :: 0 <= j < |slots| ==> slots[j] < |a|) && Filled(a, slots) >= |slots|
    ensures Filled(a, slots) == |slots| && forall j :: 0 <= j < |slots| ==> a[slots[j]].Some?
  {
    if slots != [] {
      FilledBound(a, slots[1..]);
      AllFilled(a, slots[1..]);
      forall j | 0 < j < |slots| ensures a[slots[j]].Some? { assert slots[1..][j - 1] == slots[j]; }
    }
  }

  lemma {:induction false} FilledBound(a: Slots, slots: seq<nat>)
    requires forall j :: 0 <= j < |slots| ==> slots[j] < |a|
    ensures Filled(a, slots) <= |slots|
  {
    if slots != [] { FilledBound(a, slots[1..]); }
  }

  /** How many of the identifiers have a transaction after these candidates. */
  function Matched(ids: seq<nat>, pool: seq<Tx>, extra: seq<Option<Tx>>, shortId: Tx -> nat): nat {
    if ids == [] then 0
    else (if FromBoth(ids[0], pool, extra, shortId).tx.Some? then 1 else 0) + Matched(ids[1..], pool, extra, shortId)
  }

  /** A counter that starts at `count0` has not reached the number of identifiers. */
  predicate GoesOn(ids: seq<nat>, pool: seq<Tx>, extra: seq<Option<Tx>>, shortId: Tx -> nat, count0: int) {
    count0 + Matched(ids, pool, extra, shortId) != |ids|
  }

  /** The scan of the pool ends after `np` transactions: at the first where the counter is reached. */
  ghost predicate PoolEnds(ids: seq<nat>, pool: seq<Tx>, np: nat, shortId: Tx -> nat, count0: int) {
    && np <= |pool| && (forall i :: 0 < i < np ==> GoesOn(ids, pool[..i], [], shortId, count0))
    && (np < |pool| ==> 0 < np && !GoesOn(ids, pool[..np], [], shortId, count0))
  }

  /** The scan of the extra transactions ends after `ne` places; an empty place is passed without a test. */
  ghost predicate ExtraEnds(ids: seq<nat>, pool: seq<Tx>, extra: seq<Option<Tx>>, ne: nat, shortId: Tx -> nat,
                            count0: int) {
    && ne <= |extra|
    && (forall i :: 0 < i < ne && extra[i - 1].Some? ==> GoesOn(ids, pool, extra[..i], shortId, count0))
    && (ne < |extra| ==> 0 < ne && extra[ne - 1].Some? && !GoesOn(ids, pool, extra[..ne], shortId, count0))
  }

  /** The scans look at exactly `np` and `ne` candidates. */
  ghost predicate Looked(ids: seq<nat>, pool: seq<Tx>, extra: seq<Option<Tx>>, np: nat, ne: nat, shortId: Tx -> nat,
                         count0: int) {
    PoolEnds(ids, pool, np, shortId, count0) && ExtraEnds(ids, pool[..np], extra, ne, shortId, count0)
  }

  lemma {:induction false} FilledMatched(a: Slots, a0: Slots, have: seq<bool>, ids: seq<nat>, slots: seq<nat>,
                                         pool: seq<Tx>, extra: seq<Option<Tx>>, shortId: Tx -> nat)
    requires Scanning(a, a0, have, ids, slots, pool, extra, shortId)
    ensures Filled(a, slots) == Matched(ids, pool, extra, shortId)
  {
    hide FromBoth, Distinct;
    FilledCounts(a, ids, slots, pool, extra, shortId);
  }

  lemma {:induction false} FilledCounts(a: Slots, ids: seq<nat>, slots: seq<nat>, pool: seq<Tx>,
                                        extra: seq<Option<Tx>>, shortId: Tx -> nat)
    requires |slots| == |ids| && forall j :: 0 <= j < |slots| ==> slots[j] < |a|
    requires forall j :: 0 <= j < |slots| ==> a[slots[j]] == FromBoth(ids[j], pool, extra, shortId).tx
    ensures Filled(a, slots) == Matched(ids, pool, extra, shortId)
  {
    hide FromBoth;
    if ids != [] { FilledCounts(a, ids[1..], slots[1..], pool, extra, shortId); }
  }

  /** As many matches as identifiers: each has one. */
  lemma {:induction false} AllMatched(ids: seq<nat>, pool: seq<Tx>, extra: seq<Option<Tx>>, shortId: Tx -> nat)
    ensures Matched(ids, pool, extra, shortId) <= |ids|
    ensures Matched(ids, pool, extra, shortId) == |ids| ==>
      forall j :: 0 <= j < |ids| ==> FromBoth(ids[j], pool, extra, shortId).tx.Some?
  {
    hide FromBoth;
    if ids != [] {
      AllMatched(ids[1..], pool, extra, shortId);
      if Matched(ids, pool, extra, shortId) == |ids| {
        forall j | 0 <= j < |ids| ensures FromBoth(ids[j], pool, extra, shortId).tx.Some? {
          assert 0 < j ==> ids[1..][j - 1] == ids[j];
        }
      }
    }
  }

  /** Outside 1, ..., |ids| the counter at the start does no harm: a scan that stops early is complete. */
  lemma {:induction false} StopsComplete(ids: seq<nat>, pool: seq<Tx>, extra: seq<Option<Tx>>, np: nat, ne: nat,
                                         shortId: Tx -> nat, count0: int)
    requires Looked(ids, pool, extra, np, ne, shortId, count0) && !(1 <= count0 <= |ids|)
    ensures StopsFull(ids, pool, extra, np, ne, shortId)
  {
    hide FromBoth, Matched;
    AllMatched(ids, pool[..np], [], shortId);
    AllMatched(ids, pool[..np], extra[..ne], shortId);
  }

  /** The scan of the pool, in its random order. */
  method ScanPool(a0: Slots, at: map<nat, nat>, ghost ids: seq<nat>, ghost slots: seq<nat>, shortId: Tx -> nat,
                  pool: seq<Tx>, count0: int)
    returns (a: Slots, have: seq<bool>, count: int, ghost np: nat)
    requires FirstEmpty(a0, slots, |a0|) && |slots| == |ids| && Distinct(ids)
    requires at.Keys == ToSet(ids) && forall j :: 0 <= j < |ids| ==> at[ids[j]] == slots[j]
    ensures PoolEnds(ids, pool, np, shortId, count0)
    ensures Scanning(a, a0, have, ids, slots, pool[..np], [], shortId)
    ensures (forall j :: 0 <= j < |slots| ==> slots[j] < |a|) && count == count0 + Filled(a, slots)
  {
    hide Filled, Scanning, FirstEmpty, More, FromBoth, FromPool, Matched, Distinct, ToSet;
    ScanStart(a0, ids, slots, shortId);
    KeyCount(at, ids);
    have := seq(|a0|, _ => false);
    a, count, np := a0, count0, 0;
    ScanBounds(a, a0, have, ids, slots, [], [], shortId);
    var i := 0;
    while i < |pool|
      invariant 0 <= i <= |pool| && np == i && Scanning(a, a0, have, ids, slots, pool[..i], [], shortId)
      invariant (forall j :: 0 <= j < |slots| ==> slots[j] < |a|) && count == count0 + Filled(a, slots)
      invariant forall k :: 0 < k <= i ==> GoesOn(ids, pool[..k], [], shortId, count0)
    {
      MorePool(pool, i);
      a, have, count := Offer(pool[i], false, a0, a, have, count, at, ids, slots, shortId, pool[..i], []);
      i := i + 1;
      np := i;
      ScanBounds(a, a0, have, ids, slots, pool[..i], [], shortId);
      FilledMatched(a, a0, have, ids, slots, pool[..i], [], shortId);
      if count == |at| { break; }
    }
  }

  /** The scan of the extra transactions. */
  method ScanExtra(ghost a0: Slots, a1: Slots, have1: seq<bool>, at: map<nat, nat>, ghost ids: seq<nat>,
                   ghost slots: seq<nat>, shortId: Tx -> nat, ghost pool: seq<Tx>, extra: seq<Option<Tx>>,
                   ghost count0: int, count1: int)
    returns (a: Slots, count: int, ghost have: seq<bool>, ghost ne: nat)
    requires Scanning(a1, a0, have1, ids, slots, pool, [], shortId) && Distinct(ids)
    requires at.Keys == ToSet(ids) && forall j :: 0 <= j < |ids| ==> at[ids[j]] == slots[j]
    requires (forall j :: 0 <= j < |slots| ==> slots[j] < |a1|) && count1 == count0 + Filled(a1, slots)
    ensures ExtraEnds(ids, pool, extra, ne, shortId, count0)
    ensures Scanning(a, a0, have, ids, slots, pool, extra[..ne], shortId)
    ensures (forall j :: 0 <= j < |slots| ==> slots[j] < |a|) && count == count0 + Filled(a, slots)
  {
    hide Filled, Scanning, More, FromBoth, FromPool, Matched, Distinct, ToSet;
    KeyCount(at, ids);
    var had := have1;
    a, count, ne := a1, count1, 0;
    var i := 0;
    assert extra[..0] == [];
    while i < |extra|
      invariant 0 <= i <= |extra| && ne == i && Scanning(a, a0, had, ids, slots, pool, extra[..i], shortId)
      invariant (forall j :: 0 <= j < |slots| ==> slots[j] < |a|) && count == count0 + Filled(a, slots)
      invariant forall k :: 0 < k <= i && extra[k - 1].Some? ==> GoesOn(ids, pool, extra[..k], shortId, count0)
    {
      MoreExtra(a, a0, had, ids, slots, pool, extra, i, shortId);
      if extra[i].Some? {
        a, had, count := Offer(extra[i].value, true, a0, a, had, count, at, ids, slots, shortId, pool, extra[..i]);
        ne := i + 1;
        ScanBounds(a, a0, had, ids, slots, pool, extra[..ne], shortId);
        FilledMatched(a, a0, had, ids, slots, pool, extra[..ne], shortId);
        if count == |at| { break; }
      }
      i := i + 1;
      ne := i;
    }
    have := had;
  }

  lemma {:induction false} KeyCount(at: map<nat, nat>, ids: seq<nat>)
    requires at.Keys == ToSet(ids) && Distinct(ids)
    ensures |at| == |ids|
  {
    hide Distinct, ToSet;
    DistinctCard(ids);
    assert |at| == |at.Keys|;
  }

  /** Both scans. They stop early only when the counter has reached the number of short identifiers; `np` and
      `ne` candidates were looked at. */
  method ScanPools(a0: Slots, at: map<nat, nat>, ghost ids: seq<nat>, ghost slots: seq<nat>, shortId: Tx -> nat,
                   pool: seq<Tx>, extra: seq<Option<Tx>>,
                   count0: int)
    returns (a: Slots, count: int, ghost have: seq<bool>, ghost np: nat, ghost ne: nat)
    requires FirstEmpty(a0, slots, |a0|) && |slots| == |ids| && Distinct(ids)
    requires at.Keys == ToSet(ids) && forall j :: 0 <= j < |ids| ==> at[ids[j]] == slots[j]
    ensures np <= |pool| && ne <= |extra| && Scanning(a, a0, have, ids, slots, pool[..np], extra[..ne], shortId)
    ensures (forall j :: 0 <= j < |slots| ==> slots[j] < |a|) && count == count0 + Filled(a, slots)
    ensures Looked(ids, pool, extra, np, ne, shortId, count0)
    ensures !(1 <= count0 <= |ids|) ==> StopsFull(ids, pool, extra, np, ne, shortId)
  {
    hide Filled, Scanning, FirstEmpty, FromBoth, GoesOn, StopsFull, Distinct, ToSet;
    var had;
    a, had, count, np := ScanPool(a0, at, ids, slots, shortId, pool, count0);
    a, count, have, ne := ScanExtra(a0, a, had, at, ids, slots, shortId, pool[..np], extra, count0, count);
    if !(1 <= count0 <= |ids|) { StopsComplete(ids, pool, extra, np, ne, shortId, count0); }
  }

  /** A scan that stops early has found something for every short identifier. */
  ghost predicate StopsFull(ids: seq<nat>, pool: seq<Tx>, extra: seq<Option<Tx>>, np: nat, ne: nat, shortId: Tx -> nat)
    requires np <= |pool| && ne <= |extra|
  {
    && (np < |pool| ==> forall j :: 0 <= j < |ids| ==> FromBoth(ids[j], pool[..np], [], shortId).tx.Some?)
    && (ne < |extra| ==> forall j :: 0 <= j < |ids| ==> FromBoth(ids[j], pool[..np], extra[..ne], shortId).tx.Some?)
  }

  lemma {:induction false} MorePool(pool: seq<Tx>, i: nat)
    requires i < |pool|
    ensures More(pool[..i], [], pool[i], false) == (pool[..i + 1], [])
  {
    assert pool[..i + 1] == pool[..i] + [pool[i]];
  }

  lemma {:induction false} MoreExtra(a: Slots, a0: Slots, have: seq<bool>, ids: seq<nat>, slots: seq<nat>,
                                     pool: seq<Tx>, extra: seq<Option<Tx>>, i: nat,
                                     shortId: Tx -> nat)
    requires i < |extra| && Scanning(a, a0, have, ids, slots, pool, extra[..i], shortId)
    ensures extra[i].Some? ==> More(pool, extra[..i], extra[i].value, true) == (pool, extra[..i + 1])
    ensures extra[i].None? ==> Scanning(a, a0, have, ids, slots, pool, extra[..i + 1], shortId)
  {
    assert extra[..i + 1] == extra[..i] + [extra[i]];
    if extra[i].None? {
      forall id: nat ensures FromBoth(id, pool, extra[..i + 1], shortId) == FromBoth(id, pool, extra[..i], shortId) {
        assert extra[..i + 1][..i] == extra[..i];
      }
    }
  }

  lemma {:induction false} ScanBounds(a: Slots, a0: Slots, have: seq<bool>, ids: seq<nat>, slots: seq<nat>,
                                      pool: seq<Tx>, extra: seq<Option<Tx>>,
                                      shortId: Tx -> nat)
    requires Scanning(a, a0, have, ids, slots, pool, extra, shortId)
    ensures |a| == |a0| && forall j :: 0 <= j < |slots| ==> slots[j] < |a|
  {
  }

  // ---------------------------------------------------------------- the object

  /** What `InitData` leaves when it succeeds: prefilled slots filled, every other slot as the candidates
      looked at make it. */
  ghost predicate Initialised(a: Slots, c: CompactBlock, s: Scan, pool: seq<Tx>, extra: seq<Option<Tx>>,
                              shortId: Tx -> nat) {
    && |a| == |s.placed| == c.BlockTxCount() && PlacedFirst(s.placed, c.prefilled, |c.prefilled|)
    && FirstEmpty(s.placed, s.slots, |s.placed|) && |s.slots| == |c.shortIds| && s.np <= |pool| && s.ne <= |extra|
    && Scanning(a, s.placed, s.have, c.shortIds, s.slots, pool[..s.np], extra[..s.ne], shortId)
  }

  /** A slot for a short identifier holds a transaction if and only if that is the only candidate looked at, and is
      empty if and only if there was none or there were two. */
  ghost predicate SlotsMeant(a: Slots, ids: seq<nat>, slots: seq<nat>, pool: seq<Tx>, extra: seq<Option<Tx>>,
                             shortId: Tx -> nat) {
    && |slots| == |ids| && (forall j :: 0 <= j < |slots| ==> slots[j] < |a|)
    && forall j :: 0 <= j < |ids| ==>
         && (forall t: Tx :: a[slots[j]] == Some(t) <==> OnlyCandidate(t, ids[j], pool, extra, shortId))
         && (a[slots[j]] == None <==>
               || (forall t: Tx :: !IsCandidate(t, ids[j], pool, extra, shortId))
               || TwoCandidates(ids[j], pool, extra, shortId))
  }

  ghost predicate TwoCandidates(id: nat, pool: seq<Tx>, extra: seq<Option<Tx>>, shortId: Tx -> nat) {
    exists t: Tx, u: Tx ::
      t != u && IsCandidate(t, id, pool, extra, shortId) && IsCandidate(u, id, pool, extra, shortId)
  }

  lemma {:induction false} SlotMeant(id: nat, pool: seq<Tx>, extra: seq<Option<Tx>>, shortId: Tx -> nat)
    requires Distinct(pool)
    ensures var x := FromBoth(id, pool, extra, shortId).tx;
            && (forall t: Tx :: x == Some(t) <==> OnlyCandidate(t, id, pool, extra, shortId))
            && (x == None <==>
                  || (forall t: Tx :: !IsCandidate(t, id, pool, extra, shortId))
                  || TwoCandidates(id, pool, extra, shortId))
  {
    hide FromBoth, IsCandidate, Distinct;
    var x := FromBoth(id, pool, extra, shortId).tx;
    forall t: Tx ensures x == Some(t) <==> OnlyCandidate(t, id, pool, extra, shortId) {
      FoundExactly(id, pool, extra, shortId, t);
      if PoolCollides(id, pool, shortId) { CollidingTwo(id, pool, extra, shortId); }
    }
    if x.Some? { assert OnlyCandidate(x.value, id, pool, extra, shortId); }
    if t: Tx :| IsCandidate(t, id, pool, extra, shortId) {
      assert x.None? ==> !OnlyCandidate(t, id, pool, extra, shortId);
    }
  }

  lemma {:induction false} CollidingTwo(id: nat, pool: seq<Tx>, extra: seq<Option<Tx>>, shortId: Tx -> nat)
    requires Distinct(pool) && PoolCollides(id, pool, shortId)
    ensures TwoCandidates(id, pool, extra, shortId)
  {
    var i, j :| 0 <= i < j < |pool| && shortId(pool[i]) == id == shortId(pool[j]);
    assert IsCandidate(pool[i], id, pool, extra, shortId) && IsCandidate(pool[j], id, pool, extra, shortId);
  }

  lemma {:induction false} ScanMeant(a: Slots, a0: Slots, have: seq<bool>, ids: seq<nat>, slots: seq<nat>,
                                     pool: seq<Tx>, extra: seq<Option<Tx>>, shortId: Tx -> nat)
    requires Scanning(a, a0, have, ids, slots, pool, extra, shortId) && Distinct(pool)
    ensures SlotsMeant(a, ids, slots, pool, extra, shortId)
  {
    hide FromBoth, Distinct, OnlyCandidate, IsCandidate, TwoCandidates;
    forall j | 0 <= j < |ids|
      ensures (forall t: Tx :: a[slots[j]] == Some(t) <==> OnlyCandidate(t, ids[j], pool, extra, shortId))
      ensures a[slots[j]] == None <==>
        (forall t: Tx :: !IsCandidate(t, ids[j], pool, extra, shortId)) || TwoCandidates(ids[j], pool, extra, shortId)
    {
      SlotMeant(ids[j], pool, extra, shortId);
      assert Found(have[slots[j]], a[slots[j]]) == FromBoth(ids[j], pool, extra, shortId);
    }
  }

  /** A trace of `InitData`: the slots after prefilling, those for short identifiers, which of them were
      matched, and how many candidates were looked at. */
  datatype Scan = Scan(placed: Slots, slots: seq<nat>, have: seq<bool>, np: nat, ne: nat)

  predicate WithinLimits(c: CompactBlock, maxTxs: nat) {
    c.header != NULL_HEADER && 0 < c.BlockTxCount() <= maxTxs
  }

  /** `InitData` gets to the short identifiers. */
  ghost predicate Acceptable(c: CompactBlock, maxTxs: nat, isNull: Tx -> bool) {
    WithinLimits(c, maxTxs) && WellPlaced(c, isNull, |c.prefilled|)
  }

  /** And pairs every short identifier with a slot. */
  ghost predicate Accepted(c: CompactBlock, maxTxs: nat, isNull: Tx -> bool, crowded: nat -> bool) {
    && Acceptable(c, maxTxs, isNull)
    && Distinct(c.shortIds) && forall i :: 0 <= i < |c.shortIds| ==> !crowded(i)
  }

  class PartiallyDownloadedBlock {
    var header: nat
    var available: Slots
    var prefilledCount: nat
    var mempoolCount: int

    constructor ()
      ensures header == NULL_HEADER && available == [] && mempoolCount == 0
    {
      header, available, prefilledCount, mempoolCount := NULL_HEADER, [], 0, 0;
    }

    /** `InitData` on a deserialised compact block. */
    method InitData(c: CompactBlock, maxTxs: nat, shortId: Tx -> nat, isNull: Tx -> bool, crowded: nat -> bool,
                    pool: seq<Tx>, extra: seq<Option<Tx>>)
      returns (status: ReadStatus, ghost scan: Scan)
      requires c.BlockTxCount() <= UINT16_MAX
      modifies this
      ensures status == READ_STATUS_INVALID <==>
        old(header) != NULL_HEADER || old(available) != [] || !Acceptable(c, maxTxs, isNull)
      ensures status == READ_STATUS_OK || status == READ_STATUS_FAILED || status == READ_STATUS_INVALID
      ensures status == READ_STATUS_OK ==> Distinct(c.shortIds) && forall i :: 0 <= i < |c.shortIds| ==> !crowded(i)
      ensures status == READ_STATUS_FAILED ==>
        !(Distinct(c.shortIds) && forall i :: 0 <= i < |c.shortIds| ==> !crowded(i))
      ensures status == READ_STATUS_OK ==> header == c.header && Initialised(available, c, scan, pool, extra, shortId)
      ensures status == READ_STATUS_OK ==>
        (forall j :: 0 <= j < |scan.slots| ==> scan.slots[j] < |available|)
          && mempoolCount == old(mempoolCount) + Filled(available, scan.slots)
      ensures status == READ_STATUS_OK ==>
        && prefilledCount == |c.prefilled|
        && Looked(c.shortIds, pool, extra, scan.np, scan.ne, shortId, old(mempoolCount))
        && (!(1 <= old(mempoolCount) <= |c.shortIds|) ==>
              StopsFull(c.shortIds, pool, extra, scan.np, scan.ne, shortId))
      ensures status == READ_STATUS_OK && Distinct(pool) ==>
        SlotsMeant(available, c.shortIds, scan.slots, pool[..scan.np], extra[..scan.ne], shortId)
      ensures status != READ_STATUS_OK ==> mempoolCount == old(mempoolCount)
      ensures status == READ_STATUS_FAILED ==>
        && header == c.header && prefilledCount == |c.prefilled|
        && |available| == c.BlockTxCount() && PlacedFirst(available, c.prefilled, |c.prefilled|)
      ensures status == READ_STATUS_INVALID ==>
        if old(header) != NULL_HEADER || old(available) != [] || !WithinLimits(c, maxTxs) then
          header == old(header) && available == old(available) && prefilledCount == old(prefilledCount)
        else header == c.header && PlacedUntil(available, c, isNull) && prefilledCount == old(prefilledCount)
    {
      hide Filled, Scanning, FirstEmpty, PlacedFirst, PlacedUntil, WellPlaced, StopsFull, Looked, Distinct, SlotsMeant;
      status, scan := READ_STATUS_INVALID, Scan([], [], [], 0, 0);
      if c.header == NULL_HEADER || (c.shortIds == [] && c.prefilled == []) { return; }
      if c.BlockTxCount() > maxTxs { return; }
      if header != NULL_HEADER || available != [] { return; }
      header := c.header;
      var ok;
      ok, available := PlacePrefilled(c, isNull);
      if !ok { return; }
      prefilledCount := |c.prefilled|;
      ghost var a0, slots, have, np, ne := available, [], [], 0, 0;
      var at;
      ok, at, slots := AssignSlots(c.shortIds, available, crowded);
      if !ok { return READ_STATUS_FAILED, scan; }
      available, mempoolCount, have, np, ne :=
        ScanPools(available, at, c.shortIds, slots, shortId, pool, extra, mempoolCount);
      ScanBounds(available, a0, have, c.shortIds, slots, pool[..np], extra[..ne], shortId);
      if Distinct(pool) {
        PrefixDistinct(pool, np);
        ScanMeant(available, a0, have, c.shortIds, slots, pool[..np], extra[..ne], shortId);
      }
      scan := Scan(a0, slots, have, np, ne);
      status := READ_STATUS_OK;
    }

    /** `FillBlock`: the requested transactions go into the empty slots, in order. With too few of them the
        slots before the first gap left open are moved out and the header stays; with too many nothing stays. */
    method FillBlock(missing: seq<Tx>, check: (nat, seq<Tx>) -> ReadStatus) returns (status: ReadStatus, vtx: seq<Tx>)
      modifies this`header, this`available
      ensures old(header) == NULL_HEADER ==>
        status == READ_STATUS_INVALID && header == old(header) && available == old(available)
      ensures old(header) != NULL_HEADER ==>
        var a := old(available); var gaps := EmptyBefore(a, |a|); var r := Assembled(a, missing);
        && (r.Some? <==> |missing| == gaps)
        && (r.Some? ==> vtx == r.value && status == check(old(header), vtx))
        && (r.None? ==> status == READ_STATUS_INVALID)
        && (|missing| >= gaps ==> header == NULL_HEADER && available == [])
        && (|missing| < gaps ==> header == old(header) && MovedOut(a, available, |missing|))
    {
      hide EmptyBefore, Assembled;
      vtx := [];
      if header == NULL_HEADER { return READ_STATUS_INVALID, []; }
      ghost var a := available;
      var blockHeader, used := header, 0;
      AssembleStart(a, missing);
      NoneBefore(a);
      for i := 0 to |available|
        invariant |available| == |a| && available[i..] == a[i..] && header == old(header)
        invariant forall k :: 0 <= k < i ==> available[k].None?
        invariant used == EmptyBefore(a, i) <= |missing|
        invariant Assembled(a, missing) == After(vtx, Assembled(a[i..], missing[used..]))
      {
        assert available[i] == available[i..][0] == a[i];
        AssembleStep(a, missing, i, used, vtx);
        OneMoreBefore(a, i);
        if available[i].None? {
          if |missing| <= used {
            StopsHere(a, available, i, used);
            return READ_STATUS_INVALID, [];
          }
          vtx := vtx + [missing[used]];
          used := used + 1;
        } else {
          vtx := vtx + [available[i].value];
          available := available[i := None];
        }
      }
      assert a[|a|..] == [];
      NothingLeft(missing[used..]);
      header, available := NULL_HEADER, [];
      if |missing| != used { return READ_STATUS_INVALID, vtx; }
      status := check(blockHeader, vtx);
    }
  }

  lemma {:induction false} PrefixDistinct(pool: seq<Tx>, n: nat)
    requires Distinct(pool) && n <= |pool|
    ensures Distinct(pool[..n])
  {
  }

  /** The slots up to the first gap that `n` transactions do not reach are moved out, the others stay. */
  ghost predicate MovedOut(a: Slots, b: Slots, n: nat) {
    |b| == |a| && forall k :: 0 <= k < |a| ==> b[k] == if EmptyBefore(a, k + 1) <= n then None else a[k]
  }

  lemma {:induction false} StopsHere(a: Slots, b: Slots, i: nat, n: nat)
    requires i < |a| == |b| && a[i].None? && EmptyBefore(a, i) == n && EmptyBefore(a, i + 1) == n + 1
    requires b[i..] == a[i..] && forall k :: 0 <= k < i ==> b[k].None?
    ensures MovedOut(a, b, n) && n < EmptyBefore(a, |a|)
  {
    hide EmptyBefore;
    EmptyGrows(a, i + 1, |a|);
    forall k | 0 <= k < |a| ensures b[k] == if EmptyBefore(a, k + 1) <= n then None else a[k] {
      if k < i {
        EmptyGrows(a, k + 1, i);
      } else {
        EmptyGrows(a, i + 1, k + 1);
        assert b[k] == b[i..][k - i] == a[i..][k - i];
      }
    }
  }

  lemma {:induction false} NoneBefore(a: Slots)
    ensures EmptyBefore(a, 0) == 0
  {
  }

  lemma {:induction false} OneMoreBefore(a: Slots, i: nat)
    requires i < |a|
    ensures EmptyBefore(a, i + 1) == EmptyBefore(a, i) + if a[i].None? then 1 else 0
  {
  }

  lemma {:induction false} NothingLeft(missing: seq<Tx>)
    ensures Assembled([], missing) == if missing == [] then Some([]) else None
  {
  }

  /** Two blocks through one object: when the second is accepted, and that the counter then includes what the
      first block found. */
  method UseTwice(c1: CompactBlock, c2: CompactBlock, maxTxs: nat, shortId: Tx -> nat, isNull: Tx -> bool,
                  crowded: nat -> bool, pool: seq<Tx>, extra: seq<Option<Tx>>, missing: seq<Tx>,
                  check: (nat, seq<Tx>) -> ReadStatus)
    returns (count: int, ok: bool, first: Slots, second: Slots, ghost s1: Scan, ghost s2: Scan)
    requires c1.BlockTxCount() <= UINT16_MAX && c2.BlockTxCount() <= UINT16_MAX
    ensures Accepted(c1, maxTxs, isNull, crowded) ==> Initialised(first, c1, s1, pool, extra, shortId)
    ensures ok <==>
      && Accepted(c1, maxTxs, isNull, crowded) && |missing| >= EmptyBefore(first, |first|)
      && Accepted(c2, maxTxs, isNull, crowded)
    ensures ok ==>
      && Initialised(second, c2, s2, pool, extra, shortId)
      && count == Matched(c1.shortIds, pool[..s1.np], extra[..s1.ne], shortId)
           + Matched(c2.shortIds, pool[..s2.np], extra[..s2.ne], shortId)
  {
    hide Filled, Initialised, WellPlaced, EmptyBefore, Assembled, MovedOut, StopsFull, Looked, Matched, Distinct;
    var p := new PartiallyDownloadedBlock();
    count, ok, first, second, s1, s2 := 0, false, [], [], Scan([], [], [], 0, 0), Scan([], [], [], 0, 0);
    var status, vtx;
    status, s1 := p.InitData(c1, maxTxs, shortId, isNull, crowded, pool, extra);
    if status != READ_STATUS_OK { return; }
    InitMatched(p.available, c1, s1, pool, extra, shortId);
    first := p.available;
    status, vtx := p.FillBlock(missing, check);
    status, s2 := p.InitData(c2, maxTxs, shortId, isNull, crowded, pool, extra);
    if status != READ_STATUS_OK { return; }
    InitMatched(p.available, c2, s2, pool, extra, shortId);
    second, count, ok := p.available, p.mempoolCount, true;
  }

  lemma {:induction false} InitMatched(a: Slots, c: CompactBlock, s: Scan, pool: seq<Tx>, extra: seq<Option<Tx>>,
                                       shortId: Tx -> nat)
    requires Initialised(a, c, s, pool, extra, shortId)
    ensures (forall j :: 0 <= j < |s.slots| ==> s.slots[j] < |a|) && s.np <= |pool| && s.ne <= |extra|
    ensures Filled(a, s.slots) == Matched(c.shortIds, pool[..s.np], extra[..s.ne], shortId)
  {
    hide PlacedFirst, FirstEmpty, Scanning, Filled, Matched;
    ScanBounds(a, s.placed, s.have, c.shortIds, s.slots, pool[..s.np], extra[..s.ne], shortId);
    FilledMatched(a, s.placed, s.have, c.shortIds, s.slots, pool[..s.np], extra[..s.ne], shortId);
  }

  /** The block from the slots and the transactions for the empty ones, which must be just enough. */
  function Assembled(a: Slots, missing: seq<Tx>): Option<seq<Tx>>
    decreases |a|
  {
    if a == [] then (if missing == [] then Some([]) else None)
    else if a[0].None? && missing == [] then None
    else
      var x := if a[0].Some? then a[0].value else missing[0];
      match Assembled(a[1..], if a[0].Some? then missing else missing[1..])
      case None => None
      case Some(rest) => Some([x] + rest)
  }

  ghost function After(vtx: seq<Tx>, r: Option<seq<Tx>>): Option<seq<Tx>> {
    if r.None? then None else Some(vtx + r.value)
  }

  lemma {:induction false} AssembleStart(a: Slots, missing: seq<Tx>)
    ensures Assembled(a, missing) == After([], Assembled(a[0..], missing[0..]))
  {
    assert a[0..] == a && missing[0..] == missing;
    var r := Assembled(a, missing);
    if r.Some? { assert [] + r.value == r.value; }
  }

  lemma {:induction false} AssembleStep(a: Slots, missing: seq<Tx>, i: nat, used: nat, vtx: seq<Tx>)
    requires i < |a| && used <= |missing|
    ensures a[i].Some? ==>
      After(vtx, Assembled(a[i..], missing[used..])) ==
        After(vtx + [a[i].value], Assembled(a[i + 1..], missing[used..]))
    ensures a[i].None? && used == |missing| ==> Assembled(a[i..], missing[used..]) == None
    ensures a[i].None? && used < |missing| ==>
      After(vtx, Assembled(a[i..], missing[used..])) ==
        After(vtx + [missing[used]], Assembled(a[i + 1..], missing[used + 1..]))
  {
    assert a[i..][0] == a[i] && a[i..][1..] == a[i + 1..];
    if used < |missing| { assert missing[used..][0] == missing[used] && missing[used..][1..] == missing[used + 1..]; }
    var x := if a[i].Some? then a[i].value else if used < |missing| then missing[used] else 0;
    var r := Assembled(a[i + 1..],
      if a[i].Some? then missing[used..] else if used < |missing| then missing[used + 1..] else []);
    if r.Some? { assert vtx + ([x] + r.value) == (vtx + [x]) + r.value; }
  }

  // ---------------------------------------------------------------- reconstruction

  /** The transactions to request: those of the empty slots, in order. */
  function MissingOf(a: Slots, vtx: seq<Tx>): seq<Tx>
    requires |a| == |vtx|
  {
    if a == [] then [] else (if a[0].None? then [vtx[0]] else []) + MissingOf(a[1..], vtx[1..])
  }

  /** Correct slots and the missing transactions make the block. */
  lemma {:induction false} AssembleExact(a: Slots, vtx: seq<Tx>)
    requires |a| == |vtx| && forall k :: 0 <= k < |a| && a[k].Some? ==> a[k].value == vtx[k]
    ensures Assembled(a, MissingOf(a, vtx)) == Some(vtx)
  {
    if a == [] {
      assert vtx == [];
    } else {
      AssembleExact(a[1..], vtx[1..]);
      assert vtx == [vtx[0]] + vtx[1..];
      if a[0].None? { assert MissingOf(a, vtx)[1..] == MissingOf(a[1..], vtx[1..]); }
      else { assert MissingOf(a, vtx) == MissingOf(a[1..], vtx[1..]); }
    }
  }

  /** `c` describes the block `vtx`: prefilled transactions are where they belong, and the short
      identifiers are those of the others, in order. `a0` has the prefilled slots filled. */
  ghost predicate Describes(c: CompactBlock, vtx: seq<Tx>, a0: Slots, shortId: Tx -> nat) {
    && |a0| == |vtx| == c.BlockTxCount()
    && (forall k :: 0 <= k < |vtx| && a0[k].Some? ==> a0[k].value == vtx[k])
    && (forall k :: 0 <= k < |vtx| && a0[k].None? ==>
      EmptyBefore(a0, k) < |c.shortIds| && shortId(vtx[k]) == c.shortIds[EmptyBefore(a0, k)])
  }

  /** No transaction of the pools shares a short identifier with a different one of the block. */
  ghost predicate Separates(vtx: seq<Tx>, pool: seq<Tx>, extra: seq<Option<Tx>>, shortId: Tx -> nat) {
    forall i, x :: 0 <= i < |vtx| && (x in pool || Some(x) in extra) && shortId(x) == shortId(vtx[i]) ==> x == vtx[i]
  }

  /** If short identifiers separate, what `InitData` found is what the block has, and filling in the
      rest rebuilds the block. */
  lemma {:induction false} Reconstructs(a: Slots, c: CompactBlock, s: Scan, pool: seq<Tx>, extra: seq<Option<Tx>>,
                                        vtx: seq<Tx>, shortId: Tx -> nat)
    requires Initialised(a, c, s, pool, extra, shortId) && Describes(c, vtx, s.placed, shortId)
      && Separates(vtx, pool, extra, shortId)
    ensures Assembled(a, MissingOf(a, vtx)) == Some(vtx)
  {
    hide FromBoth, Assembled, MissingOf;
    forall k | 0 <= k < |a| && a[k].Some? ensures a[k].value == vtx[k] {
      if k in s.slots {
        var j :| 0 <= j < |s.slots| && s.slots[j] == k;
        FoundShape(c.shortIds[j], pool[..s.np], extra[..s.ne], shortId);
        assert EmptyBefore(s.placed, k) == j;
      } else {
        assert a[k] == s.placed[k];
      }
    }
    AssembleExact(a, vtx);
  }

  /** A slot is wrong only if the right transaction was not looked at. */
  lemma {:induction false} WrongSlot(a: Slots, c: CompactBlock, s: Scan, pool: seq<Tx>, extra: seq<Option<Tx>>,
                                     vtx: seq<Tx>, shortId: Tx -> nat, k: nat)
    requires Initialised(a, c, s, pool, extra, shortId) && Describes(c, vtx, s.placed, shortId)
    requires k < |a|
    ensures a[k].Some? && a[k].value != vtx[k] ==> vtx[k] !in pool[..s.np] && Some(vtx[k]) !in extra[..s.ne]
  {
    hide FromBoth, PlacedFirst, OnlyCandidate;
    if s.placed[k].None? && a[k].Some? {
      var j := EmptySlot(s.placed, s.slots, k);
      FoundExactly(c.shortIds[j], pool[..s.np], extra[..s.ne], shortId, a[k].value);
      OnlyOne(a[k].value, vtx[k], c.shortIds[j], pool[..s.np], extra[..s.ne], shortId);
    } else {
      assert s.placed[k].Some? ==> k !in s.slots;
    }
  }

  lemma {:induction false} OnlyOne(t: Tx, x: Tx, id: nat, pool: seq<Tx>, extra: seq<Option<Tx>>, shortId: Tx -> nat)
    requires OnlyCandidate(t, id, pool, extra, shortId) && shortId(x) == id
    ensures x in pool || Some(x) in extra ==> x == t
  {
    assert x in pool || Some(x) in extra ==> IsCandidate(x, id, pool, extra, shortId);
  }

  lemma {:induction false} EmptySlot(a: Slots, slots: seq<nat>, k: nat) returns (j: nat)
    requires FirstEmpty(a, slots, |a|) && k < |a| && a[k].None?
    ensures j == EmptyBefore(a, k) < |slots| && slots[j] == k
  {
    j := EmptyBefore(a, k);
    EmptyGrows(a, k + 1, |a|);
    var m := slots[j];
    if m < k { EmptyGrows(a, m + 1, k); } else if k < m { EmptyGrows(a, k + 1, m); }
  }

  /** Stopping early does not change what is found. */
  lemma {:induction false} SeenUnique(id: nat, pool: seq<Tx>, extra: seq<Option<Tx>>, np: nat, ne: nat,
                                      shortId: Tx -> nat, tx: Tx)
    requires np <= |pool| && ne <= |extra| && Distinct(pool) && shortId(tx) == id
    requires forall x :: (x in pool || Some(x) in extra) && shortId(x) == id ==> x == tx
    requires np < |pool| ==> FromBoth(id, pool[..np], [], shortId).tx.Some?
    requires ne < |extra| ==> FromBoth(id, pool[..np], extra[..ne], shortId).tx.Some?
    ensures FromBoth(id, pool[..np], extra[..ne], shortId).tx ==
      if tx in pool || Some(tx) in extra then Some(tx) else None
  {
    hide FromBoth;
    assert Distinct(pool[..np]);
    FoundUnique(id, pool[..np], extra[..ne], shortId, tx);
    FoundUnique(id, pool[..np], [], shortId, tx);
    if np == |pool| { assert pool[..np] == pool; }
    if ne == |extra| { assert extra[..ne] == extra; }
  }

  /** Then only transactions that are in neither pool have to be requested. */
  lemma {:induction false} OnlyAbsentMissing(a: Slots, c: CompactBlock, s: Scan, pool: seq<Tx>, extra: seq<Option<Tx>>,
                                             vtx: seq<Tx>, shortId: Tx -> nat, k: nat)
    requires Initialised(a, c, s, pool, extra, shortId) && Describes(c, vtx, s.placed, shortId)
      && Separates(vtx, pool, extra, shortId)
    requires StopsFull(c.shortIds, pool, extra, s.np, s.ne, shortId) && Distinct(pool) && k < |a|
    ensures a[k].None? <==> s.placed[k].None? && vtx[k] !in pool && Some(vtx[k]) !in extra
  {
    hide FromBoth, PlacedFirst;
    if s.placed[k].None? {
      var j := EmptySlot(s.placed, s.slots, k);
      SeenUnique(c.shortIds[j], pool, extra, s.np, s.ne, shortId, vtx[k]);
    } else {
      assert k !in s.slots;
    }
  }

  /** The sender's compact block: the first transaction prefilled, short identifiers for the rest. */
  function Compacted(header: nat, vtx: seq<Tx>, shortId: Tx -> nat): CompactBlock
    requires vtx != []
  {
    CompactBlock(header, seq(|vtx| - 1, i requires 0 <= i < |vtx| - 1 => shortId(vtx[i + 1])), [Prefilled(0, vtx[0])])
  }

  /** It describes the block it was made from. */
  lemma {:induction false} CompactedDescribes(header: nat, vtx: seq<Tx>, shortId: Tx -> nat, a0: Slots)
    requires vtx != [] && |a0| == |vtx| && PlacedFirst(a0, Compacted(header, vtx, shortId).prefilled, 1)
    ensures Describes(Compacted(header, vtx, shortId), vtx, a0, shortId)
  {
    var c := Compacted(header, vtx, shortId);
    assert PositionOf(c.prefilled, 0) == 0;
    forall k | 0 < k < |vtx| ensures a0[k].None? && EmptyBefore(a0, k) == k - 1 { AfterFirst(a0, k); }
  }

  lemma {:induction false} AfterFirst(a: Slots, k: nat)
    requires 0 < k < |a| && a[0].Some? && forall i :: 0 < i < |a| ==> a[i].None?
    ensures EmptyBefore(a, k) == k - 1
  {
    if k > 1 { AfterFirst(a, k - 1); }
  }

  // ---------------------------------------------------------------- the counter of an earlier use

  /** Identifiers of which the first `m` have a transaction. */
  lemma {:induction false} MatchedFirst(ids: seq<nat>, pool: seq<Tx>, extra: seq<Option<Tx>>, shortId: Tx -> nat,
                                        m: nat)
    requires m <= |ids|
    requires forall j :: 0 <= j < |ids| ==> (FromBoth(ids[j], pool, extra, shortId).tx.Some? <==> j < m)
    ensures Matched(ids, pool, extra, shortId) == m
  {
    hide FromBoth;
    if ids != [] {
      var rest, k := ids[1..], if m == 0 then 0 else m - 1;
      forall j | 0 <= j < |rest| ensures FromBoth(rest[j], pool, extra, shortId).tx.Some? <==> j < k {
        assert rest[j] == ids[j + 1];
      }
      MatchedFirst(rest, pool, extra, shortId, k);
    }
  }

  /** The transactions of the identifiers, one by one, after another transaction. */
  ghost predicate Follows(ids: seq<nat>, txs: seq<Tx>, other: Tx, shortId: Tx -> nat) {
    && Distinct(ids) && |txs| == |ids| && (forall j :: 0 <= j < |ids| ==> shortId(txs[j]) == ids[j])
    && shortId(other) !in ids
  }

  lemma {:induction false} FollowsDistinct(ids: seq<nat>, txs: seq<Tx>, other: Tx, shortId: Tx -> nat)
    requires Follows(ids, txs, other, shortId)
    ensures |txs| == |ids| && Distinct([other] + txs)
    ensures forall j :: 0 <= j < |ids| ==> shortId(txs[j]) == ids[j]
    ensures forall x, j :: x in [other] + txs && 0 <= j < |ids| && shortId(x) == ids[j] ==> x == txs[j]
  {
  }

  lemma {:induction false} SeenFirst(ids: seq<nat>, txs: seq<Tx>, other: Tx, shortId: Tx -> nat, m: nat, j: nat)
    requires Follows(ids, txs, other, shortId) && m <= |ids| && j < |ids|
    ensures |txs| == |ids|
    ensures FromBoth(ids[j], ([other] + txs)[..m + 1], [], shortId).tx == if j < m then Some(txs[j]) else None
  {
    hide FromPool, Follows, Distinct;
    FollowsDistinct(ids, txs, other, shortId);
    var pool := [other] + txs;
    InPrefix(pool, m + 1, j + 1);
    assert pool[j + 1] == txs[j];
    PoolUnique(ids[j], pool[..m + 1], shortId, txs[j]);
  }

  lemma {:induction false} InPrefix(pool: seq<Tx>, n: nat, i: nat)
    requires Distinct(pool) && n <= |pool| && i < |pool|
    ensures Distinct(pool[..n]) && (pool[i] in pool[..n] <==> i < n)
    ensures forall x :: x in pool[..n] ==> x in pool
  {
    if i < n { assert pool[..n][i] == pool[i]; }
  }

  /** With a counter from 1 to the number of identifiers, the scan of this pool stops before its end. */
  lemma {:induction false} PoolCut(ids: seq<nat>, txs: seq<Tx>, other: Tx, shortId: Tx -> nat, count0: int, np: nat)
    requires Follows(ids, txs, other, shortId) && 1 <= count0 <= |ids|
    ensures PoolEnds(ids, [other] + txs, np, shortId, count0) <==> np == |ids| - count0 + 1
  {
    hide FromBoth, Matched, Follows, Distinct, GoesOn;
    var pool, end := [other] + txs, |ids| - count0 + 1;
    SeenFirst(ids, txs, other, shortId, 0, 0);
    forall i | 0 < i <= |pool| ensures GoesOn(ids, pool[..i], [], shortId, count0) <==> i != end {
      forall j | 0 <= j < |ids| ensures FromBoth(ids[j], pool[..i], [], shortId).tx.Some? <==> j < i - 1 {
        SeenFirst(ids, txs, other, shortId, i - 1, j);
      }
      MatchedFirst(ids, pool[..i], [], shortId, i - 1);
      CounterAt(ids, pool[..i], [], shortId, count0);
    }
    assert !GoesOn(ids, pool[..end], [], shortId, count0);
  }

  lemma {:induction false} CounterAt(ids: seq<nat>, pool: seq<Tx>, extra: seq<Option<Tx>>, shortId: Tx -> nat,
                                     count0: int)
    ensures GoesOn(ids, pool, extra, shortId, count0) <==> count0 + Matched(ids, pool, extra, shortId) != |ids|
  {
  }

  /** For every pool a scan that stops early is complete, if and only if the counter at the start is not one of
      1, ..., |ids|. */
  lemma {:induction false} CounterExact(ids: seq<nat>, txs: seq<Tx>, other: Tx, shortId: Tx -> nat, count0: int)
    requires Follows(ids, txs, other, shortId)
    ensures (forall pool, extra, np, ne ::
               Looked(ids, pool, extra, np, ne, shortId, count0) ==> StopsFull(ids, pool, extra, np, ne, shortId))
      <==> !(1 <= count0 <= |ids|)
  {
    hide FromBoth, Matched, Follows, Distinct, GoesOn;
    if 1 <= count0 <= |ids| {
      var pool, np := [other] + txs, |ids| - count0 + 1;
      PoolCut(ids, txs, other, shortId, count0, np);
      SeenFirst(ids, txs, other, shortId, np - 1, |ids| - 1);
      assert Looked(ids, pool, [], np, 0, shortId, count0);
      assert !StopsFull(ids, pool, [], np, 0, shortId);
    } else {
      forall pool, extra, np, ne | Looked(ids, pool, extra, np, ne, shortId, count0)
        ensures StopsFull(ids, pool, extra, np, ne, shortId)
      {
        StopsComplete(ids, pool, extra, np, ne, shortId, count0);
      }
    }
  }

  /** Such a counter makes `InitData` miss that many transactions of the pool. */
  lemma {:induction false} CounterMisses(header: nat, vtx: seq<Tx>, other: Tx, shortId: Tx -> nat, count0: int,
                                         a: Slots, s: Scan, k: nat)
    requires vtx != [] && Follows(Compacted(header, vtx, shortId).shortIds, vtx[1..], other, shortId)
    requires 1 <= count0 < |vtx| && 0 < k < |vtx|
    requires Initialised(a, Compacted(header, vtx, shortId), s, [other] + vtx[1..], [], shortId)
    requires Looked(Compacted(header, vtx, shortId).shortIds, [other] + vtx[1..], [], s.np, s.ne, shortId, count0)
    ensures k < |a| && vtx[k] in [other] + vtx[1..] && (a[k].None? <==> k >= |vtx| - count0)
  {
    hide FromBoth, Matched, Follows, Distinct, PlacedFirst, PoolEnds, EmptyBefore, FirstEmpty;
    var c, txs := Compacted(header, vtx, shortId), vtx[1..];
    assert ([other] + txs)[k] == vtx[k];
    PoolCut(c.shortIds, txs, other, shortId, count0, s.np);
    SlotAfterFirst(header, vtx, shortId, s.placed, s.slots, k);
    SeenFirst(c.shortIds, txs, other, shortId, s.np - 1, k - 1);
    var none: seq<Option<Tx>> := [];
    assert none[..s.ne] == none;
  }

  /** In a compact block of the sender, the slot of short identifier `k - 1` is `k`. */
  lemma {:induction false} SlotAfterFirst(header: nat, vtx: seq<Tx>, shortId: Tx -> nat, a0: Slots, slots: seq<nat>,
                                          k: nat)
    requires vtx != [] && 0 < k < |vtx| == |a0| && FirstEmpty(a0, slots, |a0|)
    requires PlacedFirst(a0, Compacted(header, vtx, shortId).prefilled, 1)
    ensures k - 1 < |slots| && slots[k - 1] == k
  {
    var c := Compacted(header, vtx, shortId);
    assert PositionOf(c.prefilled, 0) == 0;
    AfterFirst(a0, k);
    var j := EmptySlot(a0, slots, k);
  }

  /** A block whose compact form is accepted. */
  ghost predicate Sendable(header: nat, vtx: seq<Tx>, maxTxs: nat, shortId: Tx -> nat, isNull: Tx -> bool,
                           crowded: nat -> bool) {
    && vtx != [] && |vtx| <= UINT16_MAX && header != NULL_HEADER && |vtx| <= maxTxs && !isNull(vtx[0])
    && Distinct(Compacted(header, vtx, shortId).shortIds) && forall i :: 0 <= i < |vtx| - 1 ==> !crowded(i)
  }

  lemma {:induction false} SendableAccepted(header: nat, vtx: seq<Tx>, maxTxs: nat, shortId: Tx -> nat,
                                            isNull: Tx -> bool, crowded: nat -> bool)
    requires vtx != [] && |vtx| <= UINT16_MAX
    ensures Sendable(header, vtx, maxTxs, shortId, isNull, crowded) <==>
      Accepted(Compacted(header, vtx, shortId), maxTxs, isNull, crowded)
  {
    hide Distinct;
    var c := Compacted(header, vtx, shortId);
    assert PositionOf(c.prefilled, 0) == 0;
    assert FitsAt(c, isNull, 0) <==> !isNull(vtx[0]);
  }

  /** From the sender to the receiver: with the missing transactions an accepted compact block ends in the check
      of a block, and if short identifiers separate, of the block that was sent. */
  method Relay(header: nat, vtx: seq<Tx>, maxTxs: nat, shortId: Tx -> nat, isNull: Tx -> bool, crowded: nat -> bool,
               pool: seq<Tx>, extra: seq<Option<Tx>>, check: (nat, seq<Tx>) -> ReadStatus)
    returns (status: ReadStatus, out: seq<Tx>)
    requires vtx != [] && |vtx| <= UINT16_MAX
    ensures Sendable(header, vtx, maxTxs, shortId, isNull, crowded) ==> status == check(header, out)
    ensures Sendable(header, vtx, maxTxs, shortId, isNull, crowded) && Separates(vtx, pool, extra, shortId) ==>
      out == vtx
    ensures !Sendable(header, vtx, maxTxs, shortId, isNull, crowded) ==>
      status == READ_STATUS_INVALID || status == READ_STATUS_FAILED
  {
    hide Filled, Initialised, WellPlaced, EmptyBefore, Assembled, MovedOut, StopsFull, Looked, Matched, Distinct,
         Sendable, Separates, Describes, MissingOf;
    var c := Compacted(header, vtx, shortId);
    var p := new PartiallyDownloadedBlock();
    SendableAccepted(header, vtx, maxTxs, shortId, isNull, crowded);
    ghost var scan;
    out := [];
    status, scan := p.InitData(c, maxTxs, shortId, isNull, crowded, pool, extra);
    if status != READ_STATUS_OK { return; }
    Rebuilds(p.available, header, scan, pool, extra, vtx, shortId);
    var missing := MissingOf(p.available, vtx);
    status, out := p.FillBlock(missing, check);
  }

  lemma {:induction false} Rebuilds(a: Slots, header: nat, s: Scan, pool: seq<Tx>, extra: seq<Option<Tx>>, vtx: seq<Tx>,
                                    shortId: Tx -> nat)
    requires vtx != [] && Initialised(a, Compacted(header, vtx, shortId), s, pool, extra, shortId)
    ensures |a| == |vtx| && |MissingOf(a, vtx)| == EmptyBefore(a, |a|)
    ensures Separates(vtx, pool, extra, shortId) ==> Assembled(a, MissingOf(a, vtx)) == Some(vtx)
  {
    hide PlacedFirst, FirstEmpty, Scanning, Describes, Separates, Assembled, MissingOf, EmptyBefore;
    MissingCount(a, vtx);
    CompactedDescribes(header, vtx, shortId, s.placed);
    if Separates(vtx, pool, extra, shortId) {
      Reconstructs(a, Compacted(header, vtx, shortId), s, pool, extra, vtx, shortId);
    }
  }

  lemma {:induction false} MissingCount(a: Slots, vtx: seq<Tx>)
    requires |a| == |vtx|
    ensures |MissingOf(a, vtx)| == EmptyBefore(a, |a|)
  {
    if a != [] {
      MissingCount(a[1..], vtx[1..]);
      EmptyFront(a, |a|);
    }
  }

  lemma {:induction false} EmptyFront(a: Slots, n: nat)
    requires 0 < n <= |a|
    ensures EmptyBefore(a, n) == (if a[0].None? then 1 else 0) + EmptyBefore(a[1..], n - 1)
  {
    if n > 1 { EmptyFront(a, n - 1); }
  }

  /** Two blocks through one object, all transactions of both being in the pool. The first is complete. Of the
      second, as many transactions are missed as the first found there. */
  method ReuseMisses(header: nat, vtx1: seq<Tx>, vtx2: seq<Tx>, other: Tx, maxTxs: nat, shortId: Tx -> nat,
                     isNull: Tx -> bool, crowded: nat -> bool, check: (nat, seq<Tx>) -> ReadStatus)
    returns (first: Slots, second: Slots)
    requires Sendable(header, vtx1, maxTxs, shortId, isNull, crowded)
    requires Sendable(header, vtx2, maxTxs, shortId, isNull, crowded) && 1 < |vtx1| <= |vtx2|
    requires Follows(Compacted(header, vtx2, shortId).shortIds, vtx2[1..], other, shortId)
    ensures |first| == |vtx1| && forall k :: 0 < k < |vtx1| ==> first[k].Some?
    ensures |second| == |vtx2| && forall k :: 0 < k < |vtx2| ==>
      vtx2[k] in [other] + vtx2[1..] && (second[k].None? <==> k > |vtx2| - |vtx1|)
  {
    hide Filled, Initialised, WellPlaced, EmptyBefore, Assembled, MovedOut, StopsFull, Looked, Matched, Distinct,
         Follows;
    var c1, c2 := Compacted(header, vtx1, shortId), Compacted(header, vtx2, shortId);
    var p := new PartiallyDownloadedBlock();
    SendableAccepted(header, vtx1, maxTxs, shortId, isNull, crowded);
    SendableAccepted(header, vtx2, maxTxs, shortId, isNull, crowded);
    var status, vtx;
    ghost var s1, s2;
    status, s1 := p.InitData(c1, maxTxs, shortId, isNull, crowded, vtx1[1..], []);
    first := p.available;
    AllFound(header, vtx1, shortId, first, s1);
    status, vtx := p.FillBlock([], check);
    status, s2 := p.InitData(c2, maxTxs, shortId, isNull, crowded, [other] + vtx2[1..], []);
    second := p.available;
    forall k | 0 < k < |vtx2|
      ensures k < |second| && vtx2[k] in [other] + vtx2[1..] && (second[k].None? <==> k > |vtx2| - |vtx1|)
    {
      CounterMisses(header, vtx2, other, shortId, |vtx1| - 1, second, s2, k);
    }
    InitSize(second, c2, s2, [other] + vtx2[1..], [], shortId);
  }

  lemma {:induction false} InitSize(a: Slots, c: CompactBlock, s: Scan, pool: seq<Tx>, extra: seq<Option<Tx>>,
                                    shortId: Tx -> nat)
    requires Initialised(a, c, s, pool, extra, shortId)
    ensures |a| == c.BlockTxCount()
  {
  }

  /** A fresh object finds everything if the pool is the block. */
  lemma {:induction false} AllFound(header: nat, vtx: seq<Tx>, shortId: Tx -> nat, a: Slots, s: Scan)
    requires vtx != [] && Distinct(Compacted(header, vtx, shortId).shortIds)
    requires Initialised(a, Compacted(header, vtx, shortId), s, vtx[1..], [], shortId)
    requires StopsFull(Compacted(header, vtx, shortId).shortIds, vtx[1..], [], s.np, s.ne, shortId)
    ensures |a| == |vtx| && (forall k :: 0 <= k < |a| ==> a[k].Some?) && EmptyBefore(a, |a|) == 0
    ensures (forall j :: 0 <= j < |s.slots| ==> s.slots[j] < |a|) && Filled(a, s.slots) == |vtx| - 1
  {
    hide FromBoth, EmptyBefore, FirstEmpty, Distinct, Filled, StopsFull, PlacedFirst;
    var c, txs := Compacted(header, vtx, shortId), vtx[1..];
    forall k | 0 < k < |vtx| ensures a[k].Some? {
      SlotAfterFirst(header, vtx, shortId, s.placed, s.slots, k);
      FoundInBlock(c.shortIds, txs, s.np, s.ne, shortId, k - 1);
    }
    FirstPlaced(header, vtx, shortId, s.placed, s.slots);
    NoGaps(a, |a|);
    NoneMissing(a, s.slots);
  }

  lemma {:induction false} FoundInBlock(ids: seq<nat>, txs: seq<Tx>, np: nat, ne: nat, shortId: Tx -> nat, j: nat)
    requires |ids| == |txs| && Distinct(ids) && (forall i :: 0 <= i < |ids| ==> shortId(txs[i]) == ids[i])
    requires np <= |txs| && ne == 0 && StopsFull(ids, txs, [], np, ne, shortId) && j < |ids|
    ensures FromBoth(ids[j], txs[..np], [], shortId).tx.Some?
  {
    hide FromBoth;
    assert Distinct(txs);
    SeenUnique(ids[j], txs, [], np, ne, shortId, txs[j]);
  }

  lemma {:induction false} FirstPlaced(header: nat, vtx: seq<Tx>, shortId: Tx -> nat, a0: Slots, slots: seq<nat>)
    requires vtx != [] && |vtx| == |a0| && FirstEmpty(a0, slots, |a0|)
    requires PlacedFirst(a0, Compacted(header, vtx, shortId).prefilled, 1)
    ensures a0[0].Some? && 0 !in slots
  {
    var c := Compacted(header, vtx, shortId);
    assert PositionOf(c.prefilled, 0) == 0;
  }

  lemma {:induction false} NoGaps(a: Slots, n: nat)
    requires n <= |a| && forall k :: 0 <= k < n ==> a[k].Some?
    ensures EmptyBefore(a, n) == 0
  {
    if n > 0 { NoGaps(a, n - 1); }
  }

  lemma {:induction false} NoneMissing(a: Slots, slots: seq<nat>)
    requires forall j :: 0 <= j < |slots| ==> slots[j] < |a| && a[slots[j]].Some?
    ensures Filled(a, slots) == |slots|
  {
    if slots != [] { NoneMissing(a, slots[1..]); }
  }

  /** The smallest such run: a block of one other transaction, 5, sent twice. The pool has it both times, the
      second time after 7. */
  method ReuseMissesOne() returns (first: Slots, second: Slots)
    ensures |first| == 2 && first[1].Some? && |second| == 2 && second[1].None?
  {
    hide Filled, EmptyBefore;
    var vtx, shortId := [1, 5], (x: Tx) => x;
    assert Compacted(1, vtx, shortId).shortIds == [5] && vtx[1..] == [5];
    first, second := ReuseMisses(1, vtx, vtx, 7, 2, shortId, _ => false, _ => false, (_, _) => READ_STATUS_OK);
  }

  /** Two transactions of the pool share a short identifier, and only one is in the block: both it and the one that
      is in no pool are requested, and the block is rebuilt. */
  method CollisionRequested() returns (found: Slots, out: seq<Tx>)
    ensures found == [Some(1), None, None] && out == [1, 5, 6]
  {
    hide Filled, EmptyBefore, Assembled, MovedOut, Looked, Matched, SlotsMeant, StopsFull, MissingOf, Describes,
         Initialised, WellPlaced, Compacted;
    var vtx, pool := [1, 5, 6], [7, 5];
    var shortId := (x: Tx) => if x == 5 || x == 7 then 3 else if x == 6 then 4 else 0;
    var none: seq<Option<Tx>> := [];
    var c := Compacted(1, vtx, shortId);
    var p := new PartiallyDownloadedBlock();
    SendableHere(vtx, shortId);
    var status;
    ghost var scan;
    status, scan := p.InitData(c, 3, shortId, _ => false, _ => false, pool, none);
    found := p.available;
    CollisionEmpties(found, vtx, pool, shortId, scan);
    var missing := MissingOf(found, vtx);
    AssembleExact(found, vtx);
    status, out := p.FillBlock(missing, (_, _) => READ_STATUS_OK);
  }

  lemma {:induction false} SendableHere(vtx: seq<Tx>, shortId: Tx -> nat)
    requires vtx == [1, 5, 6] && shortId(5) == 3 && shortId(6) == 4
    ensures Compacted(1, vtx, shortId) == CompactBlock(1, [3, 4], [Prefilled(0, 1)])
    ensures Accepted(Compacted(1, vtx, shortId), 3, _ => false, _ => false)
  {
    assert Compacted(1, vtx, shortId).shortIds == [3, 4];
    SendableAccepted(1, vtx, 3, shortId, _ => false, _ => false);
  }

  lemma {:induction false} CollisionEmpties(a: Slots, vtx: seq<Tx>, pool: seq<Tx>, shortId: Tx -> nat, s: Scan)
    requires vtx == [1, 5, 6] && pool == [7, 5] && shortId(5) == shortId(7) == 3 && shortId(6) == 4
    requires Compacted(1, vtx, shortId) == CompactBlock(1, [3, 4], [Prefilled(0, 1)])
    requires Initialised(a, Compacted(1, vtx, shortId), s, pool, [], shortId)
    requires StopsFull([3, 4], pool, [], s.np, s.ne, shortId)
    ensures a == [Some(1), None, None]
  {
    hide Distinct, EmptyBefore, Compacted;
    var none: seq<Option<Tx>> := [];
    assert none[..s.ne] == none;
    NoSix(pool[..s.np], shortId);
    assert [3, 4][1] == 4;
    assert pool[..s.np] == pool;
    TwoThrees(pool, shortId);
    SlotAfterFirst(1, vtx, shortId, s.placed, s.slots, 1);
    SlotAfterFirst(1, vtx, shortId, s.placed, s.slots, 2);
    FirstPlaced(1, vtx, shortId, s.placed, s.slots);
    assert [3, 4][0] == 3;
    assert PositionOf([Prefilled(0, 1)], 0) == 0;
  }

  lemma {:induction false} NoSix(pool: seq<Tx>, shortId: Tx -> nat)
    requires (forall x :: x in pool ==> x == 7 || x == 5) && shortId(5) == shortId(7) == 3
    ensures FromBoth(4, pool, [], shortId).tx == None
  {
    hide FromPool;
    PoolShape(4, pool, shortId);
  }

  lemma {:induction false} TwoThrees(pool: seq<Tx>, shortId: Tx -> nat)
    requires pool == [7, 5] && shortId(5) == shortId(7) == 3
    ensures FromBoth(3, pool, [], shortId).tx == None
  {
    assert shortId(pool[0]) == 3 == shortId(pool[1]);
    var f := FromBoth(3, pool, [], shortId);
    if f.tx.Some? { FoundExactly(3, pool, [], shortId, f.tx.value); }
  }
}
