/** The unspent-output cache, layer by layer: what a cached cell means over the view below it.

    A layer holds cells over a base view, a plain map of unspent coins. `Overlay` is what a reader
    of the layer observes, and `LayerOk` what the DIRTY and FRESH flags promise about the base. */
module CoinsTheory {
  import opened Options

  const OP_RETURN: nat := 0x6a
  const MAX_SCRIPT_SIZE: nat := 129000

  datatype OutPoint = OutPoint(hash: nat, n: nat)

  /** A transaction output with its context; an amount of -1 marks a spent coin. */
  datatype Coin = Coin(amount: int, script: seq<nat>, height: nat, coinBase: bool, coinStake: bool) {
    predicate IsSpent() { amount == -1 }

    predicate IsUnspendable() { (|script| > 0 && script[0] == OP_RETURN) || |script| > MAX_SCRIPT_SIZE }
  }

  /** What `Coin::Clear` leaves. */
  const CLEARED: Coin := Coin(-1, [], 0, false, false)

  datatype Cell = Cell(coin: Coin, isDirty: bool, isFresh: bool)

  type Cells = map<OutPoint, Cell>
  type Coins = map<OutPoint, Coin>

  // ---------------------------------------------------------------- meaning

  /** What a reader of the layer finds at `k`. */
  function Look(m: Cells, b: Coins, k: OutPoint): Option<Coin> {
    if k in m then (if m[k].coin.IsSpent() then None else Some(m[k].coin))
    else if k in b then Some(b[k]) else None
  }

  /** The unspent coins a reader of the layer sees. */
  function Overlay(m: Cells, b: Coins): Coins {
    map k | k in m.Keys + b.Keys && Look(m, b, k).Some? :: Look(m, b, k).value
  }

  /** The flags tell the truth about the base, and only the five combinations of flags and
      spentness that `SanityCheck` allows occur. */
  ghost predicate CellOk(c: Cell, b: Coins, k: OutPoint) {
    && (c.isFresh ==> k !in b)
    && (!c.isDirty ==> if c.coin.IsSpent() then k !in b else k in b && b[k] == c.coin)
    && (c.coin.IsSpent() ==> c.isFresh != c.isDirty)
  }

  ghost predicate LayerOk(m: Cells, b: Coins) {
    && (forall k :: k in m ==> CellOk(m[k], b, k))
    && (forall k :: k in b ==> !b[k].IsSpent())
  }

  lemma {:induction false} OverlayOk(m: Cells, b: Coins)
    requires LayerOk(m, b)
    ensures forall k :: k in Overlay(m, b) ==> !Overlay(m, b)[k].IsSpent()
  {
  }

  lemma {:induction false} OverlayAt(m: Cells, b: Coins, k: OutPoint)
    ensures k in Overlay(m, b) <==> Look(m, b, k).Some?
    ensures k in Overlay(m, b) ==> Overlay(m, b)[k] == Look(m, b, k).value
  {
  }

  lemma {:induction false} LayerCell(m: Cells, b: Coins, k: OutPoint)
    requires LayerOk(m, b)
    ensures k in m ==> CellOk(m[k], b, k)
    ensures k in b ==> !b[k].IsSpent()
  {
  }

  lemma {:induction false} SetCell(m: Cells, b: Coins, k: OutPoint, c: Cell)
    ensures Overlay(m[k := c], b) == if c.coin.IsSpent() then Overlay(m, b) - {k} else Overlay(m, b)[k := c.coin]
    ensures LayerOk(m, b) && CellOk(c, b, k) ==> LayerOk(m[k := c], b)
  {
  }

  lemma {:induction false} EraseCell(m: Cells, b: Coins, k: OutPoint)
    ensures k !in b ==> Overlay(m - {k}, b) == Overlay(m, b) - {k}
    ensures LayerOk(m, b) ==> LayerOk(m - {k}, b)
  {
  }

  /** The five combinations, as `SanityCheck` counts them: DIRTY 1, FRESH 2, spent 4. */
  lemma {:induction false} FiveCombinations(c: Cell, b: Coins, k: OutPoint)
    requires CellOk(c, b, k)
    ensures var attr := (if c.isDirty then 1 else 0) + (if c.isFresh then 2 else 0)
      + (if c.coin.IsSpent() then 4 else 0);
            attr != 2 && attr != 4 && attr != 7
  {
  }

  // ---------------------------------------------------------------- reading

  /** `r` is what a base view with contents `b` may answer for `k`: a base may also hold a spent coin. */
  ghost predicate Answers(r: Option<Coin>, b: Coins, k: OutPoint) {
    if k in b then r == Some(b[k]) && !b[k].IsSpent() else r.Some? ==> r.value.IsSpent()
  }

  /** Filling the cache from the base changes nothing a reader sees. */
  lemma {:induction false} FetchKeepsView(m: Cells, b: Coins, k: OutPoint, c: Coin)
    requires LayerOk(m, b) && k !in m && Answers(Some(c), b, k)
    ensures var m' := m[k := Cell(c, false, c.IsSpent())];
            LayerOk(m', b) && Overlay(m', b) == Overlay(m, b)
  {
  }

  /** Forgetting a clean cell changes nothing a reader sees. */
  lemma {:induction false} UncacheKeepsView(m: Cells, b: Coins, k: OutPoint)
    requires LayerOk(m, b) && k in m && !m[k].isDirty && !m[k].isFresh
    ensures LayerOk(m - {k}, b) && Overlay(m - {k}, b) == Overlay(m, b)
  {
  }

  // ---------------------------------------------------------------- adding

  /** `AddCoin`, when it does not throw. */
  function Added(m: Cells, k: OutPoint, c: Coin, overwrite: bool): Cells {
    var was := if k in m then m[k] else Cell(CLEARED, false, false);
    m[k := Cell(c, true, was.isFresh || (!overwrite && !was.isDirty))]
  }

  predicate AddThrows(m: Cells, k: OutPoint, overwrite: bool) { !overwrite && k in m && !m[k].coin.IsSpent() }

  lemma {:induction false} AddView(m: Cells, b: Coins, k: OutPoint, c: Coin, overwrite: bool)
    requires !c.IsSpent()
    ensures Overlay(Added(m, k, c, overwrite), b) == Overlay(m, b)[k := c]
  {
  }

  /** A non-overwriting `AddCoin` either throws or keeps the flags truthful, exactly when the coin
      is not hidden from the cache: cached, or absent from the base. */
  lemma {:induction false} AddExact(m: Cells, b: Coins, k: OutPoint, c: Coin, overwrite: bool)
    requires LayerOk(m, b) && !c.IsSpent() && !AddThrows(m, k, overwrite)
    ensures LayerOk(Added(m, k, c, overwrite), b) <==> overwrite || k in m || k !in b
  {
    var m' := Added(m, k, c, overwrite);
    if overwrite || k in m || k !in b {
      assert CellOk(m'[k], b, k);
    } else {
      assert !CellOk(m'[k], b, k);
    }
  }

  /** In the caller's terms: without an unspent coin in view, adding does not throw and is safe;
      with one, it throws or misapplies FRESH. */
  lemma {:induction false} AddSafeIffAbsent(m: Cells, b: Coins, k: OutPoint, c: Coin)
    requires LayerOk(m, b) && !c.IsSpent()
    ensures !AddThrows(m, k, false) && LayerOk(Added(m, k, c, false), b) <==> k !in Overlay(m, b)
  {
    if !AddThrows(m, k, false) { AddExact(m, b, k, c, false); }
  }

  // ---------------------------------------------------------------- spending

  /** `SpendCoin`, once the coin is cached. */
  function Spent(m: Cells, k: OutPoint): Cells
    requires k in m
  {
    if m[k].isFresh then m - {k} else m[k := Cell(CLEARED, true, false)]
  }

  lemma {:induction false} SpendView(m: Cells, b: Coins, k: OutPoint)
    requires LayerOk(m, b) && k in m
    ensures LayerOk(Spent(m, k), b) && Overlay(Spent(m, k), b) == Overlay(m, b) - {k}
  {
    hide Overlay, LayerOk;
    LayerCell(m, b, k);
    SetCell(m, b, k, Cell(CLEARED, true, false));
    EraseCell(m, b, k);
  }

  /** What a misapplied FRESH costs: adding over an unseen unspent coin and spending the result
      brings the old coin back. */
  lemma {:induction false} MisappliedFresh(b: Coins, k: OutPoint, c: Coin)
    requires k in b && !c.IsSpent()
    ensures var m := Added(map[], k, c, false); k in m && Overlay(Spent(m, k), b) == b
  {
    var m := Added(map[], k, c, false);
    assert Spent(m, k) == map[];
  }

  // ---------------------------------------------------------------- writing a child into its parent

  /** One dirty child cell arrives in the parent; `None` is the throw. */
  function Written(p: Cells, k: OutPoint, c: Cell): Option<Cells> {
    if k !in p then
      (if c.isFresh && c.coin.IsSpent() then Some(p) else Some(p[k := Cell(c.coin, true, c.isFresh)]))
    else if c.isFresh && !p[k].coin.IsSpent() then None
    else if p[k].isFresh && c.coin.IsSpent() then Some(p - {k})
    else Some(p[k := Cell(c.coin, true, p[k].isFresh)])
  }

  /** The parent's view changes at `k` and nowhere else; its flags stay truthful; and since a FRESH
      child coin is not unspent in the parent, the throw is unreachable. */
  lemma {:induction false} WriteOne(p: Cells, b: Coins, k: OutPoint, c: Cell)
    requires LayerOk(p, b) && c.isDirty && CellOk(c, Overlay(p, b), k)
    ensures var r := Written(p, k, c);
            && r.Some? && LayerOk(r.value, b)
            && Overlay(r.value, b) == (if c.coin.IsSpent() then Overlay(p, b) - {k} else Overlay(p, b)[k := c.coin])
  {
    hide Overlay, LayerOk;
    OverlayAt(p, b, k);
    SetCell(p, b, k, Cell(c.coin, true, if k in p then p[k].isFresh else c.isFresh));
    EraseCell(p, b, k);
    LayerCell(p, b, k);
  }

  /** A cell as it arrives at `k`. FRESH is what it was in the parent or, without an entry there, in the child. A
      spent coin that is FRESH leaves no entry; everything else leaves a dirty one with the coin of the child. */
  ghost predicate ReceivedAt(p: Cells, c: Cell, p': Cells, k: OutPoint) {
    var isFresh := if k in p then p[k].isFresh else c.isFresh;
    if c.coin.IsSpent() && isFresh then k !in p' else k in p' && p'[k] == Cell(c.coin, true, isFresh)
  }

  ghost predicate SameAt<V>(p: map<OutPoint, V>, p': map<OutPoint, V>, k: OutPoint) {
    (k in p' <==> k in p) && (k in p ==> p'[k] == p[k])
  }

  /** The dirty cells of the child that are among `keys` have arrived, and nothing else changed. */
  ghost predicate ReceivedSome(p: Cells, m: Cells, keys: seq<OutPoint>, p': Cells) {
    forall k :: if k in keys && k in m && m[k].isDirty then ReceivedAt(p, m[k], p', k) else SameAt(p, p', k)
  }

  /** All dirty cells of the child have arrived. */
  ghost predicate Received(p: Cells, m: Cells, p': Cells) {
    forall k :: if k in m && m[k].isDirty then ReceivedAt(p, m[k], p', k) else SameAt(p, p', k)
  }

  /** One cell: what the throw means, and what arrives otherwise. */
  lemma {:induction false} WrittenExactly(p: Cells, k: OutPoint, c: Cell)
    ensures var r := Written(p, k, c);
            && (r.None? <==> c.isFresh && k in p && !p[k].coin.IsSpent())
            && (r.Some? ==> ReceivedAt(p, c, r.value, k) && forall i :: i != k ==> SameAt(p, r.value, i))
  {
  }

  lemma {:induction false} ReceiveStep(p0: Cells, p: Cells, m: Cells, keys: seq<OutPoint>, i: nat)
    requires i < |keys| && keys[i] !in keys[..i] && keys[i] in m && ReceivedSome(p0, m, keys[..i], p)
    requires m[keys[i]].isDirty ==> Written(p, keys[i], m[keys[i]]).Some?
    ensures var p' := if m[keys[i]].isDirty then Written(p, keys[i], m[keys[i]]).value else p;
            ReceivedSome(p0, m, keys[..i + 1], p')
  {
    var p' := if m[keys[i]].isDirty then Written(p, keys[i], m[keys[i]]).value else p;
    assert keys[..i + 1] == keys[..i] + [keys[i]];
    assert SameAt(p0, p, keys[i]);
    forall k
      ensures if k in keys[..i + 1] && k in m && m[k].isDirty then ReceivedAt(p0, m[k], p', k) else SameAt(p0, p', k)
    {
      assert if k in keys[..i] && k in m && m[k].isDirty then ReceivedAt(p0, m[k], p, k) else SameAt(p0, p, k);
    }
  }

  lemma {:induction false} ReceiveEnd(p: Cells, m: Cells, keys: seq<OutPoint>, p': Cells)
    requires ReceivedSome(p, m, keys, p') && forall k :: k in m && m[k].isDirty ==> k in keys
    ensures Received(p, m, p')
  {
    hide ReceivedAt, SameAt;
    forall k ensures if k in m && m[k].isDirty then ReceivedAt(p, m[k], p', k) else SameAt(p, p', k) {
      assert if k in keys && k in m && m[k].isDirty then ReceivedAt(p, m[k], p', k) else SameAt(p, p', k);
    }
  }

  /** What is in a database at `k` after the dirty cell `c`. */
  ghost predicate StoredAt(c: Cell, s': Coins, k: OutPoint) {
    if c.coin.IsSpent() then k !in s' else k in s' && s'[k] == c.coin
  }

  ghost predicate StoredSome(s: Coins, m: Cells, keys: seq<OutPoint>, s': Coins) {
    forall k :: if k in keys && k in m && m[k].isDirty then StoredAt(m[k], s', k) else SameAt(s, s', k)
  }

  /** All dirty cells are in the database, and nothing else changed. */
  ghost predicate Stored(s: Coins, m: Cells, s': Coins) {
    forall k :: if k in m && m[k].isDirty then StoredAt(m[k], s', k) else SameAt(s, s', k)
  }

  lemma {:induction false} StoreNext(s0: Coins, s: Coins, m: Cells, keys: seq<OutPoint>, i: nat)
    requires i < |keys| && keys[i] in m && StoredSome(s0, m, keys[..i], s)
    ensures var k := keys[i]; var c := m[k];
            StoredSome(s0, m, keys[..i + 1],
              if !c.isDirty then s else if c.coin.IsSpent() then s - {k} else s[k := c.coin])
  {
    var k0, c := keys[i], m[keys[i]];
    var s' := if !c.isDirty then s else if c.coin.IsSpent() then s - {k0} else s[k0 := c.coin];
    assert keys[..i + 1] == keys[..i] + [k0];
    forall k
      ensures if k in keys[..i + 1] && k in m && m[k].isDirty then StoredAt(m[k], s', k) else SameAt(s0, s', k)
    {
      assert if k in keys[..i] && k in m && m[k].isDirty then StoredAt(m[k], s, k) else SameAt(s0, s, k);
    }
  }

  lemma {:induction false} StoreEnd(s: Coins, m: Cells, keys: seq<OutPoint>, s': Coins)
    requires StoredSome(s, m, keys, s') && forall k :: k in m && m[k].isDirty ==> k in keys
    ensures Stored(s, m, s')
  {
    hide StoredAt, SameAt;
    forall k ensures if k in m && m[k].isDirty then StoredAt(m[k], s', k) else SameAt(s, s', k) {
      assert if k in keys && k in m && m[k].isDirty then StoredAt(m[k], s', k) else SameAt(s, s', k);
    }
  }

  lemma {:induction false} StoreStart(s: Coins, m: Cells)
    ensures StoredSome(s, m, [], s)
  {
  }

  lemma {:induction false} ReceiveStart(p: Cells, m: Cells)
    ensures ReceivedSome(p, m, [], p)
  {
  }

  /** The view `v` of the parent once the cells of `keys` have arrived. */
  function Arrived(v: Coins, m: Cells, keys: seq<OutPoint>): Coins {
    if keys == [] then v
    else
      var k := keys[|keys| - 1];
      var w := Arrived(v, m, keys[..|keys| - 1]);
      if k !in m || !m[k].isDirty then w else if m[k].coin.IsSpent() then w - {k} else w[k := m[k].coin]
  }

  lemma {:induction false} ArrivedAt(v: Coins, m: Cells, keys: seq<OutPoint>, k: OutPoint)
    ensures k in keys && k in m && m[k].isDirty ==>
      (k in Arrived(v, m, keys) <==> !m[k].coin.IsSpent())
        && (k in Arrived(v, m, keys) ==> Arrived(v, m, keys)[k] == m[k].coin)
    ensures !(k in keys && k in m && m[k].isDirty) ==>
      (k in Arrived(v, m, keys) <==> k in v) && (k in v ==> Arrived(v, m, keys)[k] == v[k])
  {
    if keys != [] { ArrivedAt(v, m, keys[..|keys| - 1], k); }
  }

  /** When every flagged cell has arrived, the parent shows what the child showed. */
  lemma {:induction false} AllArrived(v: Coins, m: Cells, keys: seq<OutPoint>)
    requires LayerOk(m, v) && forall k :: k in m && m[k].isDirty ==> k in keys
    ensures Arrived(v, m, keys) == Overlay(m, v)
  {
    var w := Arrived(v, m, keys);
    forall k ensures k in w <==> k in Overlay(m, v) { ArrivedAt(v, m, keys, k); }
    forall k | k in w ensures w[k] == Overlay(m, v)[k] { ArrivedAt(v, m, keys, k); }
  }

  // ---------------------------------------------------------------- after a sync

  /** The child once the cursor passed `keys`: spent cells erased, the others unflagged. */
  function Cleaned(m: Cells, keys: set<OutPoint>): Cells {
    map k | k in m && !(k in keys && m[k].coin.IsSpent()) ::
      if k in keys then Cell(m[k].coin, false, false) else m[k]
  }

  /** A synced layer keeps its view over the parent it was written to. */
  lemma {:induction false} SyncedLayer(m: Cells, v: Coins, keys: set<OutPoint>)
    requires LayerOk(m, v) && forall k :: k in m && (m[k].isDirty || m[k].isFresh) ==> k in keys
    ensures LayerOk(Cleaned(m, keys), Overlay(m, v))
    ensures Overlay(Cleaned(m, keys), Overlay(m, v)) == Overlay(m, v)
  {
    var w, c := Overlay(m, v), Cleaned(m, keys);
    forall k | k in c ensures CellOk(c[k], w, k) {
      assert CellOk(m[k], v, k);
      assert k in w <==> Look(m, v, k).Some?;
    }
  }
}
