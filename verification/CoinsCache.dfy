/** A stack of unspent-output caches over a database, each layer an object with its own map. */
module CoinsCaches {
  import opened Options
  import opened CoinsTheory
  import opened FlagList
  import opened Lists

  /** The unspent part of a stored map. A base may hold spent coins; they count as absent. */
  ghost function Unspent(m: Coins): Coins { map k | k in m && !m[k].IsSpent() :: m[k] }

  /** Coins to write, and outpoints to erase. */
  type Batch = map<OutPoint, Option<Coin>>

  /** The database after a batch. */
  function Commit(s: Coins, batch: Batch): Coins {
    map k | k in s.Keys + batch.Keys && (if k in batch then batch[k].Some? else k in s) ::
      if k in batch then batch[k].value else s[k]
  }

  lemma {:induction false} CommitPut(s: Coins, batch: Batch, k: OutPoint, x: Option<Coin>)
    ensures Commit(s, batch[k := x]) == if x.None? then Commit(s, batch) - {k} else Commit(s, batch)[k := x.value]
  {
  }

  /** What is on disk after a batch: the coins, and whether the mark of an unfinished transition is set. */
  datatype Disk = Disk(coins: Coins, transition: bool)

  /** A state between batches: marked as unfinished, with the entries of a prefix of the list written. */
  ghost predicate Unfinished(d: Disk, v: Coins, m: Cells, order: seq<OutPoint>) {
    d.transition && exists i :: 0 <= i <= |order| && Unspent(d.coins) == Arrived(v, m, order[..i])
  }

  lemma {:induction false} UnfinishedAt(s: Coins, v: Coins, m: Cells, order: seq<OutPoint>, i: int)
    requires 0 <= i <= |order| && Unspent(s) == Arrived(v, m, order[..i])
    ensures Unfinished(Disk(s, true), v, m, order)
  {
    hide Unspent, Arrived;
  }

  /** Writing the same entries again after an interruption at any point gives the complete result. */
  lemma {:induction false} RewriteCompletes(v: Coins, m: Cells, order: seq<OutPoint>, i: nat)
    requires i <= |order|
    ensures Arrived(Arrived(v, m, order[..i]), m, order) == Arrived(v, m, order)
  {
    hide Arrived;
    var half := Arrived(v, m, order[..i]);
    forall k
      ensures k in Arrived(half, m, order) <==> k in Arrived(v, m, order)
    {
      SameArrived(v, half, m, order, i, k);
    }
    forall k | k in Arrived(half, m, order) ensures Arrived(half, m, order)[k] == Arrived(v, m, order)[k] {
      SameArrived(v, half, m, order, i, k);
    }
  }

  lemma {:induction false} SameArrived(v: Coins, half: Coins, m: Cells, order: seq<OutPoint>, i: nat, k: OutPoint)
    requires i <= |order| && half == Arrived(v, m, order[..i])
    ensures k in Arrived(half, m, order) <==> k in Arrived(v, m, order)
    ensures k in Arrived(half, m, order) ==> Arrived(half, m, order)[k] == Arrived(v, m, order)[k]
  {
    hide Arrived;
    ArrivedAt(half, m, order, k);
    ArrivedAt(v, m, order, k);
    ArrivedAt(v, m, order[..i], k);
  }

  /** `BatchWrite` of the database. Batches are written as they fill up; `full` says after which entries. A
      crash leaves the database as before or as after one of the `commits`. */
  method StoreBatch(s0: Coins, c0: Linked, ghost co: seq<OutPoint>, willErase: bool, full: nat -> bool)
    returns (s: Coins, c: Linked, ghost commits: seq<Disk>)
    requires Ring(c0, co) && LayerOk(Plain(c0), Unspent(s0))
    ensures Unspent(s) == Overlay(Plain(c0), Unspent(s0))
    ensures if willErase then c == c0 else Ring(c, []) && Plain(c) == Cleaned(Plain(c0), ToSet(co))
    ensures Stored(s0, Plain(c0), s)
    ensures commits != [] && commits[|commits| - 1] == Disk(s, false)
    ensures forall j :: 0 <= j < |commits| - 1 ==> Unfinished(commits[j], Unspent(s0), Plain(c0), co)
  {
    hide *;
    s, c, commits := s0, c0, [];
    ghost var m, v, i := Plain(c0), Unspent(s0), 0;
    var it, batch: Batch, count := c.next, map[], 0;
    BatchStart(c0, co, v, willErase);
    CommitNothing(s);
    assert co[..0] == [];
    StoreStart(s, m);
    while it != Sentinel
      invariant 0 <= i <= |co| && it == LinkAt(co, i) && (willErase ==> c == c0)
      invariant Ring(c, Pending(co, i, willErase)) && Plain(c) == Passed(m, co, i, willErase)
      invariant Unspent(Commit(s, batch)) == Arrived(v, m, co[..i])
      invariant StoredSome(s0, m, co[..i], Commit(s, batch))
      invariant forall j :: 0 <= j < |commits| ==> Unfinished(commits[j], v, m, co)
      decreases |co| - i
    {
      LinkInside(co, i);
      var k := it.key;
      AdvanceRing(c, co, i, willErase);
      RingMember(c0, co, i);
      AdvancePlain(c, m, co, i, willErase);
      var e := c.entries[k];
      PlainAt(c, k);
      StoreStep(Commit(s, batch), v, m, co, i);
      StoreNext(s0, Commit(s, batch), m, co, i);
      if e.isDirty {
        var x := if e.coin.IsSpent() then None else Some(e.coin);
        CommitPut(s, batch, k, x);
        batch := batch[k := x];
      }
      AdvanceKeeps(c, k, willErase);
      var (next, c') := Advance(c, k, willErase);
      it, c := next, c';
      i, count := i + 1, count + 1;
      if full(count) {
        s, batch := Commit(s, batch), map[];
        CommitNothing(s);
        UnfinishedAt(s, v, m, co, i);
        commits := commits + [Disk(s, true)];
      }
    }
    BatchEnd(c0, co, v, i, willErase);
    AllStored(s0, c0, co, i, Commit(s, batch));
    s := Commit(s, batch);
    commits := commits + [Disk(s, false)];
  }

  lemma {:induction false} AllStored(s: Coins, c: Linked, order: seq<OutPoint>, i: int, s': Coins)
    requires Ring(c, order) && 0 <= i <= |order| && LinkAt(order, i) == Sentinel
    requires StoredSome(s, Plain(c), order[..i], s')
    ensures Stored(s, Plain(c), s')
  {
    hide Ring, Plain, StoredSome, Stored;
    assert i == |order| && order[..i] == order;
    FlaggedListed(c, order);
    StoreEnd(s, Plain(c), order, s');
  }

  lemma {:induction false} CommitNothing(s: Coins)
    ensures Commit(s, map[]) == s
  {
  }

  lemma {:induction false} StoreStep(s: Coins, v: Coins, m: Cells, order: seq<OutPoint>, i: int)
    requires 0 <= i < |order| && order[i] in m && Unspent(s) == Arrived(v, m, order[..i])
    ensures var k := order[i]; var c := m[k];
            Arrived(v, m, order[..i + 1]) ==
              Unspent(if !c.isDirty then s else if c.coin.IsSpent() then s - {k} else s[k := c.coin])
  {
    assert order[..i + 1][..i] == order[..i];
  }

  class CoinsDB {
    var coins: Coins
    const full: nat -> bool

    constructor (full: nat -> bool)
      ensures coins == map[] && View() == map[] && this.full == full
    {
      coins := map[];
      this.full := full;
    }

    ghost function View(): Coins
      reads this
    {
      Unspent(coins)
    }

    ghost predicate StoresSpent(k: OutPoint)
      reads this
    {
      k in coins && coins[k].IsSpent()
    }

    method GetCoin(k: OutPoint) returns (r: Option<Coin>)
      ensures Answers(r, View(), k) && (r.Some? <==> k in coins)
    {
      r := if k in coins then Some(coins[k]) else None;
    }

    /** Write dirty coins, erase spent ones. */
    method BatchWrite(child: CoinsViewCache, willErase: bool) returns (threw: bool)
      requires child.Built() && child.base == Database(this) && child.Valid()
      modifies this, child
      ensures !threw && View() == old(child.View()) && Stored(old(coins), Plain(old(child.coins)), coins)
      ensures willErase ==> child.coins == old(child.coins) && child.order == old(child.order)
      ensures !willErase ==> child.order == [] && child.Valid() && child.View() == old(child.View())
      ensures !willErase ==> Plain(child.coins) == Cleaned(Plain(old(child.coins)), ToSet(old(child.order)))
    {
      hide Ring, LayerOk, Overlay, Plain, Cleaned, ToSet, Unspent, Stored;
      ghost var m, keys := Plain(child.coins), ToSet(child.order);
      var c;
      ghost var commits;
      FlaggedKeys(child.coins, child.order);
      SyncedLayer(m, View(), keys);
      coins, c, commits := StoreBatch(coins, child.coins, child.order, willErase, full);
      if !willErase {
        child.coins, child.order := c, [];
      }
      threw := false;
    }
  }

  /** The view below a cache: the database, or another cache. */
  datatype Base = Database(db: CoinsDB) | Layer(cache: CoinsViewCache)

  ghost function Depth(b: Base): nat {
    match b
    case Database(_) => 0
    case Layer(c) => c.depth
  }

  ghost function Footprint(b: Base): set<object> {
    match b
    case Database(db) => {db}
    case Layer(c) => c.below + {c}
  }

  ghost predicate BaseBuilt(b: Base)
    decreases Depth(b), 1
  {
    b.Layer? ==> b.cache.Built()
  }

  ghost function BaseView(b: Base): Coins
    requires BaseBuilt(b)
    reads Footprint(b)
    decreases Depth(b), 1
  {
    match b
    case Database(db) => db.View()
    case Layer(c) => c.View()
  }

  ghost predicate BaseValid(b: Base)
    requires BaseBuilt(b)
    reads Footprint(b)
    decreases Depth(b), 1
  {
    b.Layer? ==> b.cache.Valid()
  }

  /** The view of every layer from here down. */
  ghost function BaseViews(b: Base): (r: seq<Coins>)
    requires BaseBuilt(b)
    reads Footprint(b)
    ensures |r| == Depth(b) + 1 && r[0] == BaseView(b)
    decreases Depth(b), 1
  {
    match b
    case Database(db) => [db.View()]
    case Layer(c) => c.Views()
  }

  datatype Upkeep = Fetch(key: OutPoint) | Uncache(key: OutPoint) | Sync | Flush

  class CoinsViewCache {
    const base: Base
    ghost const depth: nat
    ghost const below: set<object>

    /** `cacheCoins` with the sentinel, and the flagged entries in list order. */
    var coins: Linked
    ghost var order: seq<OutPoint>

    ghost predicate Built()
      decreases depth, 0
    {
      depth == Depth(base) + 1 && below == Footprint(base) && this !in below && BaseBuilt(base)
    }

    ghost function View(): Coins
      requires Built()
      reads this, below
      decreases depth, 0
    {
      Overlay(Plain(coins), BaseView(base))
    }

    ghost function Views(): (r: seq<Coins>)
      requires Built()
      reads this, below
      ensures |r| == depth + 1 && r[0] == View()
      decreases depth, 0
    {
      [View()] + BaseViews(base)
    }

    ghost predicate Valid()
      requires Built()
      reads this, below
      decreases depth, 0
    {
      Ring(coins, order) && LayerOk(Plain(coins), BaseView(base)) && BaseValid(base)
    }

    /** A spent coin is recorded where the cache looks for `k`: in an entry, or without one in the database. */
    ghost predicate HoldsSpent(k: OutPoint)
      reads this, if base.Database? then {base.db} else {}
    {
      if k in coins.entries then coins.entries[k].coin.IsSpent()
      else base.Database? && base.db.StoresSpent(k)
    }

    /** The entry for `k` is fresh, or will be when it is fetched: spending the coin leaves no trace here. */
    ghost predicate Forgets(k: OutPoint)
      reads this, if base.Database? then {base.db} else {}
    {
      if k in coins.entries then coins.entries[k].isFresh else HoldsSpent(k)
    }

    constructor (b: Base)
      requires BaseBuilt(b) && BaseValid(b)
      ensures Built() && Valid() && base == b && View() == BaseView(b)
      ensures coins == NO_ENTRIES
    {
      hide Ring, LayerOk, Overlay, Plain, Unspent;
      base := b;
      depth := Depth(b) + 1;
      below := Footprint(b);
      coins, order := NO_ENTRIES, [];
      new;
      BaseUnspent(b);
      EmptyLayer(BaseView(b));
    }

    /** `FetchCoin`: make sure `k` is cached if the base has anything for it. */
    method FetchCoin(k: OutPoint) returns (found: bool)
      requires Built() && Valid()
      modifies this, below
      ensures Valid() && View() == old(View()) && Views() == old(Views())
      ensures found <==> k in coins.entries
      ensures k in old(coins.entries) ==> coins == old(coins)
      ensures found <==> k in old(View()) || old(HoldsSpent(k))
      ensures found ==> (coins.entries[k].isFresh <==> old(Forgets(k)))
      ensures base.Database? ==> base.db.coins == old(base.db.coins)
      decreases depth, 1
    {
      hide Ring, LayerOk, Overlay, Plain, Unspent, Fill, FillOrder;
      PlainLook(coins, BaseView(base), k);
      if k in coins.entries { return true; }
      StoredOrNot(base, k);
      BaseUnspent(base);
      LayerCell(Plain(coins), BaseView(base), k);
      var r: Option<Coin>;
      match base {
        case Database(db) => r := db.GetCoin(k);
        case Layer(c) => r := c.GetCoin(k);
      }
      match r {
        case None => found := false;
        case Some(c) => {
          FillCell(coins, order, BaseView(base), k, c);
          coins, order := Fill(coins, k, c), FillOrder(order, k, c);
          found := true;
        }
      }
    }

    method GetCoin(k: OutPoint) returns (r: Option<Coin>)
      requires Built() && Valid()
      modifies this, below
      ensures Valid() && View() == old(View()) && Views() == old(Views())
      ensures r == if k in View() then Some(View()[k]) else None
      decreases depth, 2
    {
      var found := FetchCoin(k);
      PlainLook(coins, BaseView(base), k);
      r := if found && !coins.entries[k].coin.IsSpent() then Some(coins.entries[k].coin) else None;
    }

    method HaveCoin(k: OutPoint) returns (r: bool)
      requires Built() && Valid()
      modifies this, below
      ensures Valid() && View() == old(View()) && Views() == old(Views())
      ensures r <==> k in View()
    {
      var found := FetchCoin(k);
      PlainLook(coins, BaseView(base), k);
      r := found && !coins.entries[k].coin.IsSpent();
    }

    /** `AddCoin`. For every call the view is updated; the flags stay truthful if and only if a caller that does
        not allow overwriting does not hide an unspent coin of the base behind a new entry. */
    method AddCoin(k: OutPoint, coin: Coin, possibleOverwrite: bool) returns (threw: bool)
      requires Built() && Valid() && !coin.IsSpent()
      modifies this
      ensures Valid() <==> possibleOverwrite || coin.IsUnspendable() || k in old(coins.entries) || k !in BaseView(base)
      ensures Ring(coins, order) && Views()[1..] == old(Views())[1..]
      ensures threw <==> !coin.IsUnspendable() && !possibleOverwrite && k in old(coins.entries) && k in old(View())
      ensures View() == if threw || coin.IsUnspendable() then old(View()) else old(View())[k := coin]
      ensures threw || coin.IsUnspendable() ==> coins == old(coins)
      ensures !threw && !coin.IsUnspendable() ==>
        var was := old(coins.entries);
        var isFresh := (k in was && was[k].isFresh) || (!possibleOverwrite && !(k in was && was[k].isDirty));
        Plain(coins) == Plain(old(coins))[k := Cell(coin, true, isFresh)]
    {
      hide Ring, LayerOk, Overlay, Plain;
      threw := false;
      if coin.IsUnspendable() { return; }
      PlainLook(coins, BaseView(base), k);
      PlainEntry(coins, k);
      if !possibleOverwrite && k in coins.entries && !coins.entries[k].coin.IsSpent() { return true; }
      AddExact(Plain(coins), BaseView(base), k, coin, possibleOverwrite);
      AddView(Plain(coins), BaseView(base), k, coin, possibleOverwrite);
      var isFresh := !possibleOverwrite && !(k in coins.entries && coins.entries[k].isDirty);
      coins, order := PutAdded(coins, order, k, coin, isFresh);
    }

    /** `SpendCoin`. It reports success exactly for a visible coin and where a spent one is recorded. */
    method SpendCoin(k: OutPoint) returns (ok: bool, out: Coin)
      requires Built() && Valid()
      modifies this, below
      ensures Valid() && View() == old(View()) - {k} && Views()[1..] == old(Views())[1..]
      ensures k in old(View()) ==> ok && out == old(View())[k]
      ensures k !in old(View()) ==> out.IsSpent()
      ensures ok <==> k in old(View()) || old(HoldsSpent(k))
      ensures k in coins.entries <==> ok && !old(Forgets(k))
      ensures k in coins.entries ==> coins.entries[k].coin.IsSpent()
      ensures base.Database? ==> base.db.coins == old(base.db.coins)
    {
      hide Ring, LayerOk, Overlay, Plain, Spent;
      ok := FetchCoin(k);
      PlainLook(coins, BaseView(base), k);
      if !ok { return false, CLEARED; }
      out := coins.entries[k].coin;
      PlainEntry(coins, k);
      SpendView(Plain(coins), BaseView(base), k);
      SpentEntry(Plain(coins), k);
      coins, order := PutSpent(coins, order, k);
      PlainEntry(coins, k);
    }

    /** Drop a clean entry from the cache; flagged ones stay. */
    method Uncache(k: OutPoint)
      requires Built() && Valid()
      modifies this
      ensures Valid() && View() == old(View()) && Views() == old(Views())
      ensures Plain(coins) == if Clean(old(coins), k) then Plain(old(coins)) - {k} else Plain(old(coins))
    {
      hide Ring, LayerOk, Overlay, Plain, Erase;
      if k in coins.entries && !coins.entries[k].isDirty && !coins.entries[k].isFresh {
        PlainEntry(coins, k);
        UncacheKeepsView(Plain(coins), BaseView(base), k);
        EraseRing(coins, order, k);
        ErasePlain(coins, k);
        coins, order := Erase(coins, k), Omit(order, k);
      }
    }

    /** Receive the flagged entries of the cache on top; the cursor visits, and when it does not
        leave erasing to its owner cleans, the owner's list. */
    method BatchWrite(child: CoinsViewCache, willErase: bool) returns (threw: bool)
      requires Built() && Valid() && child.Built() && child.base == Layer(this) && child.Valid()
      modifies this, child
      ensures Valid() && !threw && View() == old(child.View()) && BaseViews(base) == old(BaseViews(base))
      ensures Received(Plain(old(coins)), Plain(old(child.coins)), Plain(coins))
      ensures willErase ==> child.coins == old(child.coins) && child.order == old(child.order)
      ensures !willErase ==> child.order == [] && child.Valid() && child.View() == old(child.View())
      ensures !willErase ==> Plain(child.coins) == Cleaned(Plain(old(child.coins)), ToSet(old(child.order)))
    {
      hide Ring, LayerOk, Overlay, Plain, Cleaned, ToSet, Received;
      ghost var v := child.View();
      ghost var m, keys := Plain(child.coins), ToSet(child.order);
      var c;
      FlaggedKeys(child.coins, child.order);
      SyncedLayer(m, View(), keys);
      coins, c, order, threw := WriteBatch(coins, order, child.coins, child.order, BaseView(base), willErase);
      if !willErase {
        child.coins, child.order := c, [];
      }
    }

    /** Write everything to the base and empty the cache. */
    method Flush() returns (threw: bool)
      requires Built() && Valid()
      modifies this, below
      ensures Valid() && !threw && View() == old(View()) && coins == NO_ENTRIES
      ensures BaseView(base) == old(View()) && BaseViews(base)[1..] == old(BaseViews(base))[1..]
      ensures base.Layer? ==>
        Received(Plain(old(base.cache.coins)), Plain(old(coins)), Plain(base.cache.coins))
          && unchanged(base.cache.below)
      ensures base.Database? ==> Stored(old(base.db.coins), Plain(old(coins)), base.db.coins)
    {
      hide Ring, LayerOk, Overlay, Plain, Received, Stored;
      OverlayOk(Plain(coins), BaseView(base));
      match base {
        case Database(db) => threw := db.BatchWrite(this, true);
        case Layer(c) => threw := c.BatchWrite(this, true);
      }
      coins, order := NO_ENTRIES, [];
      EmptyLayer(BaseView(base));
    }

    /** What may be done at any layer of a stack without any layer above it noticing. */
    method Maintain(level: nat, op: Upkeep)
      requires Built() && Valid()
      modifies this, below
      ensures Valid() && View() == old(View())
      decreases depth
    {
      hide Ring, LayerOk, Overlay, Plain;
      if level > 0 {
        if base.Layer? { base.cache.Maintain(level - 1, op); }
      } else {
        match op {
          case Fetch(k) => var _ := FetchCoin(k);
          case Uncache(k) => Uncache(k);
          case Sync => var _ := Sync();
          case Flush => var _ := Flush();
        }
      }
    }

    /** Write everything to the base and keep the unspent coins cached, unflagged. The check that
        no flagged entry is left never fails. */
    method Sync() returns (threw: bool)
      requires Built() && Valid()
      modifies this, below
      ensures Valid() && !threw && View() == old(View()) && order == []
      ensures Plain(coins) == Cleaned(Plain(old(coins)), ToSet(old(order)))
      ensures BaseView(base) == old(View()) && BaseViews(base)[1..] == old(BaseViews(base))[1..]
      ensures base.Layer? ==>
        Received(Plain(old(base.cache.coins)), Plain(old(coins)), Plain(base.cache.coins))
          && unchanged(base.cache.below)
      ensures base.Database? ==> Stored(old(base.db.coins), Plain(old(coins)), base.db.coins)
    {
      hide Ring, LayerOk, Overlay, Plain, Received, Stored;
      match base {
        case Database(db) => threw := db.BatchWrite(this, false);
        case Layer(c) => threw := c.BatchWrite(this, false);
      }
      RingEmpty(coins);
      if coins.next != Sentinel { threw := true; }
    }
  }

  predicate Clean(l: Linked, k: OutPoint) { k in l.entries && !l.entries[k].isDirty && !l.entries[k].isFresh }

  lemma {:induction false} RingEmpty(l: Linked)
    requires Ring(l, [])
    ensures l.next == Sentinel
  {
  }

  lemma {:induction false} SpentEntry(m: Cells, k: OutPoint)
    requires k in m
    ensures k in Spent(m, k) <==> !m[k].isFresh
    ensures k in Spent(m, k) ==> Spent(m, k)[k].coin.IsSpent()
  {
  }

  lemma {:induction false} StoredOrNot(b: Base, k: OutPoint)
    requires BaseBuilt(b)
    ensures b.Database? ==> (k in BaseView(b) <==> k in b.db.coins && !b.db.coins[k].IsSpent())
  {
  }

  /** Spending twice. The second call succeeds too if and only if the first one does and the entry for the coin
      was not fresh, or the database records a spent coin; nobody sees the coin after the first. */
  method SpentTwice(c: CoinsViewCache, k: OutPoint) returns (first: bool, second: bool)
    requires c.Built() && c.Valid()
    modifies c, c.below
    ensures c.Valid() && c.View() == old(c.View()) - {k}
    ensures k in old(c.View()) ==> first
    ensures second <==>
      first && (!old(c.Forgets(k)) || (c.base.Database? && old(c.base.db.StoresSpent(k))))
  {
    hide Ring, LayerOk, Overlay, Plain, Unspent;
    var out;
    PlainLook(c.coins, BaseView(c.base), k);
    first, out := c.SpendCoin(k);
    second, out := c.SpendCoin(k);
  }

  /** FRESH travels down with a flush: a coin added on top, flushed one layer and spent there is gone without a
      trace, so that spending it again fails. */
  method FreshArrives(k: OutPoint, coin: Coin, full: nat -> bool) returns (first: bool, second: bool)
    requires !coin.IsSpent() && !coin.IsUnspendable()
    ensures first && !second
  {
    hide Ring, LayerOk, Overlay, Unspent, Stored, Received, Plain;
    var db := new CoinsDB(full);
    var a := new CoinsViewCache(Database(db));
    var b := new CoinsViewCache(Layer(a));
    PlainEntry(a.coins, k);
    var threw := b.AddCoin(k, coin, false);
    ghost var m, p := Plain(b.coins), Plain(a.coins);
    var wrote := b.Flush();
    ReceivedFresh(p, m, Plain(a.coins), k);
    PlainEntry(a.coins, k);
    PlainLook(a.coins, BaseView(a.base), k);
    var out;
    first, out := a.SpendCoin(k);
    second, out := a.SpendCoin(k);
  }

  lemma {:induction false} ReceivedFresh(p: Cells, m: Cells, p': Cells, k: OutPoint)
    requires Received(p, m, p') && k !in p && k in m && m[k].isDirty && m[k].isFresh && !m[k].coin.IsSpent()
    ensures k in p' && p'[k] == m[k]
  {
    assert ReceivedAt(p, m[k], p', k);
  }

  lemma {:induction false} BaseUnspent(b: Base)
    requires BaseBuilt(b) && BaseValid(b)
    ensures forall k :: k in BaseView(b) ==> !BaseView(b)[k].IsSpent()
  {
    hide LayerOk, Overlay, Plain, Ring;
    if b.Layer? { OverlayOk(Plain(b.cache.coins), BaseView(b.cache.base)); }
  }

  lemma {:induction false} EmptyLayer(b: Coins)
    requires forall k :: k in b ==> !b[k].IsSpent()
    ensures Ring(NO_ENTRIES, []) && LayerOk(Plain(NO_ENTRIES), b) && Overlay(Plain(NO_ENTRIES), b) == b
  {
  }

  lemma {:induction false} FlaggedKeys(l: Linked, order: seq<OutPoint>)
    requires Ring(l, order)
    ensures forall k :: k in Plain(l) && (Plain(l)[k].isDirty || Plain(l)[k].isFresh) ==> k in ToSet(order)
  {
    hide Ring, Plain;
    FlaggedListed(l, order);
  }

  lemma {:induction false} PlainEntry(l: Linked, k: OutPoint)
    ensures k in Plain(l) <==> k in l.entries
    ensures k in l.entries ==> Plain(l)[k] == Cell(l.entries[k].coin, l.entries[k].isDirty, l.entries[k].isFresh)
  {
  }

  method PutAdded(l0: Linked, ghost order0: seq<OutPoint>, k: OutPoint, coin: Coin, isFresh: bool)
    returns (l: Linked, ghost order: seq<OutPoint>)
    requires Ring(l0, order0)
    ensures Ring(l, order)
    ensures Plain(l) == Plain(l0)[k := Cell(coin, true, (k in Plain(l0) && Plain(l0)[k].isFresh) || isFresh)]
  {
    hide Ring, AddFlags, Plain;
    l, order := PutDirty(l0, order0, k, coin);
    if isFresh {
      AddFlagsRing(l, order, k, false, true);
      AddFlagsPlain(l, k, false, true);
      l, order := AddFlags(l, k, false, true), Appended(order, k);
    }
  }

  method PutSpent(l0: Linked, ghost order0: seq<OutPoint>, k: OutPoint) returns (l: Linked, ghost order: seq<OutPoint>)
    requires Ring(l0, order0) && k in l0.entries
    ensures Ring(l, order) && k in Plain(l0) && Plain(l) == Spent(Plain(l0), k)
  {
    hide Ring, Erase, Plain;
    PlainEntry(l0, k);
    if l0.entries[k].isFresh {
      EraseRing(l0, order0, k);
      ErasePlain(l0, k);
      l, order := Erase(l0, k), Omit(order0, k);
    } else {
      l, order := PutDirty(l0, order0, k, CLEARED);
    }
  }

  lemma {:induction false} PlainLook(l: Linked, b: Coins, k: OutPoint)
    ensures k in l.entries ==> (k in Overlay(Plain(l), b) <==> !l.entries[k].coin.IsSpent())
    ensures k in l.entries && !l.entries[k].coin.IsSpent() ==> Overlay(Plain(l), b)[k] == l.entries[k].coin
    ensures k !in l.entries ==> (k in Overlay(Plain(l), b) <==> k in b)
  {
  }

  /** A new entry for a coin the base returned; a spent one is FRESH at once. */
  function Fill(l: Linked, k: OutPoint, c: Coin): Linked {
    var l1 := PutCoin(l, k, c);
    if c.IsSpent() then AddFlags(l1, k, false, true) else l1
  }

  ghost function FillOrder(order: seq<OutPoint>, k: OutPoint, c: Coin): seq<OutPoint> {
    if c.IsSpent() then Appended(order, k) else order
  }

  lemma {:induction false} FillCell(l: Linked, order: seq<OutPoint>, b: Coins, k: OutPoint, c: Coin)
    requires Ring(l, order) && LayerOk(Plain(l), b) && k !in l.entries && Answers(Some(c), b, k)
    ensures Ring(Fill(l, k, c), FillOrder(order, k, c)) && LayerOk(Plain(Fill(l, k, c)), b)
    ensures Overlay(Plain(Fill(l, k, c)), b) == Overlay(Plain(l), b) && k in Fill(l, k, c).entries
    ensures Fill(l, k, c).entries[k].coin == c && (Fill(l, k, c).entries[k].isFresh <==> c.IsSpent())
  {
    hide Ring, LayerOk, AddFlags, Overlay, Plain;
    var l1 := PutCoin(l, k, c);
    PutCoinRing(l, order, k, c);
    PutCoinPlain(l, k, c);
    if c.IsSpent() {
      AddFlagsRing(l1, order, k, false, true);
      AddFlagsPlain(l1, k, false, true);
    }
    PlainKeys(l); PlainKeys(l1); PlainKeys(Fill(l, k, c));
    PlainEntry(Fill(l, k, c), k);
    FetchKeepsView(Plain(l), b, k, c);
    assert Plain(Fill(l, k, c)) == Plain(l)[k := Cell(c, false, c.IsSpent())];
  }

  lemma {:induction false} PlainKeys(l: Linked)
    ensures Plain(l).Keys == l.entries.Keys
  {
  }

  // ---------------------------------------------------------------- whole runs

  datatype Op = Add(key: OutPoint, coin: Coin, overwrite: bool) | Spend(key: OutPoint) | Read(key: OutPoint)
              | Keep(level: nat, upkeep: Upkeep)

  /** What an operation does to a plain map of unspent coins. */
  function MapStep(m: Coins, op: Op): Coins {
    match op
    case Add(k, c, _) => if c.IsUnspendable() then m else m[k := c]
    case Spend(k) => m - {k}
    case Read(_) => m
    case Keep(_, _) => m
  }

  /** What an operation answers on a plain map. */
  function MapAnswer(m: Coins, op: Op): Option<Coin> {
    if (op.Spend? || op.Read?) && op.key in m then Some(m[op.key]) else None
  }

  /** The promise of a caller of `AddCoin`. */
  predicate Allowed(m: Coins, op: Op) {
    op.Add? ==> !op.coin.IsSpent() && (op.overwrite || op.coin.IsUnspendable() || op.key !in m)
  }

  function MapRun(m: Coins, ops: seq<Op>): Coins
    decreases |ops|
  {
    if ops == [] then m else MapRun(MapStep(m, ops[0]), ops[1..])
  }

  function MapAnswers(m: Coins, ops: seq<Op>): seq<Option<Coin>>
    decreases |ops|
  {
    if ops == [] then [] else [MapAnswer(m, ops[0])] + MapAnswers(MapStep(m, ops[0]), ops[1..])
  }

  predicate AllowedRun(m: Coins, ops: seq<Op>)
    decreases |ops|
  {
    ops == [] || (Allowed(m, ops[0]) && AllowedRun(MapStep(m, ops[0]), ops[1..]))
  }

  /** One operation on the top of a stack. */
  method Perform(top: CoinsViewCache, op: Op) returns (answer: Option<Coin>)
    requires top.Built() && top.Valid() && Allowed(top.View(), op)
    modifies top, top.below
    ensures top.Valid() && top.View() == MapStep(old(top.View()), op) && answer == MapAnswer(old(top.View()), op)
  {
    hide Ring, LayerOk, Overlay, Plain;
    answer := None;
    match op {
      case Add(k, c, overwrite) =>
        PlainLook(top.coins, BaseView(top.base), k);
        var _ := top.AddCoin(k, c, overwrite);
      case Spend(k) =>
        OverlayOk(Plain(top.coins), BaseView(top.base));
        var _, out := top.SpendCoin(k);
        answer := if out.IsSpent() then None else Some(out);
      case Read(k) =>
        answer := top.GetCoin(k);
      case Keep(level, upkeep) =>
        top.Maintain(level, upkeep);
    }
  }

  /** Any stack, under any run of operations, answers and ends like a plain map. */
  method Run(top: CoinsViewCache, ops: seq<Op>) returns (answers: seq<Option<Coin>>)
    requires top.Built() && top.Valid() && AllowedRun(top.View(), ops)
    modifies top, top.below
    ensures top.Valid() && top.View() == MapRun(old(top.View()), ops)
    ensures answers == MapAnswers(old(top.View()), ops)
  {
    hide Ring, LayerOk, Overlay, Plain, MapStep, MapAnswer, Allowed;
    answers := [];
    ghost var m := top.View();
    var i := 0;
    assert ops[0..] == ops;
    while i < |ops|
      invariant 0 <= i <= |ops| && top.Valid() && AllowedRun(top.View(), ops[i..])
      invariant MapRun(top.View(), ops[i..]) == MapRun(m, ops)
      invariant answers + MapAnswers(top.View(), ops[i..]) == MapAnswers(m, ops)
    {
      assert ops[i..][0] == ops[i] && ops[i..][1..] == ops[i + 1..];
      var a := Perform(top, ops[i]);
      answers := answers + [a];
      i := i + 1;
    }
    assert ops[i..] == [];
  }

  // ---------------------------------------------------------------- the built-in check

  /** `SanityCheck`: its assertions about flags and links hold of every valid layer. */
  method SanityCheck(l: Linked, ghost order: seq<OutPoint>, ghost b: Coins) returns (ok: bool)
    requires Ring(l, order) && LayerOk(Plain(l), b)
    ensures ok
  {
    hide *;
    var flagsOk, flagged := CheckFlags(l, b);
    var linksOk, linked := CheckLinks(l, order);
    FlaggedAre(l, order);
    ok := flagsOk && linksOk && linked == flagged;
  }

  ghost function FlaggedIn(l: Linked, keys: set<OutPoint>): set<OutPoint> {
    set k | k in keys && k in l.entries && l.entries[k].Flagged()
  }

  method CheckFlags(l: Linked, ghost b: Coins) returns (ok: bool, flagged: nat)
    requires LayerOk(Plain(l), b)
    ensures ok && flagged == |FlaggedIn(l, l.entries.Keys)|
  {
    hide Plain, LayerOk;
    ok, flagged := true, 0;
    var rest := l.entries.Keys;
    assert FlaggedIn(l, l.entries.Keys - rest) == {};
    while rest != {}
      invariant ok && rest <= l.entries.Keys && flagged == |FlaggedIn(l, l.entries.Keys - rest)|
      decreases rest
    {
      var k :| k in rest;
      var e := l.entries[k];
      var attr := (if e.isDirty then 1 else 0) + (if e.isFresh then 2 else 0) + (if e.coin.IsSpent() then 4 else 0);
      PlainEntry(l, k);
      LayerCell(Plain(l), b, k);
      FiveCombinations(Plain(l)[k], b, k);
      ok := ok && attr != 2 && attr != 4 && attr != 7;
      FlaggedStep(l, rest, k);
      if e.Flagged() { flagged := flagged + 1; }
      rest := rest - {k};
    }
    assert l.entries.Keys - rest == l.entries.Keys;
  }

  lemma {:induction false} FlaggedStep(l: Linked, rest: set<OutPoint>, k: OutPoint)
    requires k in rest && rest <= l.entries.Keys
    ensures |FlaggedIn(l, l.entries.Keys - (rest - {k}))| ==
      |FlaggedIn(l, l.entries.Keys - rest)| + if l.entries[k].Flagged() then 1 else 0
  {
    var was, now := FlaggedIn(l, l.entries.Keys - rest), FlaggedIn(l, l.entries.Keys - (rest - {k}));
    assert now == if l.entries[k].Flagged() then was + {k} else was;
  }

  method CheckLinks(l: Linked, ghost order: seq<OutPoint>) returns (ok: bool, linked: nat)
    requires Ring(l, order)
    ensures ok && linked == |order|
  {
    RingStart(l, order);
    hide *;
    ok, linked := true, 0;
    var it := l.next;
    while it != Sentinel && ok
      invariant ok && linked <= |order| && it == LinkAt(order, linked)
      decreases |order| - linked
    {
      LinkInside(order, linked);
      LinkBothWays(l, order, linked);
      var e := l.entries[it.key];
      ok := ok && PrevOf(l, e.next) == it && NextOf(l, e.prev) == it && e.Flagged();
      linked := linked + 1;
      it := e.next;
    }
    LinkIsEnd(order, linked);
  }

  lemma {:induction false} RingStart(l: Linked, order: seq<OutPoint>)
    requires Ring(l, order)
    ensures l.next == LinkAt(order, 0)
  {
  }

  function PrevOf(l: Linked, at: Link): Link {
    match at
    case Null => Null
    case Sentinel => l.prev
    case At(k) => if k in l.entries then l.entries[k].prev else Null
  }

  function NextOf(l: Linked, at: Link): Link {
    match at
    case Null => Null
    case Sentinel => l.next
    case At(k) => if k in l.entries then l.entries[k].next else Null
  }

  lemma {:induction false} LinkBothWays(l: Linked, order: seq<OutPoint>, i: nat)
    requires Ring(l, order) && i < |order|
    ensures order[i] in l.entries
    ensures var e := l.entries[order[i]];
            && PrevOf(l, e.next) == At(order[i]) && NextOf(l, e.prev) == At(order[i])
            && e.Flagged() && e.next == LinkAt(order, i + 1)
  {
    assert InRing(l.entries[order[i]], order, i);
    if i > 0 { assert InRing(l.entries[order[i - 1]], order, i - 1); }
    if i + 1 < |order| { assert InRing(l.entries[order[i + 1]], order, i + 1); }
  }

  lemma {:induction false} LinkIsEnd(order: seq<OutPoint>, i: nat)
    requires i <= |order|
    ensures LinkAt(order, i) == Sentinel <==> i == |order|
  {
  }

  /** The list holds exactly the flagged entries. */
  lemma {:induction false} FlaggedAre(l: Linked, order: seq<OutPoint>)
    requires Ring(l, order)
    ensures FlaggedIn(l, l.entries.Keys) == ToSet(order) && |FlaggedIn(l, l.entries.Keys)| == |order|
  {
    var flagged := FlaggedIn(l, l.entries.Keys);
    forall k | k in order ensures k in flagged {
      var i :| 0 <= i < |order| && order[i] == k;
      assert InRing(l.entries[order[i]], order, i);
    }
    forall k | k in flagged ensures k in order { assert !Loose(l.entries[k]); }
    DistinctCard(order);
    assert flagged == ToSet(order);
  }
}
