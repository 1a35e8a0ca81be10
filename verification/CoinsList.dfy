/** The intrusive list of flagged cache entries: a circular doubly-linked list through a sentinel. */
module FlagList {
  import opened Options
  import opened CoinsTheory
  import opened Lists

  /** What `m_prev` and `m_next` point to. Entries do not move, so an entry is named by its key. */
  datatype Link = Null | Sentinel | At(key: OutPoint)

  datatype Entry = Entry(coin: Coin, isDirty: bool, isFresh: bool, prev: Link, next: Link) {
    predicate Flagged() { isDirty || isFresh }
  }

  const NEW_ENTRY: Entry := Entry(CLEARED, false, false, Null, Null)

  /** The cache map and the sentinel's two links. */
  datatype Linked = Linked(entries: map<OutPoint, Entry>, prev: Link, next: Link)

  const NO_ENTRIES: Linked := Linked(map[], Sentinel, Sentinel)

  /** The contents without the links. */
  ghost function Plain(l: Linked): Cells {
    map k | k in l.entries :: Cell(l.entries[k].coin, l.entries[k].isDirty, l.entries[k].isFresh)
  }

  ghost function LinkAt(order: seq<OutPoint>, i: int): Link {
    if 0 <= i < |order| then At(order[i]) else Sentinel
  }

  ghost predicate InRing(e: Entry, order: seq<OutPoint>, i: int) {
    e.Flagged() && e.prev == LinkAt(order, i - 1) && e.next == LinkAt(order, i + 1)
  }

  /** Following `next` from the sentinel visits `order`, following `prev` visits it backwards, and
      `order` holds exactly the flagged entries. */
  ghost predicate Ring(l: Linked, order: seq<OutPoint>) {
    && Distinct(order) && l.next == LinkAt(order, 0) && l.prev == LinkAt(order, |order| - 1)
    && (forall i :: 0 <= i < |order| ==> order[i] in l.entries && InRing(l.entries[order[i]], order, i))
    && (forall k :: k in l.entries && k !in order ==> Loose(l.entries[k]))
  }

  ghost predicate Loose(e: Entry) { !e.Flagged() && e.prev == Null && e.next == Null }

  // ---------------------------------------------------------------- the operations

  function SetPrev(l: Linked, at: Link, to: Link): Linked {
    match at
    case Null => l
    case Sentinel => l.(prev := to)
    case At(k) => if k in l.entries then l.(entries := l.entries[k := l.entries[k].(prev := to)]) else l
  }

  function SetNext(l: Linked, at: Link, to: Link): Linked {
    match at
    case Null => l
    case Sentinel => l.(next := to)
    case At(k) => if k in l.entries then l.(entries := l.entries[k := l.entries[k].(next := to)]) else l
  }

  function AddFlags(l: Linked, k: OutPoint, dirty: bool, isFresh: bool): Linked
    requires k in l.entries
  {
    var l1 :=
      if l.entries[k].Flagged() then l
      else
        var la := l.(entries := l.entries[k := l.entries[k].(prev := l.prev, next := Sentinel)], prev := At(k));
        SetNext(la, l.prev, At(k));
    assert k in l1.entries;
    var e := l1.entries[k];
    l1.(entries := l1.entries[k := e.(isDirty := e.isDirty || dirty, isFresh := e.isFresh || isFresh)])
  }

  function SetClean(l: Linked, k: OutPoint): Linked
    requires k in l.entries
  {
    if !l.entries[k].Flagged() then l
    else
      var prev, next := l.entries[k].prev, l.entries[k].next;
      var l2 := SetNext(SetPrev(l, next, prev), prev, next);
      assert k in l2.entries;
      l2.(entries := l2.entries[k := l2.entries[k].(isDirty := false, isFresh := false, prev := Null, next := Null)])
  }

  /** Erasing runs the entry's destructor, which unlinks it. */
  function Erase(l: Linked, k: OutPoint): Linked
    requires k in l.entries
  {
    var l1 := SetClean(l, k);
    l1.(entries := l1.entries - {k})
  }

  /** `try_emplace`, then assigning the coin. */
  function PutCoin(l: Linked, k: OutPoint, c: Coin): Linked {
    var e := if k in l.entries then l.entries[k] else NEW_ENTRY;
    l.(entries := l.entries[k := e.(coin := c)])
  }

  // ---------------------------------------------------------------- what they keep

  ghost function Appended(order: seq<OutPoint>, k: OutPoint): seq<OutPoint> {
    if k in order then order else order + [k]
  }

  ghost function Omit(order: seq<OutPoint>, k: OutPoint): seq<OutPoint> {
    if k !in order then order
    else
      var j :| 0 <= j < |order| && order[j] == k;
      Dropped(order, j)
  }

  ghost function Dropped(order: seq<OutPoint>, j: int): seq<OutPoint>
    requires 0 <= j < |order|
  {
    order[..j] + order[j + 1..]
  }

  lemma {:induction false} PutCoinPlain(l: Linked, k: OutPoint, c: Coin)
    ensures var was := if k in Plain(l) then Plain(l)[k] else Cell(CLEARED, false, false);
            Plain(PutCoin(l, k, c)) == Plain(l)[k := was.(coin := c)]
  {
  }

  lemma {:induction false} PutCoinRing(l: Linked, order: seq<OutPoint>, k: OutPoint, c: Coin)
    requires Ring(l, order)
    ensures Ring(PutCoin(l, k, c), order)
  {
    hide LinkAt, Distinct;
    var l' := PutCoin(l, k, c);
    forall i | 0 <= i < |order| ensures order[i] in l'.entries && InRing(l'.entries[order[i]], order, i) {
      assert InRing(l.entries[order[i]], order, i);
    }
  }

  lemma {:induction false} AddFlagsPlain(l: Linked, k: OutPoint, dirty: bool, isFresh: bool)
    requires k in l.entries
    ensures var was := Plain(l)[k];
            Plain(AddFlags(l, k, dirty, isFresh)) ==
              Plain(l)[k := Cell(was.coin, was.isDirty || dirty, was.isFresh || isFresh)]
  {
    hide SetNext;
    if !l.entries[k].Flagged() {
      var la := l.(entries := l.entries[k := l.entries[k].(prev := l.prev, next := Sentinel)], prev := At(k));
      assert Plain(la) == Plain(l);
      SetNextPlain(la, l.prev, At(k));
    }
  }

  lemma {:induction false} SetNextPlain(l: Linked, at: Link, to: Link)
    ensures Plain(SetNext(l, at, to)) == Plain(l)
  {
  }

  lemma {:induction false} AddFlagsAgain(l: Linked, order: seq<OutPoint>, k: OutPoint, dirty: bool, isFresh: bool)
    requires Ring(l, order) && k in order && k in l.entries
    ensures Ring(AddFlags(l, k, dirty, isFresh), order)
  {
    hide LinkAt, Distinct;
    var l' := AddFlags(l, k, dirty, isFresh);
    var j :| 0 <= j < |order| && order[j] == k;
    assert InRing(l.entries[order[j]], order, j);
    forall i | 0 <= i < |order| ensures order[i] in l'.entries && InRing(l'.entries[order[i]], order, i) {
      assert InRing(l.entries[order[i]], order, i);
    }
  }

  lemma {:induction false} SetPrevAt(l: Linked, at: Link, to: Link, x: OutPoint)
    ensures var l' := SetPrev(l, at, to);
            && l'.entries.Keys == l.entries.Keys && l'.next == l.next
              && l'.prev == (if at == Sentinel then to else l.prev)
            && (x in l.entries ==> l'.entries[x] == if at == At(x) then l.entries[x].(prev := to) else l.entries[x])
  {
  }

  lemma {:induction false} SetNextAt(l: Linked, at: Link, to: Link, x: OutPoint)
    ensures var l' := SetNext(l, at, to);
            && l'.entries.Keys == l.entries.Keys && l'.prev == l.prev
              && l'.next == (if at == Sentinel then to else l.next)
            && (x in l.entries ==> l'.entries[x] == if at == At(x) then l.entries[x].(next := to) else l.entries[x])
  {
  }

  /** The effect of linking in `k` on entry `x`. */
  lemma {:induction false} AddFlagsAt(l: Linked, k: OutPoint, dirty: bool, isFresh: bool, x: OutPoint)
    requires k in l.entries && !l.entries[k].Flagged() && l.prev != At(k)
    ensures var l' := AddFlags(l, k, dirty, isFresh);
            && l'.entries.Keys == l.entries.Keys && l'.prev == At(k)
            && l'.next == (if l.prev == Sentinel then At(k) else l.next)
            && (x in l.entries && x != k ==>
              l'.entries[x] == if l.prev == At(x) then l.entries[x].(next := At(k)) else l.entries[x])
            && l'.entries[k] == Entry(l.entries[k].coin, dirty, isFresh, l.prev, Sentinel)
  {
    hide SetNext;
    var la := l.(entries := l.entries[k := l.entries[k].(prev := l.prev, next := Sentinel)], prev := At(k));
    SetNextAt(la, l.prev, At(k), x);
    SetNextAt(la, l.prev, At(k), k);
  }

  lemma {:induction false} AddFlagsFirst(l: Linked, order: seq<OutPoint>, k: OutPoint, dirty: bool, isFresh: bool)
    requires Ring(l, order) && k !in order && k in l.entries && (dirty || isFresh)
    ensures Ring(AddFlags(l, k, dirty, isFresh), order + [k])
  {
    hide AddFlags, LinkAt, Distinct;
    var l', n, o := AddFlags(l, k, dirty, isFresh), |order|, order + [k];
    assert Loose(l.entries[k]);
    AppendedLinks(order, k, n);
    AddFlagsAt(l, k, dirty, isFresh, k);
    forall i | 0 <= i < |o| ensures o[i] in l'.entries && InRing(l'.entries[o[i]], o, i) {
      if i < n {
        assert InRing(l.entries[order[i]], order, i);
        AddFlagsAt(l, k, dirty, isFresh, order[i]);
        LinkIs(order, n - 1, i);
      }
      AppendedLinks(order, k, i);
    }
    forall x | x in l'.entries && x !in o ensures Loose(l'.entries[x]) {
      AddFlagsAt(l, k, dirty, isFresh, x);
      assert x !in order && Loose(l.entries[x]);
      LinkIn(order, n - 1, x);
    }
    LinkIn(order, n - 1, k);
  }

  lemma {:induction false} LinkIn(order: seq<OutPoint>, a: int, x: OutPoint)
    requires x !in order
    ensures LinkAt(order, a) != At(x)
  {
  }

  lemma {:induction false} AppendedLinks(order: seq<OutPoint>, k: OutPoint, i: int)
    requires 0 <= i <= |order| && k !in order && Distinct(order)
    ensures var o := order + [k];
            && Distinct(o) && LinkAt(o, i - 1) == LinkAt(order, i - 1) && o[i] == (if i < |order| then order[i] else k)
            && LinkAt(o, i) == At(o[i]) && LinkAt(o, |order| + 1) == Sentinel
            && (i < |order| ==> LinkAt(o, i + 1) == if i + 1 == |order| then At(k) else LinkAt(order, i + 1))
            && LinkAt(o, 0) == (if |order| == 0 then At(k) else LinkAt(order, 0)) && LinkAt(order, |order| - 1) != At(k)
            && (LinkAt(order, |order| - 1) == Sentinel <==> |order| == 0)
  {
  }

  lemma {:induction false} AddFlagsRing(l: Linked, order: seq<OutPoint>, k: OutPoint, dirty: bool, isFresh: bool)
    requires Ring(l, order) && k in l.entries && (dirty || isFresh)
    ensures Ring(AddFlags(l, k, dirty, isFresh), Appended(order, k))
  {
    hide Ring, AddFlags;
    if k in order { AddFlagsAgain(l, order, k, dirty, isFresh); } else { AddFlagsFirst(l, order, k, dirty, isFresh); }
  }

  /** The effect of unlinking `k` on entry `x`. */
  lemma {:induction false} SetCleanAt(l: Linked, k: OutPoint, x: OutPoint)
    requires k in l.entries && l.entries[k].Flagged()
    ensures var l' := SetClean(l, k); var e := l.entries[k];
            && l'.entries.Keys == l.entries.Keys
            && l'.prev == (if e.next == Sentinel then e.prev else l.prev)
              && l'.next == (if e.prev == Sentinel then e.next else l.next)
            && (x in l.entries && x != k ==>
                  l'.entries[x] == l.entries[x].(prev := if e.next == At(x) then e.prev else l.entries[x].prev,
                                                 next := if e.prev == At(x) then e.next else l.entries[x].next))
            && l'.entries[k] == Entry(e.coin, false, false, Null, Null)
  {
    hide SetPrev, SetNext;
    var e := l.entries[k];
    SetPrevAt(l, e.next, e.prev, x);
    SetPrevAt(l, e.next, e.prev, k);
    SetNextAt(SetPrev(l, e.next, e.prev), e.prev, e.next, x);
    SetNextAt(SetPrev(l, e.next, e.prev), e.prev, e.next, k);
  }

  lemma {:induction false} SetCleanPlain(l: Linked, k: OutPoint)
    requires k in l.entries
    ensures Plain(SetClean(l, k)) == Plain(l)[k := Cell(Plain(l)[k].coin, false, false)]
  {
    if l.entries[k].Flagged() {
      hide SetClean;
      var l', p := SetClean(l, k), Plain(l)[k := Cell(Plain(l)[k].coin, false, false)];
      SetCleanAt(l, k, k);
      forall x | x in l.entries ensures Plain(l')[x] == p[x] { SetCleanAt(l, k, x); }
      assert Plain(l').Keys == p.Keys;
    }
  }

  lemma {:induction false} SetCleanRing(l: Linked, order: seq<OutPoint>, j: int)
    requires Ring(l, order) && 0 <= j < |order|
    ensures order[j] in l.entries && Ring(SetClean(l, order[j]), Dropped(order, j))
  {
    hide SetClean, LinkAt, Dropped, Distinct, InRing;
    var k, o := order[j], Dropped(order, j);
    UnlinkedEnds(l, order, j);
    var l' := SetClean(l, k);
    forall i | 0 <= i < |o| ensures o[i] in l'.entries && InRing(l'.entries[o[i]], o, i) {
      UnlinkedAt(l, order, j, i);
    }
    forall x | x in l'.entries && x !in o ensures Loose(l'.entries[x]) {
      if x != k { DroppedMember(order, j, x); LooseAt(l, order, j, x); }
    }
  }

  lemma {:induction false} UnlinkedEnds(l: Linked, order: seq<OutPoint>, j: int)
    requires Ring(l, order) && 0 <= j < |order|
    ensures order[j] in l.entries
    ensures var l' := SetClean(l, order[j]); var o := Dropped(order, j);
            && Distinct(o) && |o| == |order| - 1 && l'.next == LinkAt(o, 0) && l'.prev == LinkAt(o, |o| - 1)
            && l'.entries.Keys == l.entries.Keys && Loose(l'.entries[order[j]])
  {
    hide SetClean, LinkAt, Dropped, Distinct;
    assert InRing(l.entries[order[j]], order, j);
    SetCleanAt(l, order[j], order[j]);
    DroppedDistinct(order, j);
    DroppedLink(order, j, 0); DroppedLink(order, j, |order| - 2);
    LinkIs(order, j - 1, 0); LinkIs(order, j + 1, 0);
  }

  lemma {:induction false} DroppedDistinct(order: seq<OutPoint>, j: int)
    requires 0 <= j < |order| && Distinct(order)
    ensures Distinct(Dropped(order, j)) && order[j] !in Dropped(order, j)
  {
  }

  lemma {:induction false} DroppedLink(order: seq<OutPoint>, j: int, i: int)
    requires 0 <= j < |order| && -1 <= i < |order|
    ensures LinkAt(Dropped(order, j), i) == LinkAt(order, if i < j then i else i + 1)
    ensures |Dropped(order, j)| == |order| - 1
    ensures 0 <= i < |order| - 1 ==> Dropped(order, j)[i] == order[if i < j then i else i + 1]
  {
  }

  /** In a list without repetitions, links tell positions. */
  lemma {:induction false} LinkIs(order: seq<OutPoint>, a: int, b: int)
    requires Distinct(order) && 0 <= b < |order| && -1 <= a <= |order|
    ensures LinkAt(order, a) == At(order[b]) <==> a == b
    ensures LinkAt(order, a) == Sentinel <==> a == -1 || a == |order|
  {
  }

  lemma {:induction false} UnlinkedAt(l: Linked, order: seq<OutPoint>, j: int, i: int)
    requires Ring(l, order) && 0 <= j < |order| && 0 <= i < |order| - 1
    ensures var o := Dropped(order, j);
            && order[j] in l.entries && o[i] in SetClean(l, order[j]).entries
            && InRing(SetClean(l, order[j]).entries[o[i]], o, i)
  {
    hide SetClean, LinkAt, Dropped;
    var i' := if i < j then i else i + 1;
    assert InRing(l.entries[order[j]], order, j) && InRing(l.entries[order[i']], order, i');
    SetCleanAt(l, order[j], order[i']);
    DroppedLink(order, j, i - 1); DroppedLink(order, j, i); DroppedLink(order, j, i + 1);
    LinkIs(order, j - 1, i'); LinkIs(order, j + 1, i');
  }

  lemma {:induction false} LooseAt(l: Linked, order: seq<OutPoint>, j: int, x: OutPoint)
    requires Ring(l, order) && 0 <= j < |order| && x in l.entries && x !in order
    ensures order[j] in l.entries && x in SetClean(l, order[j]).entries && Loose(SetClean(l, order[j]).entries[x])
  {
    hide SetClean;
    assert InRing(l.entries[order[j]], order, j);
    SetCleanAt(l, order[j], x);
  }

  lemma {:induction false} DroppedMember(order: seq<OutPoint>, j: int, x: OutPoint)
    requires 0 <= j < |order| && x !in Dropped(order, j) && x != order[j]
    ensures x !in order
  {
    assert order == order[..j] + [order[j]] + order[j + 1..];
  }

  lemma {:induction false} ErasePlain(l: Linked, k: OutPoint)
    requires k in l.entries
    ensures Plain(Erase(l, k)) == Plain(l) - {k}
  {
    hide SetClean;
    SetCleanPlain(l, k);
    var l1 := SetClean(l, k);
    assert Plain(l1).Keys == l1.entries.Keys && Plain(l).Keys == l.entries.Keys;
    assert Plain(Erase(l, k)).Keys == (Plain(l) - {k}).Keys;
    forall x | x in Plain(l) && x != k
      ensures Plain(Erase(l, k))[x] == Plain(l)[x]
    {
      assert Plain(l1)[x] == Plain(l)[x];
    }
  }

  lemma {:induction false} EraseRing(l: Linked, order: seq<OutPoint>, k: OutPoint)
    requires Ring(l, order) && k in l.entries
    ensures Ring(Erase(l, k), Omit(order, k)) && k !in Omit(order, k)
  {
    if k in order {
      var j :| 0 <= j < |order| && order[j] == k && Omit(order, k) == Dropped(order, j);
      SetCleanRing(l, order, j);
      DroppedDistinct(order, j);
      RingWithout(SetClean(l, k), Dropped(order, j), k);
    } else {
      assert Loose(l.entries[k]);
      RingWithout(l, order, k);
    }
  }

  lemma {:induction false} RingWithout(l: Linked, order: seq<OutPoint>, k: OutPoint)
    requires Ring(l, order) && k !in order
    ensures Ring(l.(entries := l.entries - {k}), order)
  {
    hide LinkAt, Distinct, InRing;
  }

  // ---------------------------------------------------------------- writing one layer into the next

  /** `BatchWrite`'s treatment of one dirty entry. */
  method WriteEntry(p0: Linked, ghost order0: seq<OutPoint>, k: OutPoint, e: Entry)
    returns (p: Linked, ghost order: seq<OutPoint>, threw: bool)
    requires Ring(p0, order0)
    ensures threw <==> Written(Plain(p0), k, Cell(e.coin, e.isDirty, e.isFresh)).None?
    ensures !threw ==> Ring(p, order) && Plain(p) == Written(Plain(p0), k, Cell(e.coin, e.isDirty, e.isFresh)).value
    ensures threw <==> e.isFresh && k in Plain(p0) && !Plain(p0)[k].coin.IsSpent()
    ensures !threw ==>
      && ReceivedAt(Plain(p0), Cell(e.coin, e.isDirty, e.isFresh), Plain(p), k)
      && forall i :: i != k ==> SameAt(Plain(p0), Plain(p), i)
  {
    hide Ring, AddFlags, Erase, PutCoin, ReceivedAt, SameAt;
    WrittenExactly(Plain(p0), k, Cell(e.coin, e.isDirty, e.isFresh));
    p, order, threw := p0, order0, false;
    assert k in Plain(p0) <==> k in p0.entries;
    if k !in p.entries {
      if !(e.isFresh && e.coin.IsSpent()) {
        p, order := PutDirty(p, order, k, e.coin);
        if e.isFresh {
          AddFlagsRing(p, order, k, false, true);
          AddFlagsPlain(p, k, false, true);
          p, order := AddFlags(p, k, false, true), Appended(order, k);
        }
      }
    } else if e.isFresh && !p.entries[k].coin.IsSpent() {
      threw := true;
    } else if p.entries[k].isFresh && e.coin.IsSpent() {
      EraseRing(p, order, k);
      ErasePlain(p, k);
      p, order := Erase(p, k), Omit(order, k);
    } else {
      p, order := PutDirty(p, order, k, e.coin);
    }
  }

  /** Assign a coin and mark the entry DIRTY. */
  method PutDirty(p0: Linked, ghost order0: seq<OutPoint>, k: OutPoint, c: Coin)
    returns (p: Linked, ghost order: seq<OutPoint>)
    requires Ring(p0, order0)
    ensures k in p.entries && Ring(p, order)
    ensures Plain(p) == Plain(p0)[k := Cell(c, true, k in Plain(p0) && Plain(p0)[k].isFresh)]
  {
    hide Ring, AddFlags;
    p, order := PutCoin(p0, k, c), order0;
    PutCoinRing(p0, order, k, c);
    PutCoinPlain(p0, k, c);
    AddFlagsRing(p, order, k, true, false);
    AddFlagsPlain(p, k, true, false);
    p, order := AddFlags(p, k, true, false), Appended(order, k);
    assert k in Plain(p);
  }

  /** `NextAndMaybeErase`: the entry after `k`, and the list once the cursor has left `k`. */
  function Advance(c: Linked, k: OutPoint, willErase: bool): (r: (Link, Linked))
    requires k in c.entries
  {
    (c.entries[k].next, if willErase then c else if c.entries[k].coin.IsSpent() then Erase(c, k) else SetClean(c, k))
  }

  ghost function Passed(m: Cells, order: seq<OutPoint>, i: int, willErase: bool): Cells
    requires 0 <= i <= |order|
  {
    if willErase then m else Cleaned(m, ToSet(order[..i]))
  }

  ghost function Pending(order: seq<OutPoint>, i: int, willErase: bool): seq<OutPoint>
    requires 0 <= i <= |order|
  {
    if willErase then order else order[i..]
  }

  lemma {:induction false} CleanedStep(m: Cells, keys: set<OutPoint>, k: OutPoint)
    requires k in m && k !in keys
    ensures k in Cleaned(m, keys) && Cleaned(m, keys)[k] == m[k]
    ensures Cleaned(m, keys + {k}) ==
      if m[k].coin.IsSpent() then Cleaned(m, keys) - {k} else Cleaned(m, keys)[k := Cell(m[k].coin, false, false)]
  {
  }

  lemma {:induction false} AdvanceRing(c: Linked, order: seq<OutPoint>, i: int, willErase: bool)
    requires 0 <= i < |order| && Distinct(order) && Ring(c, Pending(order, i, willErase))
    ensures order[i] in c.entries
    ensures Advance(c, order[i], willErase).0 == LinkAt(order, i + 1)
    ensures Ring(Advance(c, order[i], willErase).1, Pending(order, i + 1, willErase))
  {
    hide Ring, SetClean;
    if willErase {
      RingNext(c, order, i);
    } else {
      var rest := order[i..];
      assert rest[0] == order[i];
      RingNext(c, rest, 0);
      assert LinkAt(rest, 1) == LinkAt(order, i + 1);
      SetCleanRing(c, rest, 0);
      assert Dropped(rest, 0) == order[i + 1..];
      DroppedDistinct(rest, 0);
      RingWithout(SetClean(c, order[i]), order[i + 1..], order[i]);
    }
  }

  lemma {:induction false} RingNext(l: Linked, order: seq<OutPoint>, i: int)
    requires Ring(l, order) && 0 <= i < |order|
    ensures Distinct(order) && order[i] in l.entries && l.entries[order[i]].next == LinkAt(order, i + 1)
  {
    assert InRing(l.entries[order[i]], order, i);
  }

  lemma {:induction false} AdvancePlain(c: Linked, m: Cells, order: seq<OutPoint>, i: int, willErase: bool)
    requires 0 <= i < |order| && Distinct(order) && order[i] in c.entries && order[i] in m
    requires Plain(c) == Passed(m, order, i, willErase)
    ensures Plain(c)[order[i]] == m[order[i]]
    ensures Plain(Advance(c, order[i], willErase).1) == Passed(m, order, i + 1, willErase)
  {
    hide Erase, SetClean, Cleaned;
    var k := order[i];
    if !willErase {
      assert k !in ToSet(order[..i]);
      assert order[..i + 1] == order[..i] + [k];
      assert ToSet(order[..i + 1]) == ToSet(order[..i]) + {k};
      CleanedStep(m, ToSet(order[..i]), k);
      ErasePlain(c, k);
      SetCleanPlain(c, k);
    }
  }

  lemma {:induction false} AdvanceKeeps(c: Linked, k: OutPoint, willErase: bool)
    requires k in c.entries
    ensures willErase ==> Advance(c, k, willErase).1 == c
  {
  }

  lemma {:induction false} LinkInside(order: seq<OutPoint>, i: int)
    requires 0 <= i <= |order| && LinkAt(order, i) != Sentinel
    ensures i < |order| && LinkAt(order, i) == At(order[i])
  {
  }

  lemma {:induction false} RingMember(l: Linked, order: seq<OutPoint>, i: int)
    requires Ring(l, order) && 0 <= i < |order|
    ensures order[i] in Plain(l)
  {
  }

  lemma {:induction false} PlainAt(l: Linked, k: OutPoint)
    requires k in l.entries
    ensures k in Plain(l) && Plain(l)[k] == Cell(l.entries[k].coin, l.entries[k].isDirty, l.entries[k].isFresh)
  {
  }

  lemma {:induction false} BatchStart(c: Linked, order: seq<OutPoint>, v: Coins, willErase: bool)
    requires Ring(c, order)
    ensures Distinct(order) && c.next == LinkAt(order, 0) && Ring(c, Pending(order, 0, willErase))
    ensures Plain(c) == Passed(Plain(c), order, 0, willErase) && Arrived(v, Plain(c), order[..0]) == v
  {
    assert order[0..] == order;
    assert Cleaned(Plain(c), ToSet(order[..0])) == Plain(c);
  }

  lemma {:induction false} ArriveStep(p: Cells, b: Coins, v: Coins, m: Cells, order: seq<OutPoint>, i: int)
    requires LayerOk(p, b) && LayerOk(m, v) && 0 <= i < |order| && Distinct(order) && order[i] in m
    requires Overlay(p, b) == Arrived(v, m, order[..i])
    ensures var c := m[order[i]];
            if c.isDirty then
              && Written(p, order[i], c).Some? && LayerOk(Written(p, order[i], c).value, b)
              && Overlay(Written(p, order[i], c).value, b) == Arrived(v, m, order[..i + 1])
            else Arrived(v, m, order[..i + 1]) == Arrived(v, m, order[..i])
  {
    hide Overlay, Written;
    var k, c := order[i], m[order[i]];
    assert order[..i + 1][..i] == order[..i] && k !in order[..i];
    assert CellOk(c, v, k);
    ArrivedAt(v, m, order[..i], k);
    if c.isDirty { WriteOne(p, b, k, c); }
  }

  lemma {:induction false} BatchEnd(c: Linked, order: seq<OutPoint>, v: Coins, i: int, willErase: bool)
    requires Ring(c, order) && LayerOk(Plain(c), v) && 0 <= i <= |order| && LinkAt(order, i) == Sentinel
    ensures Arrived(v, Plain(c), order[..i]) == Overlay(Plain(c), v)
    ensures !willErase ==>
      Pending(order, i, willErase) == [] && Passed(Plain(c), order, i, willErase) == Cleaned(Plain(c), ToSet(order))
  {
    hide Ring, LayerOk, Plain, Cleaned, ToSet, Arrived, Overlay;
    assert i == |order| && order[..i] == order;
    FlaggedListed(c, order);
    AllArrived(v, Plain(c), order);
  }

  lemma {:induction false} FlaggedListed(l: Linked, order: seq<OutPoint>)
    requires Ring(l, order)
    ensures forall k :: k in Plain(l) && (Plain(l)[k].isDirty || Plain(l)[k].isFresh) ==> k in order
  {
    forall k | k in Plain(l) && (Plain(l)[k].isDirty || Plain(l)[k].isFresh) ensures k in order {
      assert k in l.entries && !Loose(l.entries[k]);
    }
  }

  /** The cursor loop of `BatchWrite`: the flagged entries of the child `c0` are written into the
      parent `p0`, whose own base shows `b`. */
  method WriteBatch(p0: Linked, ghost po0: seq<OutPoint>, c0: Linked, ghost co: seq<OutPoint>, ghost b: Coins,
                    willErase: bool)
    returns (p: Linked, c: Linked, ghost po: seq<OutPoint>, threw: bool)
    requires Ring(p0, po0) && Ring(c0, co)
    requires LayerOk(Plain(p0), b) && LayerOk(Plain(c0), Overlay(Plain(p0), b))
    ensures !threw && Ring(p, po) && LayerOk(Plain(p), b)
    ensures Overlay(Plain(p), b) == Overlay(Plain(c0), Overlay(Plain(p0), b))
    ensures Received(Plain(p0), Plain(c0), Plain(p))
    ensures if willErase then c == c0 else Ring(c, []) && Plain(c) == Cleaned(Plain(c0), ToSet(co))
  {
    hide *;
    p, c, po, threw := p0, c0, po0, false;
    ghost var m, v, i := Plain(c0), Overlay(Plain(p0), b), 0;
    var it := c.next;
    BatchStart(c0, co, v, willErase);
    assert co[..0] == [];
    ReceiveStart(Plain(p), m);
    while it != Sentinel && !threw
      invariant !threw && 0 <= i <= |co| && it == LinkAt(co, i) && (willErase ==> c == c0)
      invariant Ring(c, Pending(co, i, willErase)) && Plain(c) == Passed(m, co, i, willErase)
      invariant Ring(p, po) && LayerOk(Plain(p), b) && Overlay(Plain(p), b) == Arrived(v, m, co[..i])
      invariant ReceivedSome(Plain(p0), m, co[..i], Plain(p))
      decreases |co| - i
    {
      LinkInside(co, i);
      var k := it.key;
      AdvanceRing(c, co, i, willErase);
      RingMember(c0, co, i);
      AdvancePlain(c, m, co, i, willErase);
      var e := c.entries[k];
      PlainAt(c, k);
      ArriveStep(Plain(p), b, v, m, co, i);
      NotBefore(c0, co, i);
      ReceiveStep(Plain(p0), Plain(p), m, co, i);
      if e.isDirty {
        p, po, threw := WriteEntry(p, po, k, e);
      }
      if !threw {
        AdvanceKeeps(c, k, willErase);
        var (next, c') := Advance(c, k, willErase);
        it, c := next, c';
        i := i + 1;
      }
    }
    BatchEnd(c0, co, v, i, willErase);
    AllReceived(Plain(p0), c0, co, i, Plain(p));
  }

  lemma {:induction false} NotBefore(l: Linked, order: seq<OutPoint>, i: int)
    requires Ring(l, order) && 0 <= i < |order|
    ensures order[i] !in order[..i]
  {
  }

  lemma {:induction false} AllReceived(p: Cells, c: Linked, order: seq<OutPoint>, i: int, p': Cells)
    requires Ring(c, order) && 0 <= i <= |order| && LinkAt(order, i) == Sentinel
    requires ReceivedSome(p, Plain(c), order[..i], p')
    ensures Received(p, Plain(c), p')
  {
    hide Ring, Plain, ReceivedSome, Received;
    assert i == |order| && order[..i] == order;
    FlaggedListed(c, order);
    ReceiveEnd(p, Plain(c), order, p');
  }
}
