/** What the address manager is for, without its indexes: a book of records and two tables of places.
    The order for random choices, the index by address and the counters do not occur here. */
module AddrBook {
  import opened Options
  import opened AddrTables

  const HOUR: int := 3600
  const DAY: int := 86400
  const HORIZON: int := 30 * DAY
  const MIN_FAIL: int := 7 * DAY
  const RETRIES: nat := 3
  const MAX_FAILURES: nat := 10
  const MAX_COLLISIONS: nat := 10
  const REPLACEMENT: int := 14400
  const TEST_WINDOW: int := 2400

  datatype Book = Book(records: map<Id, Info>, new_: map<Place, Id>, tried: map<Place, Id>, next: nat)

  /** The book kept by a state; a record does not tell the position in the random order. */
  ghost function Content(s: State): Book {
    Book(map id | id in s.infos :: s.infos[id].(randomPos := 0), s.newTable, s.triedTable, s.nIdCount)
  }

  /** The record with an address. */
  ghost function Named(b: Book, a: Addr): (r: Option<Id>)
    ensures r.Some? ==> r.value in b.records && b.records[r.value].addr == a
  {
    if exists id :: id in b.records && b.records[id].addr == a then
      var id :| id in b.records && b.records[id].addr == a;
      Some(id)
    else None
  }

  /** `AddrInfo::IsTerrible`. */
  predicate IsTerrible(r: Info, now: int) {
    now - r.lastTry > 60 &&
    (|| r.time > now + 600
     || now - r.time > HORIZON
     || (r.lastSuccess == 0 && r.attempts >= RETRIES)
     || (now - r.lastSuccess > MIN_FAIL && r.attempts >= MAX_FAILURES))
  }

  function HomePlace(env: Env, a: Addr, source: nat): Place { NewPlaceIn(env, a, NewBucket(env, a, source)) }

  // ---------------------------------------------------------------- what the operations do to the book

  /** Clearing a place of the new table: the record there goes when it has no other place. */
  ghost function Cleared(b: Book, p: Place): Book {
    if p !in b.new_ || b.new_[p] !in b.records then b
    else
      var id := b.new_[p];
      var r := b.records[id];
      b.(new_ := b.new_ - {p},
        records := if r.refCount == 1 then b.records - {id} else b.records[id := r.(refCount := r.refCount - 1)])
  }

  /** The record at a tried place goes back to its home in the new table. */
  ghost function Evicted(env: Env, b: Book, place: Place): Book
    requires place in b.tried && b.tried[place] in b.records
  {
    var id := b.tried[place];
    var r := b.records[id].(inTried := false);
    var home := HomePlace(env, r.addr, r.source);
    var c := Cleared(b.(records := b.records[id := r], tried := b.tried - {place}), home);
    c.(new_ := c.new_[home := id], records := c.records[id := r.(refCount := r.refCount + 1)])
  }

  /** A record leaves all its places in the new table. */
  ghost function Unlisted(b: Book, id: Id): Book
    requires id in b.records
  {
    b.(new_ := map p | p in b.new_ && b.new_[p] != id :: b.new_[p],
       records := b.records[id := b.records[id].(refCount := 0)])
  }

  /** A record moves to the tried table, evicting the one at its place. */
  ghost function Promoted(env: Env, b: Book, id: Id): Book
    requires id in b.records
  {
    var r := b.records[id].(refCount := 0, inTried := true);
    var place := TriedPlace(env, r.addr);
    var c := Unlisted(b, id);
    var d := if place in c.tried && c.tried[place] in c.records then Evicted(env, c, place) else c;
    d.(tried := d.tried[place := id], records := d.records[id := r])
  }

  /** A record takes its place for a source, unless a better one has it; without any place it goes. */
  ghost function Listed(env: Env, b: Book, id: Id, source: nat, now: int): (Book, bool)
    requires id in b.records
  {
    var r := b.records[id];
    var p := HomePlace(env, r.addr, source);
    if p in b.new_ && b.new_[p] == id then (b, false)
    else if p !in b.new_ || Yields(b, b.new_[p], r, now) then
      var c := Cleared(b, p);
      (c.(new_ := c.new_[p := id], records := c.records[id := r.(refCount := r.refCount + 1)]), true)
    else if r.refCount == 0 then (b.(records := b.records - {id}), false)
    else (b, false)
  }

  ghost predicate Yields(b: Book, there: Id, r: Info, now: int) {
    there in b.records && (IsTerrible(b.records[there], now) || (b.records[there].refCount > 1 && r.refCount == 0))
  }

  /** What an announcement carries, and what the clock and the dice say when it is processed. */
  datatype Announcement = Announcement(addr: Addr, source: nat, time: int, penalty: int, fromItself: bool,
                                       routable: bool, now: int, lucky: bool)

  function MaxZero(t: int): int { if t < 0 then 0 else t }

  function Penalty(x: Announcement): int { if x.fromItself then 0 else x.penalty }

  /** The time of a known record after an announcement. */
  function RefreshedTime(time: int, x: Announcement): int {
    if time < x.time - (if x.now - x.time < DAY then HOUR else DAY) - Penalty(x) then MaxZero(x.time - Penalty(x))
    else time
  }

  ghost predicate GoesOn(r: Info, x: Announcement) {
    x.time > RefreshedTime(r.time, x) && !r.inTried && r.refCount != NEW_BUCKETS_PER_ADDRESS
      && (r.refCount == 0 || x.lucky)
  }

  function NewRecord(x: Announcement): Info {
    Info(x.addr, x.source, MaxZero(x.time - Penalty(x)), 0, 0, 0, 0, 0, false, 0)
  }

  /** One announcement: the book after it, and whether the address took a place. */
  ghost function Announced(env: Env, b: Book, x: Announcement): (Book, bool) {
    if !x.routable then (b, false)
    else
      match Named(b, x.addr)
      case None =>
        Listed(env, b.(records := b.records[b.next := NewRecord(x)], next := b.next + 1), b.next, x.source, x.now)
      case Some(id) =>
        var r := b.records[id];
        var c := b.(records := b.records[id := r.(time := RefreshedTime(r.time, x))]);
        if GoesOn(r, x) then Listed(env, c, id, x.source, x.now) else (c, false)
  }

  /** All announcements of a message. */
  ghost function AllAnnounced(env: Env, b: Book, xs: seq<Announcement>): (Book, bool) {
    if xs == [] then (b, false)
    else
      var (c, before) := AllAnnounced(env, b, xs[..|xs| - 1]);
      var (d, last) := Announced(env, c, xs[|xs| - 1]);
      (d, before || last)
  }

  /** A successful connection: the book, the collisions, and whether the record moved. */
  ghost function Connected(env: Env, b: Book, collisions: set<Id>, a: Addr, test: bool,
                           time: int): (Book, set<Id>, bool) {
    match Named(b, a)
    case None => (b, collisions, false)
    case Some(id) =>
      var r := b.records[id];
      var c := b.(records := b.records[id := r.(lastTry := time, lastSuccess := time, attempts := 0)]);
      if r.inTried then (c, collisions, false)
      else if test && TriedPlace(env, a) in b.tried then
        (c, if |collisions| < MAX_COLLISIONS then collisions + {id} else collisions, false)
      else (Promoted(env, c, id), collisions, true)
  }

  /** A connection attempt. */
  ghost function Attempted(b: Book, a: Addr, countFailure: bool, lastGood: int, time: int): Book {
    match Named(b, a)
    case None => b
    case Some(id) =>
      var r := b.records[id].(lastTry := time);
      b.(records := b.records[id :=
        if countFailure && r.lastCount < lastGood then r.(lastCount := time, attempts := r.attempts + 1) else r])
  }

  /** No two records have the same address. */
  ghost predicate OneEach(b: Book) {
    forall i, j :: i in b.records && j in b.records && b.records[i].addr == b.records[j].addr ==> i == j
  }

  /** Attempts, each with its time and whether a failure counts, while no connection succeeds. */
  ghost function AllAttempted(b: Book, a: Addr, lastGood: int, tries: seq<(bool, int)>): Book {
    if tries == [] then b
    else
      var (countFailure, time) := tries[|tries| - 1];
      Attempted(AllAttempted(b, a, lastGood, tries[..|tries| - 1]), a, countFailure, lastGood, time)
  }

  /** One attempt: it is counted exactly when it may be and none was since the last success. */
  lemma {:induction false} AttemptOne(b: Book, a: Addr, countFailure: bool, lastGood: int, time: int, id: Id)
    requires OneEach(b) && id in b.records && b.records[id].addr == a
    ensures var c := Attempted(b, a, countFailure, lastGood, time);
            var counted := countFailure && b.records[id].lastCount < lastGood;
            && OneEach(c) && id in c.records && c.records[id].addr == a
            && c.records[id].attempts == b.records[id].attempts + (if counted then 1 else 0)
            && c.records[id].lastCount == if counted then time else b.records[id].lastCount
  {
    assert Named(b, a) == Some(id);
  }

  /** The first attempt that may count; the number of attempts if there is none. */
  function FirstCounting(tries: seq<(bool, int)>): (i: nat)
    ensures i <= |tries| && (i < |tries| ==> tries[i].0) && forall k :: 0 <= k < i ==> !tries[k].0
  {
    if tries == [] || tries[0].0 then 0 else 1 + FirstCounting(tries[1..])
  }

  predicate CountsAfter(tries: seq<(bool, int)>, i: int) { exists k :: 0 <= k < |tries| && i < k && tries[k].0 }

  /** The attempts counted up to here, for the first one at `i` that may count. */
  ghost predicate CountedSoFar(r: Info, r': Info, lastGood: int, tries: seq<(bool, int)>, i: nat) {
    if r.lastCount >= lastGood || i >= |tries| then r'.attempts == r.attempts && r'.lastCount == r.lastCount
    else if tries[i].1 >= lastGood || !CountsAfter(tries, i) then
      r'.attempts == r.attempts + 1 && r'.lastCount == tries[i].1
    else r'.attempts >= r.attempts + 2
  }

  lemma {:induction false} CountsFrom(b: Book, a: Addr, lastGood: int, tries: seq<(bool, int)>, id: Id, i: nat)
    requires OneEach(b) && id in b.records && b.records[id].addr == a
    requires (i < |tries| ==> tries[i].0) && forall k :: 0 <= k < i && k < |tries| ==> !tries[k].0
    ensures var c := AllAttempted(b, a, lastGood, tries);
            && OneEach(c) && id in c.records && c.records[id].addr == a
            && CountedSoFar(b.records[id], c.records[id], lastGood, tries, i)
  {
    hide Attempted, OneEach;
    if tries != [] {
      var n := |tries| - 1;
      CountsFrom(b, a, lastGood, tries[..n], id, i);
      AttemptOne(AllAttempted(b, a, lastGood, tries[..n]), a, tries[n].0, lastGood, tries[n].1, id);
      assert i < n && CountsAfter(tries[..n], i) ==> CountsAfter(tries, i);
      assert i < n && tries[n].0 ==> CountsAfter(tries, i);
    }
  }

  /** Attempts between two successes. If the last one counted is not dated before the last success, none counts.
      Otherwise at most one counts if and only if the first that may count is not dated before that success, or
      none after it may count. */
  lemma {:induction false} CountsOnce(b: Book, a: Addr, lastGood: int, tries: seq<(bool, int)>, id: Id)
    requires OneEach(b) && id in b.records && b.records[id].addr == a
    ensures var c := AllAttempted(b, a, lastGood, tries); var i := FirstCounting(tries);
            && OneEach(c) && id in c.records && c.records[id].addr == a
            && (c.records[id].attempts == b.records[id].attempts <==>
                  b.records[id].lastCount >= lastGood || i == |tries|)
            && (c.records[id].attempts <= b.records[id].attempts + 1 <==>
                  || b.records[id].lastCount >= lastGood || i == |tries|
                  || tries[i].1 >= lastGood || !CountsAfter(tries, i))
            && c.records[id].attempts >= b.records[id].attempts
            && (c.records[id].attempts == b.records[id].attempts + 1 ==>
                  i < |tries| && c.records[id].lastCount == tries[i].1)
  {
    hide AllAttempted, OneEach;
    CountsFrom(b, a, lastGood, tries, id, FirstCounting(tries));
  }

  /** An attempt dated before the last success leaves the way open for another: the condition is needed. */
  lemma {:induction false} CountsTwice(b: Book, a: Addr, lastGood: int, time: int, id: Id)
    requires OneEach(b) && id in b.records && b.records[id].addr == a && b.records[id].lastCount < lastGood
    ensures var c := AllAttempted(b, a, lastGood, [(true, time), (true, time)]);
            id in c.records && (c.records[id].attempts == b.records[id].attempts + 2 <==> time < lastGood)
  {
    hide Attempted, OneEach;
    var one, two := [(true, time)], [(true, time), (true, time)];
    assert one[..0] == [] && two[..1] == one;
    assert AllAttempted(b, a, lastGood, one) == Attempted(b, a, true, lastGood, time);
    AttemptOne(b, a, true, lastGood, time, id);
    AttemptOne(Attempted(b, a, true, lastGood, time), a, true, lastGood, time, id);
  }

  datatype Fate = Wait | Drop | Replace

  /** What becomes of a collision. */
  ghost function FateOf(env: Env, b: Book, id: Id, now: int, valid: Addr -> bool): Fate {
    if id !in b.records || !valid(b.records[id].addr) then Drop
    else
      var place := TriedPlace(env, b.records[id].addr);
      if place !in b.tried || b.tried[place] !in b.records then Replace
      else
        var there := b.records[b.tried[place]];
        if now - there.lastSuccess < REPLACEMENT then Drop
        else if now - there.lastTry < REPLACEMENT then (if now - there.lastTry > 60 then Replace else Wait)
        else if now - b.records[id].lastSuccess > TEST_WINDOW then Replace
        else Wait
  }

  ghost function Resolved(env: Env, b: Book, id: Id, now: int, valid: Addr -> bool): Book {
    if FateOf(env, b, id, now, valid).Replace? then Connected(env, b, {}, b.records[id].addr, false, now).0 else b
  }

  /** The collisions in order, each met in the book that the earlier ones left. */
  ghost function AllResolved(env: Env, b: Book, ids: seq<Id>, now: int, valid: Addr -> bool): (Book, set<Id>) {
    if ids == [] then (b, {})
    else
      var last := ids[|ids| - 1];
      var (c, waiting) := AllResolved(env, b, ids[..|ids| - 1], now, valid);
      (Resolved(env, c, last, now, valid), if FateOf(env, c, last, now, valid).Wait? then waiting + {last} else waiting)
  }

  // ---------------------------------------------------------------- what the rules mean

  /** What is never given up: entries tried in the last minute; and those seen in the last 30 days and not more than
      ten minutes in the future, after a success or fewer than three failures, with a success in the last week or
      fewer than ten failures. */
  lemma {:induction false} TerribleLaw(r: Info, now: int)
    ensures !IsTerrible(r, now) <==>
      || now - r.lastTry <= 60
      || (&& now - 2592000 <= r.time <= now + 600 && (r.lastSuccess != 0 || r.attempts < 3)
          && (now - r.lastSuccess <= 604800 || r.attempts < 10))
  {
  }

  /** More failures never make an entry better. */
  lemma {:induction false} TerribleGrows(r: Info, more: nat, now: int)
    requires IsTerrible(r, now) && more >= r.attempts
    ensures IsTerrible(r.(attempts := more), now)
  {
  }

  /** How far behind an announcement a known time may be: an hour for a node seen in the last day, else a day. */
  function Slack(x: Announcement): int { if x.now - x.time < 86400 then 3600 else 86400 }

  /** A known time is never left more than the slack and the penalty behind, is not touched within them, never goes
      back, and a second announcement changes nothing. */
  lemma {:induction false} RefreshLaw(time: int, x: Announcement)
    requires Penalty(x) >= 0
    ensures var t := RefreshedTime(time, x);
            && t >= x.time - Slack(x) - Penalty(x) && t >= time && RefreshedTime(t, x) == t
            && (time >= x.time - Slack(x) - Penalty(x) ==> t == time)
            && (t != time ==> t == MaxZero(x.time - Penalty(x)) && t > time + Slack(x))
  {
  }

  /** A known address may gain a place only by news, outside the tried table, with fewer than eight places and,
      after the first, with luck; and then it does, unless an announcement without penalty refreshed its time. */
  lemma {:induction false} GoesOnLaw(r: Info, x: Announcement)
    requires Penalty(x) >= 0 && x.time > 0
    ensures GoesOn(r, x) <==>
      && x.time > r.time && !r.inTried && r.refCount != 8 && (r.refCount == 0 || x.lucky)
      && (Penalty(x) > 0 || x.time - r.time <= Slack(x))
  {
  }

  /** Reference counts are not negative, and what has a place in the new table has a positive one. */
  ghost predicate Counted(b: Book) {
    && (forall p :: p in b.new_ ==> b.new_[p] in b.records && b.records[b.new_[p]].refCount > 0)
    && forall id :: id in b.records ==> b.records[id].refCount >= 0
  }

  /** And every record is somewhere. */
  ghost predicate Placed(b: Book) {
    && OneEach(b) && b.next !in b.records && Counted(b)
    && forall id :: id in b.records ==> b.records[id].inTried || b.records[id].refCount > 0
  }

  /** Between two books only the place `home` of the new table changed. */
  ghost predicate OnlyHome(b: Book, c: Book, home: Place) {
    && c.tried == b.tried && (forall p :: p != home ==> (p in c.new_ <==> p in b.new_))
    && forall p :: p != home && p in b.new_ ==> c.new_[p] == b.new_[p]
  }

  /** Taking a place of the new table: only that place changes; what had it is terrible, or has another place while
      the newcomer has none; and of the others only a terrible record can go. */
  lemma {:induction false} ListedLaws(env: Env, b: Book, id: Id, source: nat, now: int)
    requires Counted(b) && id in b.records
    ensures var (c, inserted) := Listed(env, b, id, source, now);
            var r := b.records[id]; var home := HomePlace(env, r.addr, source);
            && OnlyHome(b, c, home)
            && (inserted <==>
                  home in b.new_ ==>
                    var there := b.records[b.new_[home]];
                    b.new_[home] != id && (IsTerrible(there, now) || (there.refCount > 1 && r.refCount == 0)))
            && (inserted ==> home in c.new_ && c.new_[home] == id && id in c.records && c.records[id].addr == r.addr)
            && (!inserted ==> c.new_ == b.new_ && (r.refCount > 0 ==> c == b))
            && (forall j :: j in b.records && j != id && !IsTerrible(b.records[j], now) ==> j in c.records)
            && (forall j :: j in b.records && j != id && b.records[j].inTried && b.records[j].refCount == 0 ==>
                  j in c.records)
            && (id in c.records <==> inserted || r.refCount > 0)
  {
    hide IsTerrible, HomePlace;
  }

  /** An announcement touches one place of the new table and no tried one. No record that is not terrible is lost. A
      tried address, one with eight places, or one that was seen later gains nothing. An unknown routable address
      gets its place if that is free, or held by a terrible record or by one with another place. */
  lemma {:induction false} AnnouncedLaws(env: Env, b: Book, x: Announcement)
    requires Placed(b)
    ensures var (c, inserted) := Announced(env, b, x); var home := HomePlace(env, x.addr, x.source);
            && OnlyHome(b, c, home) && (!inserted ==> c.new_ == b.new_)
            && (inserted ==> home in c.new_ && c.new_[home] in c.records && c.records[c.new_[home]].addr == x.addr)
            && (forall j :: j in b.records && !IsTerrible(b.records[j], x.now) ==> j in c.records)
            && (Named(b, x.addr).None? ==>
                  (inserted <==>
                     x.routable && (home in b.new_ ==>
                       IsTerrible(b.records[b.new_[home]], x.now) || b.records[b.new_[home]].refCount > 1)))
            && (Named(b, x.addr).Some? ==>
                  var r := b.records[Named(b, x.addr).value];
                  inserted ==> !r.inTried && r.refCount != 8 && x.time > RefreshedTime(r.time, x))
  {
    hide IsTerrible, HomePlace, Listed, Named, RefreshedTime, OneEach;
    match Named(b, x.addr)
    case None =>
      var b1 := b.(records := b.records[b.next := NewRecord(x)], next := b.next + 1);
      ListedLaws(env, b1, b.next, x.source, x.now);
    case Some(id) =>
      var r := b.records[id];
      var b1 := b.(records := b.records[id := r.(time := RefreshedTime(r.time, x))]);
      ListedLaws(env, b1, id, x.source, x.now);
  }

  // ---------------------------------------------------------------- what a promotion does

  /** No record is in both tables, and none has two tried places. */
  ghost predicate Apart(b: Book) {
    && (forall p, q :: p in b.new_ && q in b.tried ==> b.new_[p] != b.tried[q])
    && (forall p, q :: p in b.tried && q in b.tried && b.tried[p] == b.tried[q] ==> p == q)
  }

  ghost predicate SameRecord(b: Book, c: Book, id: Id) {
    id in b.records && id in c.records && c.records[id] == b.records[id]
  }

  /** An eviction: the record leaves its tried place for its home; no other tried place is touched. */
  lemma {:induction false} EvictedLaws(env: Env, b: Book, place: Place)
    requires Apart(b) && place in b.tried && b.tried[place] in b.records
    ensures var id := b.tried[place]; var r := b.records[id]; var c := Evicted(env, b, place);
            && c.tried == b.tried - {place} && HomePlace(env, r.addr, r.source) in c.new_
            && c.new_[HomePlace(env, r.addr, r.source)] == id
            && id in c.records && c.records[id] == r.(inTried := false, refCount := r.refCount + 1)
            && forall q :: q in b.tried && q != place && b.tried[q] in b.records ==> SameRecord(b, c, b.tried[q])
  {
    hide HomePlace;
  }

  /** A promotion, for a record that is in no tried place. */
  lemma {:induction false} PromotedLaws(env: Env, b: Book, id: Id)
    requires Apart(b) && id in b.records && (forall q :: q in b.tried ==> b.tried[q] != id && b.tried[q] in b.records)
    ensures var place := TriedPlace(env, b.records[id].addr); var c := Promoted(env, b, id);
            && c.tried == b.tried[place := id]
            && id in c.records && c.records[id] == b.records[id].(refCount := 0, inTried := true)
            && (forall q :: q in b.tried && q != place ==> SameRecord(b, c, b.tried[q]))
            && (place in b.tried ==>
                  var out := b.tried[place]; var r := b.records[out]; var home := HomePlace(env, r.addr, r.source);
                  && out in c.records && c.records[out] == r.(inTried := false, refCount := r.refCount + 1)
                  && home in c.new_ && c.new_[home] == out)
  {
    hide TriedPlace, Evicted, HomePlace;
    var place := TriedPlace(env, b.records[id].addr);
    var c := Unlisted(b, id);
    if place in c.tried {
      EvictedLaws(env, c, place);
    }
  }

  // ---------------------------------------------------------------- the elementary changes, seen in the book

  lemma {:induction false} ContentUnlist(s: State, p: Place)
    requires p in s.newTable && s.newTable[p] in s.infos
    ensures var b := Content(s); var id := s.newTable[p];
            id in b.records && Content(Unlist(s, p)) ==
              b.(new_ := b.new_ - {p},
                records := b.records[id := b.records[id].(refCount := b.records[id].refCount - 1)])
  {
  }

  lemma {:induction false} ContentDelete(env: Env, s: State, loose: set<Id>, limbo: set<Id>, id: Id)
    requires Inv(env, s, loose, limbo) && id in loose && id !in limbo
    ensures RandomReady(s, id) && Content(Delete(env, s, id)) == Content(s).(records := Content(s).records - {id})
  {
    hide Inv, Delete;
    DeleteKeeps(env, s, loose, limbo, id);
  }

  lemma {:induction false} ContentPut(s: State, p: Place, id: Id)
    requires id in s.infos
    ensures var b := Content(s);
            id in b.records && Content(PutNew(s, p, id)) ==
              b.(new_ := b.new_[p := id],
                records := b.records[id := b.records[id].(refCount := b.records[id].refCount + 1)])
  {
  }

  lemma {:induction false} ContentStats(s: State, id: Id, time: int, lastTry: int, lastCount: int, lastSuccess: int,
                                        attempts: nat)
    requires id in s.infos
    ensures var b := Content(s);
            id in b.records && Content(SetStats(s, id, time, lastTry, lastCount, lastSuccess, attempts)) ==
              b.(records := b.records[id :=
              b.records[id].(time := time, lastTry := lastTry, lastCount := lastCount, lastSuccess := lastSuccess,
                attempts := attempts)])
  {
  }

  lemma {:induction false} ContentEnterTried(env: Env, s: State, id: Id)
    requires id in s.infos
    ensures var b := Content(s);
            && id in b.records
            && Content(EnterTried(env, s, id)) ==
                 b.(tried := b.tried[TriedPlace(env, s.infos[id].addr) := id],
                   records := b.records[id := b.records[id].(inTried := true)])
  {
    hide TriedPlace;
  }

  lemma {:induction false} ContentLeaveTried(env: Env, s: State, id: Id)
    requires id in s.infos
    ensures var b := Content(s);
            && id in b.records
            && Content(LeaveTried(env, s, id)) ==
                 b.(tried := b.tried - {TriedPlace(env, s.infos[id].addr)},
                   records := b.records[id := b.records[id].(inTried := false)])
  {
    hide TriedPlace;
  }

  lemma {:induction false} ContentNew(env: Env, s: State, id: Id)
    requires id in s.infos
    ensures Content(EnterNew(env, s, id)) == Content(s) == Content(LeaveNew(env, s, id))
  {
    hide TriedPlace;
  }

  lemma {:induction false} ContentCreate(env: Env, s: State, x: Announcement)
    ensures var b := Content(s);
            Content(Create(env, s, x.addr, x.source, MaxZero(x.time - Penalty(x)))) ==
              b.(records := b.records[b.next := NewRecord(x)], next := b.next + 1)
  {
  }

  lemma {:induction false} ContentMoved(s: State, s': State)
    requires Moved(s, s')
    ensures Content(s') == Content(s)
  {
  }

  lemma {:induction false} ContentAt(s: State, id: Id)
    ensures id in Content(s).records <==> id in s.infos
    ensures id in s.infos ==> Content(s).records[id] == s.infos[id].(randomPos := 0)
    ensures Content(s).new_ == s.newTable && Content(s).tried == s.triedTable && Content(s).next == s.nIdCount
  {
  }

  /** The index by address finds the record with the address. */
  lemma {:induction false} NamedIndexed(env: Env, s: State, loose: set<Id>, limbo: set<Id>, a: Addr)
    requires Inv(env, s, loose, limbo)
    ensures Named(Content(s), a) == if a in s.byAddr then Some(s.byAddr[a]) else None
  {
    hide RandomOk, TriedOk, NewOk, CountersOk, TimesOk, IdsOk;
    var b := Content(s);
    if a in s.byAddr {
      assert s.byAddr[a] in b.records && b.records[s.byAddr[a]].addr == a;
    }
    if Named(b, a).Some? {
      var id := Named(b, a).value;
      assert id in s.infos && s.infos[id].addr == a;
    }
  }

  lemma {:induction false} OneRecordEach(env: Env, s: State, loose: set<Id>, limbo: set<Id>)
    requires Inv(env, s, loose, limbo)
    ensures OneEach(Content(s))
  {
    hide RandomOk, TriedOk, NewOk, CountersOk, TimesOk, IdsOk;
  }
}
