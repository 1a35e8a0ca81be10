/** The operations of the address manager, made of the elementary table changes. */
module AddrManager {
  import opened Lists
  import opened Options
  import opened AddrTables
  import opened AddrBook

  /** Entries may have gone, but none changed its address, and no tried place became empty. */
  ghost predicate Survives(s: State, s': State) {
    && s.triedTable.Keys <= s'.triedTable.Keys && s.nIdCount <= s'.nIdCount
    && forall id :: id in s'.infos && id < s.nIdCount ==> id in s.infos && s'.infos[id].addr == s.infos[id].addr
  }

  lemma {:induction false} SurvivesTrans(a: State, b: State, c: State)
    requires Survives(a, b) && Survives(b, c)
    ensures Survives(a, c)
  {
  }

  // ---------------------------------------------------------------- clearing a new place

  /** Place `p` was cleared: the entry there lost it, or is gone if it had no other. */
  ghost predicate Unplaced(s: State, s': State, p: Place) {
    && s'.newTable == s.newTable - {p} && s'.triedTable == s.triedTable && s'.nIdCount == s.nIdCount
      && s'.infos.Keys <= s.infos.Keys
    && forall id :: id in s.infos && !(p in s.newTable && s.newTable[p] == id) ==>
         id in s'.infos && s'.infos[id] == s.infos[id].(randomPos := s'.infos[id].randomPos)
  }

  method ClearNew(env: Env, s0: State, p: Place, ghost limbo: set<Id>, ghost loose: set<Id>) returns (s: State)
    requires Inv(env, s0, loose, limbo)
    ensures Inv(env, s, loose, limbo) && Unplaced(s0, s, p) && Survives(s0, s)
    ensures Content(s) == Cleared(Content(s0), p)
  {
    hide Inv, Delete, Content;
    s := s0;
    ContentAt(s0, if p in s0.newTable then s0.newTable[p] else 0);
    if p in s.newTable {
      UnlistKeeps(env, s, loose, limbo, p);
      var id := s.newTable[p];
      var gone := s.infos[id].refCount == 1;
      AddrKept(env, s0, loose, limbo);
      ContentUnlist(s, p);
      s := Unlist(s, p);
      if gone {
        DeleteKeeps(env, s, loose + {id}, limbo, id);
        ContentDelete(env, s, loose + {id}, limbo, id);
        AddrKept(env, s, loose + {id}, limbo);
        DeleteSame(env, s, loose + {id}, limbo, id);
        s := Delete(env, s, id);
        assert loose + {id} - {id} == loose;
      }
    }
  }

  lemma {:induction false} AddrKept(env: Env, s: State, loose: set<Id>, limbo: set<Id>)
    requires Inv(env, s, loose, limbo)
    ensures forall id :: id in s.infos ==> id < s.nIdCount
  {
  }

  lemma {:induction false} DeleteSame(env: Env, s: State, loose: set<Id>, limbo: set<Id>, id: Id)
    requires Inv(env, s, loose, limbo) && id in loose && id !in limbo && RandomReady(s, id)
    ensures Survives(s, Delete(env, s, id))
  {
    hide Inv;
    DeleteKeeps(env, s, loose, limbo, id);
  }

  // ---------------------------------------------------------------- moving an entry to the tried table

  /** Of an entry, only the reference count changed. */
  ghost predicate OnlyRefs(s: State, s': State, id: Id) {
    && id in s.infos && id in s'.infos && s' == s.(newTable := s'.newTable, infos := s'.infos)
      && s'.infos.Keys == s.infos.Keys
    && s'.infos[id] == s.infos[id].(refCount := s'.infos[id].refCount)
      && (forall j :: j in s.infos && j != id ==> s'.infos[j] == s.infos[j])
  }

  /** The first `n` buckets of the scan no longer hold the entry. */
  ghost predicate Scanned(env: Env, s: State, id: Id, a: Addr, start: nat, n: nat) {
    forall m :: 0 <= m < n ==> !Holds(s, ScanPlace(env, a, start, m), id)
  }

  function ScanPlace(env: Env, a: Addr, start: nat, m: nat): Place {
    NewPlaceIn(env, a, (start + m) % NEW_BUCKET_COUNT)
  }

  predicate Holds(s: State, p: Place, id: Id) { p in s.newTable && s.newTable[p] == id }

  /** The scan of the new buckets: it finds every place of the entry, so the reference count ends at 0. */
  method LeaveNewTable(env: Env, s0: State, id: Id) returns (s: State)
    requires Inv(env, s0, {}, {}) && id in s0.infos && !s0.infos[id].inTried
    ensures Inv(env, s, {id}, {}) && OnlyRefs(s0, s, id) && s.infos[id].refCount == 0
    ensures id in Content(s0).records && Content(s) == Unlisted(Content(s0), id)
  {
    hide Inv, Unlist, ScanPlace, NewBucket, Content;
    s := s0;
    ghost var none: set<Id> := {};
    assert none + {id} == {id};
    var a := s.infos[id].addr;
    var start := NewBucket(env, a, s.infos[id].source);
    var n := 0;
    HasPlace(env, s, id);
    while n < NEW_BUCKET_COUNT && s.infos[id].refCount != 0
      invariant 0 <= n <= NEW_BUCKET_COUNT && OnlyRefs(s0, s, id)
      invariant Inv(env, s, if s.infos[id].refCount == 0 then {id} else {}, {}) && Scanned(env, s, id, a, start, n)
      invariant OthersKept(s0.newTable, s.newTable, id)
    {
      var p := ScanPlace(env, a, start, n);
      if p in s.newTable && s.newTable[p] == id {
        UnlistKeeps(env, s, none, {}, p);
        UnlistOnly(s, p);
        s := Unlist(s, p);
      }
      n := n + 1;
    }
    if s.infos[id].refCount != 0 { AllScanned(env, s, id, start); }
    AllUnlisted(env, s0, s, id);
  }

  /** Between two new tables, only places of `id` were cleared. */
  ghost predicate OthersKept(table: map<Place, Id>, table': map<Place, Id>, id: Id) {
    && (forall p :: p in table' ==> p in table && table[p] == table'[p])
    && (forall p :: p in table && table[p] != id ==> p in table')
  }

  lemma {:induction false} AllUnlisted(env: Env, s0: State, s: State, id: Id)
    requires Inv(env, s, {id}, {}) && OnlyRefs(s0, s, id) && OthersKept(s0.newTable, s.newTable, id)
    ensures id in Content(s0).records && Content(s) == Unlisted(Content(s0), id)
  {
    hide Inv;
    NoPlaces(env, s, {id}, {}, id);
    assert Content(s).new_ == Unlisted(Content(s0), id).new_;
    assert Content(s).records == Unlisted(Content(s0), id).records;
  }

  lemma {:induction false} HasPlace(env: Env, s: State, id: Id)
    requires Inv(env, s, {}, {}) && id in s.infos && !s.infos[id].inTried
    ensures s.infos[id].refCount > 0
  {
    assert RefOk(s.infos[id], |PlacesOf(s.newTable, id)|, false);
  }

  lemma {:induction false} UnlistOnly(s: State, p: Place)
    requires p in s.newTable && s.newTable[p] in s.infos
    ensures OnlyRefs(s, Unlist(s, p), s.newTable[p]) && Unlist(s, p).newTable == s.newTable - {p}
    ensures Unlist(s, p).infos[s.newTable[p]].refCount == s.infos[s.newTable[p]].refCount - 1
  {
  }

  lemma {:induction false} AllScanned(env: Env, s: State, id: Id, start: nat)
    requires Inv(env, s, {}, {}) && id in s.infos && Scanned(env, s, id, s.infos[id].addr, start, NEW_BUCKET_COUNT)
    ensures s.infos[id].refCount == 0
  {
    hide RandomOk, AddrOk, TriedOk, CountersOk, TimesOk, IdsOk;
    forall p | p in s.newTable ensures s.newTable[p] != id {
      var m := (p.bucket - start) % NEW_BUCKET_COUNT;
      Around(p.bucket, start);
      assert ScanPlace(env, s.infos[id].addr, start, m) == NewPlaceIn(env, s.infos[id].addr, p.bucket);
      assert !Holds(s, ScanPlace(env, s.infos[id].addr, start, m), id);
    }
    assert PlacesOf(s.newTable, id) == {};
    assert RefOk(s.infos[id], |PlacesOf(s.newTable, id)|, false);
  }

  lemma {:induction false} Around(b: nat, start: nat)
    requires b < 1024
    ensures (start + (b - start) % 1024) % 1024 == b
  {
  }

  /** Make room at a tried place: the entry there goes back to the new table. */
  method Evict(env: Env, s0: State, place: Place, ghost id: Id) returns (s: State)
    requires Inv(env, s0, {}, {id}) && place in s0.triedTable && id in s0.infos
    ensures Inv(env, s, {}, {id}) && s.triedTable == s0.triedTable - {place} && s.nIdCount == s0.nIdCount
      && s.infos.Keys <= s0.infos.Keys
    ensures id in s.infos && s.infos[id] == s0.infos[id].(randomPos := s.infos[id].randomPos)
    ensures forall j :: j in s.infos ==> s.infos[j].addr == s0.infos[j].addr
    ensures s0.triedTable[place] in Content(s0).records && Content(s) == Evicted(env, Content(s0), place)
  {
    hide Inv, LeaveTried, EnterNew, PutNew, NewPlaceIn, NewBucket, Content, Cleared;
    var evicted := s0.triedTable[place];
    TriedEntry(env, s0, {id}, place);
    LeaveTriedKeeps(env, s0, {}, {id}, evicted);
    LeaveTriedOnly(env, s0, evicted);
    ContentAt(s0, evicted);
    ContentLeaveTried(env, s0, evicted);
    s := LeaveTried(env, s0, evicted);
    var a := s.infos[evicted].addr;
    var b := NewBucket(env, a, s.infos[evicted].source);
    BucketBound(env, a, s.infos[evicted].source);
    var p := NewPlaceIn(env, a, b);
    PlaceBucket(env, a, b);
    ghost var s1 := s;
    LimboPlaces(env, s1, {id} + {evicted}, evicted);
    LimboPlaces(env, s1, {id} + {evicted}, id);
    AddrKept(env, s1, {}, {id} + {evicted});
    s := ClearNew(env, s, p, {id} + {evicted}, {});
    EnterNewKeeps(env, s, {}, {id} + {evicted}, evicted);
    EnterNewOnly(env, s, evicted);
    ContentAt(s, evicted);
    ContentNew(env, s, evicted);
    s := EnterNew(env, s, evicted);
    assert {id} + {evicted} - {evicted} == {id} && {} + {evicted} == {evicted};
    PutNewKeeps(env, s, {evicted}, {id}, p, evicted);
    PutNewOnly(s, p, evicted);
    ContentPut(s, p, evicted);
    s := PutNew(s, p, evicted);
    assert {evicted} - {evicted} == {};
  }

  lemma {:induction false} TriedEntry(env: Env, s: State, limbo: set<Id>, place: Place)
    requires Inv(env, s, {}, limbo) && place in s.triedTable
    ensures var id := s.triedTable[place];
            id in s.infos && s.infos[id].inTried && TriedPlace(env, s.infos[id].addr) == place && id !in limbo
  {
    var id := s.triedTable[place];
    assert RefOk(s.infos[id], |PlacesOf(s.newTable, id)|, id in {} + limbo);
  }

  lemma {:induction false} LimboPlaces(env: Env, s: State, limbo: set<Id>, id: Id)
    requires Inv(env, s, {}, limbo) && id in limbo
    ensures id in s.infos && !s.infos[id].inTried && s.infos[id].refCount == 0
      && forall p :: p in s.newTable ==> s.newTable[p] != id
  {
    NoPlaces(env, s, {}, limbo, id);
  }

  lemma {:induction false} NoPlaces(env: Env, s: State, loose: set<Id>, limbo: set<Id>, id: Id)
    requires Inv(env, s, loose, limbo) && id in loose + limbo
    ensures id in s.infos && !s.infos[id].inTried && s.infos[id].refCount == 0
      && forall p :: p in s.newTable ==> s.newTable[p] != id
  {
    hide RandomOk, AddrOk, TriedOk, CountersOk, TimesOk, IdsOk;
    assert RefOk(s.infos[id], |PlacesOf(s.newTable, id)|, true);
    assert PlacesOf(s.newTable, id) == {};
    forall p | p in s.newTable ensures s.newTable[p] != id { assert p !in PlacesOf(s.newTable, id); }
  }

  lemma {:induction false} LeaveTriedOnly(env: Env, s: State, id: Id)
    requires id in s.infos
    ensures var s' := LeaveTried(env, s, id);
            && s'.infos == s.infos[id := s.infos[id].(inTried := false)]
              && s'.triedTable == s.triedTable - {TriedPlace(env, s.infos[id].addr)}
            && s'.nIdCount == s.nIdCount && s'.newTable == s.newTable
  {
  }

  lemma {:induction false} EnterNewOnly(env: Env, s: State, id: Id)
    requires id in s.infos
    ensures var s' := EnterNew(env, s, id);
            s'.infos == s.infos && s'.triedTable == s.triedTable && s'.nIdCount == s.nIdCount
              && s'.newTable == s.newTable
  {
  }

  lemma {:induction false} PutNewOnly(s: State, p: Place, id: Id)
    requires id in s.infos
    ensures var s' := PutNew(s, p, id);
            && s'.infos == s.infos[id := s.infos[id].(refCount := s.infos[id].refCount + 1)]
              && s'.triedTable == s.triedTable
            && s'.nIdCount == s.nIdCount && s'.newTable == s.newTable[p := id]
  {
  }

  lemma {:induction false} BucketBound(env: Env, a: Addr, source: nat)
    ensures NewBucket(env, a, source) < NEW_BUCKET_COUNT
  {
  }

  lemma {:induction false} PlaceBucket(env: Env, a: Addr, b: nat)
    ensures NewPlaceIn(env, a, b).bucket == b
  {
  }

  lemma {:induction false} LeaveNewOnly(env: Env, s: State, id: Id)
    requires id in s.infos
    ensures var s' := LeaveNew(env, s, id);
            s'.infos == s.infos && s'.triedTable == s.triedTable && s'.nIdCount == s.nIdCount
              && s'.newTable == s.newTable
  {
  }

  lemma {:induction false} EnterTriedOnly(env: Env, s: State, id: Id)
    requires id in s.infos
    ensures var s' := EnterTried(env, s, id);
            && s'.infos == s.infos[id := s.infos[id].(inTried := true)]
              && s'.triedTable == s.triedTable[TriedPlace(env, s.infos[id].addr) := id]
            && s'.nIdCount == s.nIdCount
  {
  }

  lemma {:induction false} PromotedIs(env: Env, b: Book, id: Id, d: Book)
    requires id in b.records && id in d.records && d.records[id] == b.records[id].(refCount := 0)
    requires var c := Unlisted(b, id); var place := TriedPlace(env, b.records[id].addr);
             d == if place in c.tried && c.tried[place] in c.records then Evicted(env, c, place) else c
    ensures Promoted(env, b, id) ==
            d.(tried := d.tried[TriedPlace(env, b.records[id].addr) := id],
              records := d.records[id := d.records[id].(inTried := true)])
  {
    hide Unlisted, Evicted, TriedPlace;
  }

  /** An entry is the same but for its place in the random order. */
  ghost predicate SameEntry(s: State, s': State, id: Id) {
    id in s.infos && id in s'.infos && s'.infos[id] == s.infos[id].(randomPos := s'.infos[id].randomPos)
  }

  /** Every tried place but `place` holds what it held, unchanged. */
  ghost predicate TriedKept(s: State, s': State, place: Place) {
    forall q :: q in s.triedTable && q != place ==>
      q in s'.triedTable && s'.triedTable[q] == s.triedTable[q] && SameEntry(s, s', s.triedTable[q])
  }

  /** The entry that had the place is back at its home in the new table. */
  ghost predicate BackHome(env: Env, s: State, s': State, id: Id) {
    && id in s.infos && id in s'.infos
    && s'.infos[id] == s.infos[id].(inTried := false, refCount := 1, randomPos := s'.infos[id].randomPos)
    && var home := HomePlace(env, s.infos[id].addr, s.infos[id].source);
       home in s'.newTable && s'.newTable[home] == id
  }

  lemma {:induction false} StateApart(env: Env, s: State, id: Id)
    requires Inv(env, s, {}, {}) && id in s.infos && !s.infos[id].inTried
    ensures Apart(Content(s))
    ensures forall q :: q in s.triedTable ==>
      s.triedTable[q] != id && s.triedTable[q] in s.infos && s.infos[s.triedTable[q]].refCount == 0
  {
    hide RandomOk, AddrOk, CountersOk, TimesOk, IdsOk;
    forall q | q in s.triedTable ensures s.infos[s.triedTable[q]].refCount == 0 {
      assert RefOk(s.infos[s.triedTable[q]], |PlacesOf(s.newTable, s.triedTable[q])|, false);
    }
    forall p, q | p in s.newTable && q in s.triedTable ensures s.newTable[p] != s.triedTable[q] {
      assert p in PlacesOf(s.newTable, s.newTable[p]);
      assert RefOk(s.infos[s.triedTable[q]], |PlacesOf(s.newTable, s.triedTable[q])|, false);
    }
  }

  /** A promotion on the tables. */
  lemma {:induction false} PromotedOn(env: Env, s: State, s': State, id: Id)
    requires Inv(env, s, {}, {}) && id in s.infos && !s.infos[id].inTried
    requires id in Content(s).records && Content(s') == Promoted(env, Content(s), id)
    ensures var place := TriedPlace(env, s.infos[id].addr);
            && s'.triedTable == s.triedTable[place := id] && TriedKept(s, s', place)
            && id in s'.infos
            && s'.infos[id] == s.infos[id].(refCount := 0, inTried := true, randomPos := s'.infos[id].randomPos)
            && (place in s.triedTable ==> BackHome(env, s, s', s.triedTable[place]))
  {
    hide Inv, TriedPlace, Promoted, Content, HomePlace, Apart;
    var place := TriedPlace(env, s.infos[id].addr);
    StateApart(env, s, id);
    ContentAt(s, id);
    ContentAt(s', id);
    forall q | q in s.triedTable ensures s.triedTable[q] in Content(s).records { ContentAt(s, s.triedTable[q]); }
    PromotedLaws(env, Content(s), id);
    forall q | q in s.triedTable && q != place ensures SameEntry(s, s', s.triedTable[q]) {
      ContentAt(s, s.triedTable[q]);
      ContentAt(s', s.triedTable[q]);
      assert SameRecord(Content(s), Content(s'), s.triedTable[q]);
    }
    if place in s.triedTable {
      ContentAt(s, s.triedTable[place]);
      ContentAt(s', s.triedTable[place]);
    }
  }

  /** The first half of `MakeTried`: the entry is in neither table and counted nowhere. */
  method LeaveNewSide(env: Env, s0: State, id: Id) returns (s: State)
    requires Inv(env, s0, {}, {}) && id in s0.infos && !s0.infos[id].inTried
    ensures Inv(env, s, {}, {id}) && s.infos.Keys == s0.infos.Keys && s.triedTable == s0.triedTable
      && s.nIdCount == s0.nIdCount
    ensures s.infos[id] == s0.infos[id].(refCount := 0)
      && forall j :: j in s0.infos && j != id ==> s.infos[j] == s0.infos[j]
    ensures id in Content(s0).records && Content(s) == Unlisted(Content(s0), id)
  {
    hide Inv, LeaveNew, Content, Unlisted;
    ghost var none: set<Id> := {};
    s := LeaveNewTable(env, s0, id);
    LeaveNewKeeps(env, s, {id}, none, id);
    LeaveNewOnly(env, s, id);
    ContentNew(env, s, id);
    s := LeaveNew(env, s, id);
    assert {id} - {id} == none && none + {id} == {id};
  }

  /** `MakeTried`. */
  method MakeTried(env: Env, s0: State, id: Id) returns (s: State)
    requires Inv(env, s0, {}, {}) && id in s0.infos && !s0.infos[id].inTried && s0.infos[id].lastSuccess > 0
    ensures Inv(env, s, {}, {}) && Survives(s0, s)
    ensures id in s.infos && s.infos[id].inTried && s.triedTable[TriedPlace(env, s0.infos[id].addr)] == id
    ensures s.triedTable.Keys == s0.triedTable.Keys + {TriedPlace(env, s0.infos[id].addr)}
    ensures s.triedTable == s0.triedTable[TriedPlace(env, s0.infos[id].addr) := id]
    ensures TriedKept(s0, s, TriedPlace(env, s0.infos[id].addr))
    ensures s.infos[id] == s0.infos[id].(refCount := 0, inTried := true, randomPos := s.infos[id].randomPos)
    ensures TriedPlace(env, s0.infos[id].addr) in s0.triedTable ==>
      BackHome(env, s0, s, s0.triedTable[TriedPlace(env, s0.infos[id].addr)])
    ensures id in Content(s0).records && Content(s) == Promoted(env, Content(s0), id)
  {
    hide Inv, BackHome, TriedKept, EnterTried, TriedPlace, Content, Evicted, Promoted, Unlisted;
    ghost var none: set<Id> := {};
    assert {id} - {id} == none;
    s := LeaveNewSide(env, s0, id);
    var place := TriedPlace(env, s.infos[id].addr);
    ContentAt(s0, id);
    ContentAt(s, id);
    if place in s.triedTable {
      s := Evict(env, s, place, id);
      ContentAt(s, id);
    }
    PromotedIs(env, Content(s0), id, Content(s));
    ContentEnterTried(env, s, id);
    EnterTriedKeeps(env, s, none, {id}, id);
    EnterTriedOnly(env, s, id);
    s := EnterTried(env, s, id);
    PromotedOn(env, s0, s, id);
  }

  // ---------------------------------------------------------------- adding

  /** `AddSingle` for a known address: refresh its time, and say whether to go on. */
  method Refresh(env: Env, s0: State, id: Id, x: Announcement) returns (s: State, proceed: bool)
    requires Inv(env, s0, {}, {}) && id in s0.infos
    ensures Inv(env, s, {}, {}) && Survives(s0, s) && id in s.infos && s.infos[id].addr == s0.infos[id].addr
      && s.infos.Keys == s0.infos.Keys
    ensures s.infos[id] == s0.infos[id].(time := RefreshedTime(s0.infos[id].time, x))
    ensures proceed <==> GoesOn(s0.infos[id], x)
    ensures proceed ==> !s.infos[id].inTried && s.infos[id].refCount < NEW_BUCKETS_PER_ADDRESS
    ensures id in Content(s0).records && Content(s) == Content(s0).(records := Content(s0).records[id :=
              Content(s0).records[id].(time := RefreshedTime(s0.infos[id].time, x))])
  {
    hide Inv, Content;
    s := s0;
    var penalty := Penalty(x);
    var info := s.infos[id];
    var interval := if x.now - x.time < DAY then HOUR else DAY;
    StatFacts(env, s, {}, {}, id);
    ContentAt(s, id);
    if info.time < x.time - interval - penalty {
      ContentStats(s, id, MaxZero(x.time - penalty), info.lastTry, info.lastCount, info.lastSuccess, info.attempts);
      SetStatsKeeps(env, s, {}, {}, id, MaxZero(x.time - penalty), info.lastTry, info.lastCount, info.lastSuccess,
        info.attempts);
      s := SetStats(s, id, MaxZero(x.time - penalty), info.lastTry, info.lastCount, info.lastSuccess, info.attempts);
    }
    StatFacts(env, s, {}, {}, id);
    proceed := x.time > s.infos[id].time && !info.inTried && info.refCount != NEW_BUCKETS_PER_ADDRESS
      && (info.refCount == 0 || x.lucky);
  }

  lemma {:induction false} StatFacts(env: Env, s: State, loose: set<Id>, limbo: set<Id>, id: Id)
    requires Inv(env, s, loose, limbo) && id in s.infos
    ensures s.infos[id].lastTry >= 0 && s.infos[id].lastSuccess >= 0
      && (s.infos[id].inTried ==> s.infos[id].lastSuccess > 0)
    ensures 0 <= s.infos[id].refCount <= NEW_BUCKETS_PER_ADDRESS
    ensures !s.infos[id].inTried && id !in loose + limbo ==> s.infos[id].refCount > 0
  {
    hide RandomOk, AddrOk, TriedOk, CountersOk, IdsOk, PlacesOf;
    assert RefOk(s.infos[id], |PlacesOf(s.newTable, id)|, id in loose + limbo);
  }

  /** `AddSingle`. */
  method AddSingle(env: Env, s0: State, x: Announcement) returns (s: State, inserted: bool)
    requires Inv(env, s0, {}, {})
    ensures Inv(env, s, {}, {}) && Survives(s0, s)
    ensures (Content(s), inserted) == Announced(env, Content(s0), x)
    ensures s.triedTable == s0.triedTable && OnlyPlace(s0.newTable, s.newTable, HomePlace(env, x.addr, x.source))
    ensures forall id :: id in s0.infos && !IsTerrible(s0.infos[id], x.now) ==> id in s.infos
  {
    hide Inv, NewPlaceIn, NewBucket, Create, Content, Listed, Named, GoesOn, RefreshedTime, Announced, OnlyPlace,
         IsTerrible;
    s, inserted := Announce(env, s0, x);
    AnnouncedOn(env, s0, s, x, inserted);
  }

  /** Between two tables, at most the place `home` changed. */
  ghost predicate OnlyPlace(t: map<Place, Id>, t': map<Place, Id>, home: Place) {
    && (forall p :: p != home ==> (p in t' <==> p in t)) && forall p :: p != home && p in t ==> t'[p] == t[p]
  }

  lemma {:induction false} AnnouncedOn(env: Env, s: State, s': State, x: Announcement, inserted: bool)
    requires Inv(env, s, {}, {}) && (Content(s'), inserted) == Announced(env, Content(s), x)
    ensures s'.triedTable == s.triedTable && OnlyPlace(s.newTable, s'.newTable, HomePlace(env, x.addr, x.source))
    ensures forall id :: id in s.infos && !IsTerrible(s.infos[id], x.now) ==> id in s'.infos
  {
    hide Inv, Content, Announced, IsTerrible, HomePlace, Placed;
    StatePlaced(env, s);
    AnnouncedLaws(env, Content(s), x);
    ContentAt(s, 0);
    ContentAt(s', 0);
    forall id | id in s.infos && !IsTerrible(s.infos[id], x.now) ensures id in s'.infos {
      ContentAt(s, id);
      ContentAt(s', id);
      SameTerrible(s.infos[id], x.now);
    }
  }

  lemma {:induction false} StatePlaced(env: Env, s: State)
    requires Inv(env, s, {}, {})
    ensures Placed(Content(s))
  {
    hide RandomOk, CountersOk, TimesOk, TriedOk;
    var b := Content(s);
    OneRecordEach(env, s, {}, {});
    forall id | id in s.infos
      ensures s.infos[id].refCount >= 0 && (s.infos[id].inTried || s.infos[id].refCount > 0)
    {
      assert RefOk(s.infos[id], |PlacesOf(s.newTable, id)|, false);
    }
    forall p | p in s.newTable ensures s.infos[s.newTable[p]].refCount > 0 {
      assert p in PlacesOf(s.newTable, s.newTable[p]);
      assert RefOk(s.infos[s.newTable[p]], |PlacesOf(s.newTable, s.newTable[p])|, false);
    }
    assert s.nIdCount !in s.infos;
  }

  method Announce(env: Env, s0: State, x: Announcement) returns (s: State, inserted: bool)
    requires Inv(env, s0, {}, {})
    ensures Inv(env, s, {}, {}) && Survives(s0, s)
    ensures (Content(s), inserted) == Announced(env, Content(s0), x)
  {
    hide Inv, NewPlaceIn, NewBucket, Create, Content, Listed, Named, GoesOn, RefreshedTime;
    s, inserted := s0, false;
    if !x.routable { return; }
    var penalty := Penalty(x);
    NamedIndexed(env, s0, {}, {}, x.addr);
    var id: Id;
    ghost var none: set<Id> := {};
    ghost var loose := none;
    Indexed(env, s, none, none);
    if x.addr in s.byAddr {
      id := s.byAddr[x.addr];
      var proceed;
      ContentAt(s, id);
      SameChoice(s.infos[id], x);
      s, proceed := Refresh(env, s, id, x);
      if !proceed { return; }
    } else {
      id := s.nIdCount;
      CreateKeeps(env, s, none, none, x.addr, x.source, MaxZero(x.time - penalty));
      CreateOnly(env, s, none, none, x.addr, x.source, MaxZero(x.time - penalty));
      ContentCreate(env, s, x);
      ContentAt(s, id);
      s := Create(env, s, x.addr, x.source, MaxZero(x.time - penalty));
      loose := {id};
      assert none + {id} == {id};
    }
    ghost var s1 := s;
    s, inserted := ListOrDrop(env, s, id, x.source, loose, x.now);
    SurvivesTrans(s0, s1, s);
  }

  lemma {:induction false} SameChoice(r: Info, x: Announcement)
    ensures GoesOn(r.(randomPos := 0), x) <==> GoesOn(r, x)
  {
  }

  lemma {:induction false} Indexed(env: Env, s: State, loose: set<Id>, limbo: set<Id>)
    requires Inv(env, s, loose, limbo)
    ensures forall a :: a in s.byAddr ==> s.byAddr[a] in s.infos && s.infos[s.byAddr[a]].addr == a
    ensures forall id :: id in s.infos ==>
      s.infos[id].addr in s.byAddr && s.byAddr[s.infos[id].addr] == id < s.nIdCount
  {
  }

  lemma {:induction false} CreateOnly(env: Env, s: State, loose: set<Id>, limbo: set<Id>, a: Addr, source: nat,
                                      time: int)
    requires Inv(env, s, loose, limbo)
    ensures var s' := Create(env, s, a, source, time);
            && Survives(s, s') && s.nIdCount in s'.infos && s'.infos[s.nIdCount].addr == a
              && s'.infos[s.nIdCount].refCount == 0 && !s'.infos[s.nIdCount].inTried
  {
  }

  /** The second half of `AddSingle`: take the place for this source, unless a better entry has it; an
      entry left without any place goes. */
  method ListOrDrop(env: Env, s0: State, id: Id, source: nat, ghost loose: set<Id>, now: int)
    returns (s: State, inserted: bool)
    requires Inv(env, s0, loose, {}) && loose <= {id} && id in s0.infos && !s0.infos[id].inTried
      && s0.infos[id].refCount < NEW_BUCKETS_PER_ADDRESS
    ensures Inv(env, s, {}, {}) && Survives(s0, s)
    ensures id in Content(s0).records && (Content(s), inserted) == Listed(env, Content(s0), id, source, now)
  {
    hide Inv, NewPlaceIn, NewBucket, PutNew, Content, Cleared, IsTerrible;
    ContentAt(s0, id);
    s := s0;
    var a := s.infos[id].addr;
    var b := NewBucket(env, a, source);
    BucketBound(env, a, source);
    var p := NewPlaceIn(env, a, b);
    PlaceBucket(env, a, b);
    ghost var none: set<Id> := {};
    StatFacts(env, s, loose, none, id);
    BareRefs(env, s, loose, id);
    inserted := p !in s.newTable;
    if !(p in s.newTable && s.newTable[p] == id) {
      if !inserted {
        NewEntry(env, s, loose, p);
        var there := s.infos[s.newTable[p]];
        ContentAt(s, s.newTable[p]);
        SameTerrible(there, now);
        inserted := IsTerrible(there, now) || (there.refCount > 1 && s.infos[id].refCount == 0);
      }
      if inserted {
        s := TakePlace(env, s, p, id, loose);
      } else if s.infos[id].refCount == 0 {
        DeleteKeeps(env, s, loose, none, id);
        DeleteSame(env, s, loose, none, id);
        ContentDelete(env, s, loose, none, id);
        s := Delete(env, s, id);
        assert loose - {id} == none;
      }
    } else {
      NewEntry(env, s, loose, p);
    }
  }

  /** Clear a place of the new table and put an entry there. */
  method TakePlace(env: Env, s0: State, p: Place, id: Id, ghost loose: set<Id>) returns (s: State)
    requires Inv(env, s0, loose, {}) && loose <= {id} && id in s0.infos && !s0.infos[id].inTried
      && s0.infos[id].refCount < NEW_BUCKETS_PER_ADDRESS
    requires (p in s0.newTable ==> s0.newTable[p] != id) && p.bucket < NEW_BUCKET_COUNT
      && p == NewPlaceIn(env, s0.infos[id].addr, p.bucket)
    ensures Inv(env, s, {}, {}) && Survives(s0, s) && id in Content(s0).records
    ensures var c := Cleared(Content(s0), p); var r := Content(s0).records[id];
            Content(s) == c.(new_ := c.new_[p := id], records := c.records[id := r.(refCount := r.refCount + 1)])
  {
    hide Inv, NewPlaceIn, PutNew, Content, Cleared;
    ContentAt(s0, id);
    s := ClearNew(env, s0, p, {}, loose);
    PutNewKeeps(env, s, loose, {}, p, id);
    PutNewOnly(s, p, id);
    ContentAt(s, id);
    ContentPut(s, p, id);
    s := PutNew(s, p, id);
    assert loose - {id} == {};
  }

  lemma {:induction false} SameTerrible(r: Info, now: int)
    ensures IsTerrible(r.(randomPos := 0), now) <==> IsTerrible(r, now)
  {
  }

  lemma {:induction false} BareRefs(env: Env, s: State, loose: set<Id>, id: Id)
    requires Inv(env, s, loose, {}) && loose <= {id} && id in s.infos && !s.infos[id].inTried
    ensures id in loose <==> s.infos[id].refCount == 0
    ensures id !in loose ==> loose == {}
  {
    hide RandomOk, AddrOk, TriedOk, CountersOk, IdsOk, PlacesOf;
    assert RefOk(s.infos[id], |PlacesOf(s.newTable, id)|, id in loose + {});
  }

  lemma {:induction false} NewEntry(env: Env, s: State, loose: set<Id>, p: Place)
    requires Inv(env, s, loose, {}) && p in s.newTable
    ensures s.newTable[p] in s.infos && s.newTable[p] !in loose
  {
    var id := s.newTable[p];
    assert p in PlacesOf(s.newTable, id);
    assert RefOk(s.infos[id], |PlacesOf(s.newTable, id)|, id in loose + {});
  }

  // ---------------------------------------------------------------- the object

  /** A colliding entry that still exists faces an occupied tried place. */
  ghost predicate CollisionsOk(env: Env, s: State, collisions: set<Id>) {
    forall id :: id in collisions ==>
      id < s.nIdCount && (id in s.infos ==> TriedPlace(env, s.infos[id].addr) in s.triedTable)
  }

  lemma {:induction false} CollisionsSurvive(env: Env, s: State, s': State, collisions: set<Id>)
    requires CollisionsOk(env, s, collisions) && Survives(s, s')
    ensures CollisionsOk(env, s', collisions)
  {
    hide TriedPlace;
  }

  /** A successful connection is recorded: the times, and no failed attempts. */
  ghost predicate Connects(env: Env, s: State, s': State, id: Id, time: int) {
    && id in s.infos && id in s'.infos && s'.infos[id].addr == s.infos[id].addr
    && s'.infos[id].lastSuccess == s'.infos[id].lastTry == time && s'.infos[id].attempts == 0
  }

  /** The entry has its tried place; the one that was there is back at its home; no other tried place changed. */
  ghost predicate TakesPlace(env: Env, s: State, s': State, id: Id) {
    && id in s.infos && id in s'.infos && s'.infos[id].inTried && s'.infos[id].refCount == 0
    && var place := TriedPlace(env, s.infos[id].addr);
       && s'.triedTable == s.triedTable[place := id] && TriedKept(s, s', place)
       && (place in s.triedTable ==> BackHome(env, s, s', s.triedTable[place]))
  }

  /** Both tables are as before, and so are all entries but for the statistics of `id`. */
  ghost predicate StaysPut(s: State, s': State, id: Id) {
    && s'.triedTable == s.triedTable && s'.newTable == s.newTable && s'.infos.Keys == s.infos.Keys
    && forall j :: j in s.infos && j != id ==> s'.infos[j] == s.infos[j]
  }

  lemma {:induction false} StatsOnly(s': State, s: State, id: Id, time: int, lastTry: int, lastCount: int,
                                     lastSuccess: int, attempts: nat)
    requires id in s.infos && s' == SetStats(s, id, time, lastTry, lastCount, lastSuccess, attempts)
    ensures StaysPut(s, s', id) && id in s'.infos
    ensures s'.infos[id] == s.infos[id].(time := time, lastTry := lastTry, lastCount := lastCount,
                                         lastSuccess := lastSuccess, attempts := attempts)
  {
  }

  lemma {:induction false} TakesAfter(env: Env, s: State, s1: State, s': State, id: Id)
    requires Inv(env, s, {}, {}) && StaysPut(s, s1, id) && id in s.infos && id in s1.infos
    requires s1.infos[id].addr == s.infos[id].addr && !s.infos[id].inTried && TakesPlace(env, s1, s', id)
    ensures TakesPlace(env, s, s', id)
  {
    hide TriedPlace, HomePlace, Inv;
    StateApart(env, s, id);
  }

  /** A colliding entry that exists and is valid, against an entry without success for four hours. */
  ghost predicate Contests(env: Env, s: State, id: Id, now: int, valid: Addr -> bool) {
    && id in s.infos && valid(s.infos[id].addr) && Faced(env, s, id).Some?
    && now - s.infos[Faced(env, s, id).value].lastSuccess >= 14400
  }

  /** The entry at the tried place of `id`. */
  ghost function Faced(env: Env, s: State, id: Id): (r: Option<Id>)
    ensures r.Some? ==> r.value in s.infos
  {
    if id !in s.infos then None
    else
      var place := TriedPlace(env, s.infos[id].addr);
      if place in s.triedTable && s.triedTable[place] in s.infos then Some(s.triedTable[place]) else None
  }

  /** Its test is still open: it was tried in the last minute, or not for four hours while the colliding one
      succeeded in the last forty minutes. */
  ghost predicate StillOpen(env: Env, s: State, id: Id, now: int)
    requires id in s.infos && Faced(env, s, id).Some?
  {
    var there := s.infos[Faced(env, s, id).value];
    || now - there.lastTry <= 60
    || (now - there.lastTry >= 14400 && now - s.infos[id].lastSuccess <= 2400)
  }

  ghost predicate Waits(env: Env, s: State, id: Id, now: int, valid: Addr -> bool) {
    Contests(env, s, id, now, valid) && StillOpen(env, s, id, now)
  }

  /** One collision: the colliding entry takes the place if its test is over and the entry there has failed it;
      otherwise nothing changes. */
  ghost predicate Resolves(env: Env, s: State, s': State, id: Id, now: int, valid: Addr -> bool) {
    if Contests(env, s, id, now, valid) && !StillOpen(env, s, id, now) then
      Connects(env, s, s', id, now) && if s.infos[id].inTried then StaysPut(s, s', id) else TakesPlace(env, s, s', id)
    else s' == s
  }

  /** A tried place whose entry succeeded less than four hours ago. */
  ghost predicate Recent(s: State, p: Place, now: int) {
    p in s.triedTable && s.triedTable[p] in s.infos && now - s.infos[s.triedTable[p]].lastSuccess < 14400
  }

  /** Recent entries are where they were. */
  ghost predicate RecentKept(s: State, s': State, now: int) {
    forall p :: Recent(s, p, now) ==> Recent(s', p, now) && s'.triedTable[p] == s.triedTable[p]
  }

  lemma {:induction false} ResolveKeepsRecent(env: Env, s: State, s': State, id: Id, now: int, valid: Addr -> bool)
    requires Inv(env, s, {}, {}) && Resolves(env, s, s', id, now, valid)
    ensures RecentKept(s, s', now)
  {
    hide TriedPlace, HomePlace, BackHome, RandomOk, AddrOk, NewOk, CountersOk, TimesOk, IdsOk;
    forall p | Recent(s, p, now) ensures Recent(s', p, now) && s'.triedTable[p] == s.triedTable[p] {
      if s' != s && !s.infos[id].inTried {
        assert p != TriedPlace(env, s.infos[id].addr);
        assert SameEntry(s, s', s.triedTable[p]);
      }
    }
  }

  lemma {:induction false} RecentTrans(a: State, b: State, c: State, now: int)
    requires RecentKept(a, b, now) && RecentKept(b, c, now)
    ensures RecentKept(a, c, now)
  {
    hide Recent;
  }

  /** The collisions met one after the other. */
  ghost predicate ResolvesAll(env: Env, states: seq<State>, ids: seq<Id>, now: int, valid: Addr -> bool) {
    |states| == |ids| + 1 && forall i :: 0 <= i < |ids| ==> Resolves(env, states[i], states[i + 1], ids[i], now, valid)
  }

  /** Those of them that wait. */
  ghost function Waiting(env: Env, states: seq<State>, ids: seq<Id>, now: int, valid: Addr -> bool): set<Id>
    requires |states| == |ids| + 1
  {
    set i | 0 <= i < |ids| && Waits(env, states[i], ids[i], now, valid) :: ids[i]
  }

  lemma {:induction false} WaitingNext(env: Env, states: seq<State>, ids: seq<Id>, s: State, id: Id, now: int,
                                       valid: Addr -> bool)
    requires ResolvesAll(env, states, ids, now, valid) && Resolves(env, states[|ids|], s, id, now, valid)
    ensures ResolvesAll(env, states + [s], ids + [id], now, valid)
    ensures Waiting(env, states + [s], ids + [id], now, valid) ==
      Waiting(env, states, ids, now, valid) + if Waits(env, states[|ids|], id, now, valid) then {id} else {}
  {
    hide Resolves, Waits;
    var more, all := states + [s], ids + [id];
    forall i | 0 <= i < |all| ensures Resolves(env, more[i], more[i + 1], all[i], now, valid) {
      assert more[i] == states[i] && (i < |ids| ==> more[i + 1] == states[i + 1] && all[i] == ids[i]);
    }
    var was, after := Waiting(env, states, ids, now, valid), Waiting(env, more, all, now, valid);
    forall x | x in was ensures x in after {
      var i :| 0 <= i < |ids| && Waits(env, states[i], ids[i], now, valid) && ids[i] == x;
      assert more[i] == states[i] && all[i] == ids[i];
    }
    forall x | x in after
      ensures x in was || (x == id && Waits(env, states[|ids|], id, now, valid))
    {
      var i :| 0 <= i < |all| && Waits(env, more[i], all[i], now, valid) && all[i] == x;
      assert more[i] == states[i] && (i < |ids| ==> all[i] == ids[i]);
    }
    if Waits(env, states[|ids|], id, now, valid) {
      assert more[|ids|] == states[|ids|] && all[|ids|] == id;
      assert Waits(env, more[|ids|], all[|ids|], now, valid);
    }
  }

  /** What the fates of a collision are, on the tables. */
  lemma {:induction false} FateMeans(env: Env, s: State, id: Id, now: int, valid: Addr -> bool)
    requires Inv(env, s, {}, {}) && (id in s.infos ==> TriedPlace(env, s.infos[id].addr) in s.triedTable)
    ensures var fate := FateOf(env, Content(s), id, now, valid);
            && (fate.Wait? <==> Waits(env, s, id, now, valid))
            && (fate.Replace? <==> Contests(env, s, id, now, valid) && !StillOpen(env, s, id, now))
  {
    hide Inv, Content, TriedPlace;
    ContentAt(s, id);
    if id in s.infos {
      var place := TriedPlace(env, s.infos[id].addr);
      TriedEntry(env, s, {}, place);
      ContentAt(s, s.triedTable[place]);
    }
  }

  lemma {:induction false} IsResolved(env: Env, s: State, s': State, id: Id, now: int, valid: Addr -> bool)
    requires Inv(env, s, {}, {}) && (id in s.infos ==> TriedPlace(env, s.infos[id].addr) in s.triedTable)
    requires if FateOf(env, Content(s), id, now, valid).Replace? then
        id in s.infos && Connects(env, s, s', id, now)
          && if s.infos[id].inTried then StaysPut(s, s', id) else TakesPlace(env, s, s', id)
      else s' == s
    ensures Resolves(env, s, s', id, now, valid) && RecentKept(s, s', now)
  {
    hide Inv, Content, FateOf, TriedPlace, Connects, StaysPut, TakesPlace, Contests, StillOpen, RecentKept;
    FateMeans(env, s, id, now, valid);
    ResolveKeepsRecent(env, s, s', id, now, valid);
  }

  class AddrManImpl {
    const env: Env
    var s: State
    var collisions: set<Id>
    var lastGood: int

    ghost predicate Valid()
      reads this
    {
      Inv(env, s, {}, {}) && CollisionsOk(env, s, collisions)
    }

    constructor (e: Env)
      ensures Valid() && s.infos == map[] && collisions == {}
    {
      env := e;
      s := State(map[], map[], [], map[], map[], 0, 0, 0, map[]);
      collisions, lastGood := {}, 1;
      new;
      EmptyInv(env, s);
    }

    /** `Add_`. */
    method Add(xs: seq<Announcement>) returns (any: bool)
      requires Valid()
      modifies this`s
      ensures Valid() && Survives(old(s), s)
      ensures (Content(s), any) == AllAnnounced(env, Content(old(s)), xs)
    {
      hide Inv, CollisionsOk, Content, Announced;
      any := false;
      SurvivesSelf(env, s);
      for i := 0 to |xs|
        invariant Valid() && Survives(old(s), s) && (Content(s), any) == AllAnnounced(env, Content(old(s)), xs[..i])
      {
        assert xs[..i + 1][..i] == xs[..i];
        var s1, inserted := AddSingle(env, s, xs[i]);
        CollisionsSurvive(env, s, s1, collisions);
        SurvivesTrans(old(s), s, s1);
        s, any := s1, any || inserted;
      }
      assert xs[..|xs|] == xs;
    }

    /** `Good_`, at a positive time. */
    method Good(a: Addr, testBeforeEvict: bool, time: int) returns (moved: bool)
      requires Valid() && time > 0
      modifies this
      ensures Valid() && Survives(old(s), s) && lastGood == time
      ensures (Content(s), collisions, moved) ==
        Connected(env, Content(old(s)), old(collisions), a, testBeforeEvict, time)
      ensures a !in old(s.byAddr) ==> !moved && s == old(s) && collisions == old(collisions)
      ensures a in old(s.byAddr) ==>
        var id := old(s.byAddr)[a];
        && Connects(env, old(s), s, id, time)
        && (moved <==> !old(s.infos)[id].inTried && !(testBeforeEvict && TriedPlace(env, a) in old(s.triedTable)))
        && (if moved then TakesPlace(env, old(s), s, id) else StaysPut(old(s), s, id))
        && collisions ==
             if moved || old(s.infos)[id].inTried || |old(collisions)| >= 10 then old(collisions)
             else old(collisions) + {id}
    {
      hide Inv, CollisionsOk, TriedPlace, Content, Named, Promoted, TriedKept, BackHome, StaysPut;
      NamedIndexed(env, s, {}, {}, a);
      lastGood := time;
      moved := false;
      SurvivesSelf(env, s);
      Indexed(env, s, {}, {});
      if a !in s.byAddr { return; }
      var id := s.byAddr[a];
      var info := s.infos[id];
      ContentAt(s, id);
      ContentStats(s, id, info.time, time, info.lastCount, time, 0);
      SetStatsKeeps(env, s, {}, {}, id, info.time, time, info.lastCount, time, 0);
      s := SetStats(s, id, info.time, time, info.lastCount, time, 0);
      StatsOnly(s, old(s), id, info.time, time, info.lastCount, time, 0);
      CollisionsSurvive(env, old(s), s, collisions);
      if info.inTried { return; }
      StatFacts(env, s, {}, {}, id);
      if info.refCount <= 0 { return; }
      ContentAt(s, id);
      var place := TriedPlace(env, info.addr);
      if testBeforeEvict && place in s.triedTable {
        if |collisions| < MAX_COLLISIONS {
          Collide(env, s, collisions, id);
          collisions := collisions + {id};
        }
      } else {
        ghost var s1 := s;
        s := MakeTried(env, s, id);
        CollisionsSurvive(env, s1, s, collisions);
        SurvivesTrans(old(s), s1, s);
        TakesAfter(env, old(s), s1, s, id);
        moved := true;
      }
    }

    /** `Attempt_`. */
    method Attempt(a: Addr, countFailure: bool, time: int)
      requires Valid() && time >= 0
      modifies this`s
      ensures Valid() && Survives(old(s), s)
      ensures Content(s) == Attempted(Content(old(s)), a, countFailure, lastGood, time)
      ensures a !in old(s.byAddr) ==> s == old(s)
      ensures a in old(s.byAddr) ==>
        var id := old(s.byAddr)[a];
        && id in old(s.infos) && id in s.infos && StaysPut(old(s), s, id)
        && var was := old(s.infos)[id];
           s.infos[id] ==
             if countFailure && was.lastCount < lastGood then
               was.(lastTry := time, lastCount := time, attempts := was.attempts + 1)
             else was.(lastTry := time)
    {
      hide Inv, CollisionsOk, Content, Named;
      NamedIndexed(env, s, {}, {}, a);
      SurvivesSelf(env, s);
      Indexed(env, s, {}, {});
      if a !in s.byAddr { return; }
      var id := s.byAddr[a];
      var info := s.infos[id];
      StatFacts(env, s, {}, {}, id);
      var counted := countFailure && info.lastCount < lastGood;
      var lastCount, attempts :=
        if counted then time else info.lastCount, if counted then info.attempts + 1 else info.attempts;
      ContentAt(s, id);
      ContentStats(s, id, info.time, time, lastCount, info.lastSuccess, attempts);
      SetStatsKeeps(env, s, {}, {}, id, info.time, time, lastCount, info.lastSuccess, attempts);
      s := SetStats(s, id, info.time, time, lastCount, info.lastSuccess, attempts);
      StatsOnly(s, old(s), id, info.time, time, lastCount, info.lastSuccess, attempts);
      CollisionsSurvive(env, old(s), s, collisions);
    }

    /** `ResolveCollisions_`, at a positive time; `valid` is the validity of an address. */
    method ResolveCollisions(now: int, valid: Addr -> bool) returns (ghost ids: seq<Id>, ghost states: seq<State>)
      requires Valid() && now > 0
      modifies this
      ensures Valid() && Survives(old(s), s)
      ensures ToSet(ids) == old(collisions) && forall i, j :: 0 <= i < j < |ids| ==> ids[i] < ids[j]
      ensures (Content(s), collisions) == AllResolved(env, Content(old(s)), ids, now, valid)
      ensures ResolvesAll(env, states, ids, now, valid) && states[0] == old(s) && states[|ids|] == s
      ensures collisions == Waiting(env, states, ids, now, valid) && RecentKept(old(s), s, now)
    {
      hide Inv, CollisionsOk, Content, FateOf, Resolved, Resolves, Waits, Waiting, RecentKept, ResolvesAll, Visited;
      states := [s];
      NoneWaiting(env, states, now, valid);
      RecentSelf(s, now);
      var rest := collisions;
      ids := [];
      assert collisions - rest == {};
      NothingVisited(collisions);
      SurvivesSelf(env, s);
      while rest != {}
        invariant Valid() && Survives(old(s), s) && rest <= collisions <= old(collisions)
        invariant Visited(ids, old(collisions), rest)
        invariant (Content(s), collisions - rest) == AllResolved(env, Content(old(s)), ids, now, valid)
        invariant ResolvesAll(env, states, ids, now, valid) && |states| == |ids| + 1
        invariant states[0] == old(s) && states[|ids|] == s
        invariant collisions - rest == Waiting(env, states, ids, now, valid) && RecentKept(old(s), s, now)
        decreases rest
      {
        var id := First(rest);
        ghost var s1, waiting := s, collisions - rest;
        var erase := ResolveOne(id, now, valid);
        SurvivesTrans(old(s), s1, s);
        RecentTrans(old(s), s1, s, now);
        VisitNext(ids, old(collisions), rest, id);
        WaitingNext(env, states, ids, s, id, now, valid);
        assert (ids + [id])[..|ids|] == ids;
        ids, rest, states := ids + [id], rest - {id}, states + [s];
        if erase {
          FewerCollisions(env, s, collisions, id);
          collisions := collisions - {id};
          assert collisions - rest == waiting;
        } else {
          assert collisions - rest == waiting + {id};
        }
      }
      assert collisions - rest == collisions;
      AllVisited(ids, old(collisions));
    }

    /** One collision. The tried place of a colliding entry is never free. */
    method ResolveOne(id: Id, now: int, valid: Addr -> bool) returns (erase: bool)
      requires Valid() && now > 0 && id in collisions
      modifies this
      ensures Valid() && Survives(old(s), s) && collisions == old(collisions)
      ensures Content(s) == Resolved(env, Content(old(s)), id, now, valid)
      ensures erase <==> !FateOf(env, Content(old(s)), id, now, valid).Wait?
      ensures id in old(s.infos) ==> TriedPlace(env, old(s.infos)[id].addr) in old(s.triedTable)
      ensures Resolves(env, old(s), s, id, now, valid) && (erase <==> !Waits(env, old(s), id, now, valid))
      ensures RecentKept(old(s), s, now)
    {
      hide Inv, TriedPlace, Content, Connected, TakesPlace, StaysPut, Connects, RecentKept, Resolves, Waits;
      Indexed(env, s, {}, {});
      FateMeans(env, s, id, now, valid);
      SurvivesSelf(env, s);
      ContentAt(s, id);
      ghost var s0 := s;
      if id !in s.infos {
        IsResolved(env, s0, s, id, now, valid);
        return true;
      }
      var info := s.infos[id];
      if !valid(info.addr) {
        IsResolved(env, s0, s, id, now, valid);
        return true;
      }
      var place := TriedPlace(env, info.addr);
      var replace := true;
      if place in s.triedTable {
        TriedEntry(env, s, {}, place);
        var there := s.infos[s.triedTable[place]];
        ContentAt(s, s.triedTable[place]);
        if now - there.lastSuccess < REPLACEMENT {
          IsResolved(env, s0, s, id, now, valid);
          return true;
        }
        replace := if now - there.lastTry < REPLACEMENT then now - there.lastTry > 60
          else now - info.lastSuccess > TEST_WINDOW;
      }
      erase := replace;
      if replace {
        NoTest(env, Content(s), {}, collisions, info.addr, now);
        var _ := Good(info.addr, false, now);
      }
      IsResolved(env, s0, s, id, now, valid);
    }

    /** `GetAddr_`: a random selection of distinct known addresses; `picks` are the dice, `keep` the
        filters. When the limit is not reached, it is all of them. */
    method GetAddr(maxAddresses: nat, maxPct: nat, picks: nat -> nat, keep: Addr -> bool) returns (addresses: seq<Addr>)
      requires Valid()
      modifies this`s
      ensures Valid() && Survives(old(s), s) && Content(s) == Content(old(s)) && s.byAddr == old(s.byAddr)
      ensures Distinct(addresses) && |addresses| <= Limit(|old(s.random)|, maxAddresses, maxPct)
      ensures forall a :: a in addresses ==> a in s.byAddr && keep(a)
      ensures |addresses| < Limit(|old(s.random)|, maxAddresses, maxPct) ==>
        forall a :: a in s.byAddr && keep(a) ==> a in addresses
    {
      hide Inv, CollisionsOk, Limit, Content, Gathered, Moved, Survives;
      var limit := Limit(|s.random|, maxAddresses, maxPct);
      addresses := [];
      GatherStart(s, keep);
      SurvivesSelf(env, s);
      var n := 0;
      while n < |s.random| && |addresses| < limit
        invariant Valid() && Survives(old(s), s) && Content(s) == Content(old(s)) && s.byAddr == old(s.byAddr)
        invariant 0 <= n <= |s.random| == |old(s.random)| && |addresses| <= limit && Gathered(s, n, addresses, keep)
        decreases |s.random| - n
      {
        var pos := picks(n) % (|s.random| - n) + n;
        SwapRandomKeeps(env, s, {}, {}, n, pos);
        ghost var s1 := s;
        GatherSwap(s, n, pos, addresses, keep);
        ContentMoved(s, SwapRandom(s, n, pos));
        s := SwapRandom(s, n, pos);
        CollisionsSurvive(env, s1, s, collisions);
        SurvivesTrans(old(s), s1, s);
        Ordered(env, s, n);
        var a := s.infos[s.random[n]].addr;
        GatherNext(env, s, n, addresses, keep);
        if keep(a) { addresses := addresses + [a]; }
        n := n + 1;
      }
      GatherEnd(env, s, n, addresses, keep);
    }

    /** `SelectTriedCollision_`, for a random choice among the collisions: the entry that a colliding
        address would replace. The tried place is always occupied. */
    method SelectTriedCollision(choice: Id) returns (r: Option<Id>)
      requires Valid() && (collisions != {} ==> choice in collisions)
      modifies this`collisions
      ensures Valid()
      ensures old(collisions) == {} || choice !in s.infos ==> r == None && collisions == old(collisions) - {choice}
      ensures old(collisions) != {} && choice in s.infos ==>
        && collisions == old(collisions) && r.Some? && r.value in s.infos && s.infos[r.value].inTried
        && TriedPlace(env, s.infos[r.value].addr) == TriedPlace(env, s.infos[choice].addr)
    {
      hide Inv, TriedPlace;
      if collisions == {} { return None; }
      if choice !in s.infos {
        collisions := collisions - {choice};
        return None;
      }
      var place := TriedPlace(env, s.infos[choice].addr);
      TriedEntry(env, s, {}, place);
      r := Some(s.triedTable[place]);
    }
  }

  /** Test before evict: an address whose test succeeded keeps its tried place when collisions are resolved in the
      next four hours. */
  method RecentSurvives(m: AddrManImpl, a: Addr, time: int, now: int, valid: Addr -> bool)
    requires m.Valid() && a in m.s.byAddr && m.s.byAddr[a] in m.s.infos && m.s.infos[m.s.byAddr[a]].inTried
    requires 0 < time <= now < time + 14400
    modifies m
    ensures m.Valid() && TriedPlace(m.env, a) in m.s.triedTable
      && m.s.triedTable[TriedPlace(m.env, a)] == old(m.s.byAddr)[a]
  {
    hide Inv, CollisionsOk, Content, TriedPlace, Connected, AllResolved, ResolvesAll, Waiting, TakesPlace;
    ghost var id, place := m.s.byAddr[a], TriedPlace(m.env, a);
    Indexed(m.env, m.s, {}, {});
    AtPlace(m.env, m.s, id);
    var moved := m.Good(a, true, time);
    assert Recent(m.s, place, now);
    ghost var ids, states;
    ids, states := m.ResolveCollisions(now, valid);
  }

  lemma {:induction false} AtPlace(env: Env, s: State, id: Id)
    requires Inv(env, s, {}, {}) && id in s.infos && s.infos[id].inTried
    ensures var p := TriedPlace(env, s.infos[id].addr); p in s.triedTable && s.triedTable[p] == id
  {
  }

  /** Any attempts on one manager while no connection succeeds: at most one failure counts, and when. */
  method AttemptMany(m: AddrManImpl, a: Addr, tries: seq<(bool, int)>)
    requires m.Valid() && forall i :: 0 <= i < |tries| ==> tries[i].1 >= 0
    modifies m`s
    ensures m.Valid() && Survives(old(m.s), m.s)
    ensures Content(m.s) == AllAttempted(Content(old(m.s)), a, m.lastGood, tries)
    ensures a in old(m.s.byAddr) ==>
      var id := old(m.s.byAddr)[a];
      && id in old(m.s.infos) && id in m.s.infos
      && (m.s.infos[id].attempts <= old(m.s.infos)[id].attempts + 1 <==>
            var i := FirstCounting(tries);
            || old(m.s.infos)[id].lastCount >= m.lastGood || i == |tries|
            || tries[i].1 >= m.lastGood || !CountsAfter(tries, i))
  {
    hide Inv, CollisionsOk, Content, Attempted, Survives;
    SurvivesSelf(m.env, m.s);
    for n := 0 to |tries|
      invariant m.Valid() && Survives(old(m.s), m.s)
      invariant Content(m.s) == AllAttempted(Content(old(m.s)), a, m.lastGood, tries[..n])
    {
      ghost var s1 := m.s;
      m.Attempt(a, tries[n].0, tries[n].1);
      SurvivesTrans(old(m.s), s1, m.s);
      assert tries[..n + 1][..n] == tries[..n];
    }
    assert tries[..|tries|] == tries;
    if a in old(m.s.byAddr) { CountedIn(m.env, old(m.s), m.s, a, m.lastGood, tries); }
  }

  lemma {:induction false} CountedIn(env: Env, s: State, s': State, a: Addr, lastGood: int, tries: seq<(bool, int)>)
    requires Inv(env, s, {}, {}) && a in s.byAddr && Content(s') == AllAttempted(Content(s), a, lastGood, tries)
    ensures var id := s.byAddr[a]; var i := FirstCounting(tries);
            && id in s.infos && id in s'.infos
            && (s'.infos[id].attempts <= s.infos[id].attempts + 1 <==>
                  || s.infos[id].lastCount >= lastGood || i == |tries|
                  || tries[i].1 >= lastGood || !CountsAfter(tries, i))
  {
    hide Inv, Content, AllAttempted, OneEach;
    var id := s.byAddr[a];
    Indexed(env, s, {}, {});
    OneRecordEach(env, s, {}, {});
    ContentAt(s, id);
    ContentAt(s', id);
    CountsOnce(Content(s), a, lastGood, tries, id);
  }

  lemma {:induction false} NoneWaiting(env: Env, states: seq<State>, now: int, valid: Addr -> bool)
    requires |states| == 1
    ensures ResolvesAll(env, states, [], now, valid) && Waiting(env, states, [], now, valid) == {}
  {
  }

  lemma {:induction false} RecentSelf(s: State, now: int)
    ensures RecentKept(s, s, now)
  {
  }

  lemma {:induction false} NothingVisited(all: set<Id>)
    ensures Visited([], all, all)
  {
    var none: seq<Id> := [];
    assert ToSet(none) == {} && all - all == {};
  }

  lemma {:induction false} AllVisited(ids: seq<Id>, all: set<Id>)
    requires Visited(ids, all, {})
    ensures ToSet(ids) == all && forall i, j :: 0 <= i < j < |ids| ==> ids[i] < ids[j]
  {
    assert all - {} == all;
  }

  lemma {:induction false} EmptyInv(env: Env, s: State)
    requires s == State(map[], map[], [], map[], map[], 0, 0, 0, map[])
    ensures Inv(env, s, {}, {})
  {
    assert NewIds(s.infos, {}) == {} && TriedIds(s.infos) == {};
    forall net ensures NetOk(env, s, {}, net) {
      assert On(env, s.infos, {}, net) == {};
    }
  }

  lemma {:induction false} SurvivesSelf(env: Env, s: State)
    ensures Survives(s, s)
  {
  }

  lemma {:induction false} Collide(env: Env, s: State, collisions: set<Id>, id: Id)
    requires CollisionsOk(env, s, collisions) && id in s.infos && id < s.nIdCount
      && TriedPlace(env, s.infos[id].addr) in s.triedTable
    ensures CollisionsOk(env, s, collisions + {id})
  {
    hide TriedPlace;
  }

  /** Without the test the collisions play no part. */
  lemma {:induction false} NoTest(env: Env, b: Book, c: set<Id>, d: set<Id>, a: Addr, time: int)
    ensures Connected(env, b, c, a, false, time).0 == Connected(env, b, d, a, false, time).0
    ensures Connected(env, b, d, a, false, time).1 == d
  {
    hide Promoted, Named;
  }

  /** `ids` are the members of `all` outside `rest`, in order, and before those in `rest`. */
  ghost predicate Visited(ids: seq<Id>, all: set<Id>, rest: set<Id>) {
    && rest <= all && ToSet(ids) == all - rest
    && (forall i, j :: 0 <= i < j < |ids| ==> ids[i] < ids[j])
    && (forall i, r :: 0 <= i < |ids| && r in rest ==> ids[i] < r)
  }

  lemma {:induction false} VisitNext(ids: seq<Id>, all: set<Id>, rest: set<Id>, id: Id)
    requires Visited(ids, all, rest) && id in rest && forall r :: r in rest ==> id <= r
    ensures Visited(ids + [id], all, rest - {id})
  {
    assert ToSet(ids + [id]) == ToSet(ids) + {id};
  }

  lemma {:induction false} FewerCollisions(env: Env, s: State, collisions: set<Id>, id: Id)
    requires CollisionsOk(env, s, collisions)
    ensures CollisionsOk(env, s, collisions - {id})
  {
    hide TriedPlace;
  }

  // ---------------------------------------------------------------- gathering addresses

  /** A number of addresses within the total, the maximum and the percentage; zero is no limit. */
  predicate Fits(n: nat, total: nat, maxAddresses: nat, maxPct: nat) {
    n <= total && (maxAddresses != 0 ==> n <= maxAddresses) && (maxPct != 0 ==> 100 * n <= maxPct * total)
  }

  /** The limit is the largest such number. */
  lemma {:induction false} LimitLaw(total: nat, maxAddresses: nat, maxPct: nat)
    ensures Fits(Limit(total, maxAddresses, maxPct), total, maxAddresses, maxPct)
    ensures forall m: nat :: Fits(m, total, maxAddresses, maxPct) ==> m <= Limit(total, maxAddresses, maxPct)
  {
    var pct := if maxPct < 100 then maxPct else 100;
    var share := pct * total / 100;
    assert pct * total <= maxPct * total by { Products(pct, maxPct, total); }
    assert pct * total <= 100 * total by { Products(pct, 100, total); }
    Share(pct * total, share);
  }

  lemma {:induction false} Products(a: nat, b: nat, c: nat)
    requires a <= b
    ensures a * c <= b * c
  {
  }

  lemma {:induction false} Share(x: nat, share: nat)
    requires share == x / 100
    ensures 100 * share <= x && forall m: nat :: 100 * m <= x ==> m <= share
  {
  }

  function Limit(total: nat, maxAddresses: nat, maxPct: nat): nat {
    var nodes := if maxPct == 0 then total else (if maxPct < 100 then maxPct else 100) * total / 100;
    if maxAddresses != 0 && maxAddresses < nodes then maxAddresses else nodes
  }

  ghost predicate InOrder(s: State, n: nat) { n <= |s.random| && forall i :: 0 <= i < n ==> s.random[i] in s.infos }

  /** `addresses` are those of the first `n` entries of the random order that pass the filters. */
  ghost predicate Gathered(s: State, n: nat, addresses: seq<Addr>, keep: Addr -> bool) {
    && InOrder(s, n) && Distinct(addresses)
    && (forall a :: a in addresses ==> keep(a) && exists i :: 0 <= i < n && s.infos[s.random[i]].addr == a)
    && (forall i :: 0 <= i < n && keep(s.infos[s.random[i]].addr) ==> s.infos[s.random[i]].addr in addresses)
  }

  lemma {:induction false} GatherStart(s: State, keep: Addr -> bool)
    ensures Gathered(s, 0, [], keep)
  {
  }

  lemma {:induction false} GatherSwap(s: State, n: nat, pos: nat, addresses: seq<Addr>, keep: Addr -> bool)
    requires Gathered(s, n, addresses, keep) && n <= pos < |s.random| && s.random[n] in s.infos
      && s.random[pos] in s.infos
    requires Moved(s, SwapRandom(s, n, pos))
    ensures Gathered(SwapRandom(s, n, pos), n, addresses, keep) && Survives(s, SwapRandom(s, n, pos))
  {
    var s' := SwapRandom(s, n, pos);
    forall i | 0 <= i < n ensures s'.random[i] in s'.infos && s'.infos[s'.random[i]].addr == s.infos[s.random[i]].addr {
      assert s'.random[i] == s.random[i];
    }
    forall a | a in addresses ensures exists i :: 0 <= i < n && s'.infos[s'.random[i]].addr == a {
      var i :| 0 <= i < n && s.infos[s.random[i]].addr == a;
      assert s'.infos[s'.random[i]].addr == a;
    }
  }

  lemma {:induction false} Ordered(env: Env, s: State, n: nat)
    requires Inv(env, s, {}, {}) && n < |s.random|
    ensures s.random[n] in s.infos
  {
  }

  lemma {:induction false} GatherNext(env: Env, s: State, n: nat, addresses: seq<Addr>, keep: Addr -> bool)
    requires Inv(env, s, {}, {}) && Gathered(s, n, addresses, keep) && n < |s.random| && s.random[n] in s.infos
    ensures var a := s.infos[s.random[n]].addr; Gathered(s, n + 1, if keep(a) then addresses + [a] else addresses, keep)
  {
    hide TriedOk, NewOk, CountersOk, TimesOk, IdsOk;
    var a := s.infos[s.random[n]].addr;
    forall x | x in addresses ensures x != a && exists i :: 0 <= i < n + 1 && s.infos[s.random[i]].addr == x {
      var i :| 0 <= i < n && s.infos[s.random[i]].addr == x;
      assert s.infos[s.random[i]].randomPos == i && s.infos[s.random[n]].randomPos == n;
    }
    if keep(a) {
      assert s.infos[s.random[n]].addr == a;
      assert Distinct(addresses + [a]);
    }
  }

  lemma {:induction false} GatherEnd(env: Env, s: State, n: nat, addresses: seq<Addr>, keep: Addr -> bool)
    requires Inv(env, s, {}, {}) && Gathered(s, n, addresses, keep)
    ensures Distinct(addresses) && forall a :: a in addresses ==> a in s.byAddr && keep(a)
    ensures n == |s.random| ==> forall a :: a in s.byAddr && keep(a) ==> a in addresses
  {
    hide TriedOk, NewOk, CountersOk, TimesOk, IdsOk;
    forall a | a in addresses ensures a in s.byAddr {
      var i :| 0 <= i < n && s.infos[s.random[i]].addr == a;
      assert s.random[i] in s.infos;
    }
    if n == |s.random| {
      forall a | a in s.byAddr && keep(a) ensures a in addresses {
        var id := s.byAddr[a];
        assert s.random[s.infos[id].randomPos] == id;
      }
    }
  }

  // ---------------------------------------------------------------- the built-in consistency check

  /** What `CheckAddrman` tests of one entry (codes -1 to -6, -8 and -14). */
  ghost predicate EntryPasses(s: State, id: Id)
    requires id in s.infos
  {
    var info := s.infos[id];
    && (info.inTried ==> info.lastSuccess != 0 && info.refCount == 0)
    && (!info.inTried ==> 0 < info.refCount <= NEW_BUCKETS_PER_ADDRESS)
    && info.addr in s.byAddr && s.byAddr[info.addr] == id
    && 0 <= info.randomPos < |s.random| && s.random[info.randomPos] == id
    && info.lastTry >= 0 && info.lastSuccess >= 0
  }

  /** Its tests of the tried table (-11, -13, -17, -18). */
  ghost predicate TriedPasses(env: Env, s: State) {
    && (forall p :: p in s.triedTable ==>
      s.triedTable[p] in TriedIds(s.infos) && TriedPlace(env, s.infos[s.triedTable[p]].addr) == p)
    && (forall id :: id in TriedIds(s.infos) ==> |PlacesOf(s.triedTable, id)| == 1)
  }

  /** Its tests of the new table (-12, -15, -19). */
  ghost predicate NewPasses(env: Env, s: State) {
    && (forall p :: p in s.newTable ==>
      s.newTable[p] in NewIds(s.infos, {}) && p == NewPlaceIn(env, s.infos[s.newTable[p]].addr, p.bucket))
    && (forall id :: id in NewIds(s.infos, {}) ==> |PlacesOf(s.newTable, id)| == s.infos[id].refCount)
  }

  /** Its tests of the counts per network (-20, -21). */
  ghost predicate NetworksPass(env: Env, s: State) {
    && (forall id :: id in s.infos ==> env.network(s.infos[id].addr) in s.counts)
    && (forall net :: net in s.counts ==>
          s.counts[net] == Counts(|On(env, s.infos, NewIds(s.infos, {}), net)|,
            |On(env, s.infos, TriedIds(s.infos), net)|))
  }

  /** All of `CheckAddrman`; the totals are codes -7, -9 and -10. */
  ghost predicate CheckAddrman(env: Env, s: State) {
    && |s.random| == s.nTried + s.nNew && |TriedIds(s.infos)| == s.nTried && |NewIds(s.infos, {})| == s.nNew
    && (forall id :: id in s.infos ==> EntryPasses(s, id))
    && TriedPasses(env, s) && NewPasses(env, s) && NetworksPass(env, s)
  }

  /** The invariant is what the built-in check demands, between any two operations. */
  lemma {:induction false} InvPassesCheck(env: Env, s: State)
    requires Inv(env, s, {}, {})
    ensures CheckAddrman(env, s)
  {
    hide RandomOk, AddrOk, TriedOk, NewOk, TimesOk, IdsOk, NetOk, EntryPasses, TriedPasses, NewPasses, NetworksPass,
         NewIds, TriedIds;
    Totals(env, s);
    forall id | id in s.infos ensures EntryPasses(s, id) { EntryPassesCheck(env, s, id); }
    TriedOnce(env, s);
    NewPassCheck(env, s);
    NetworksPassCheck(env, s);
  }

  lemma {:induction false} EntryPassesCheck(env: Env, s: State, id: Id)
    requires Inv(env, s, {}, {}) && id in s.infos
    ensures EntryPasses(s, id)
  {
    hide TriedOk, CountersOk, IdsOk, PlacesOf;
    assert RefOk(s.infos[id], |PlacesOf(s.newTable, id)|, false);
  }

  lemma {:induction false} NewPassCheck(env: Env, s: State)
    requires Inv(env, s, {}, {})
    ensures NewPasses(env, s)
  {
    hide NewPlaceIn, RandomOk, AddrOk, TriedOk, CountersOk, TimesOk, IdsOk;
    forall p | p in s.newTable ensures s.newTable[p] in NewIds(s.infos, {}) {
      var id := s.newTable[p];
      assert p in PlacesOf(s.newTable, id);
      assert RefOk(s.infos[id], |PlacesOf(s.newTable, id)|, false);
    }
    forall id | id in NewIds(s.infos, {}) ensures |PlacesOf(s.newTable, id)| == s.infos[id].refCount {
      assert RefOk(s.infos[id], |PlacesOf(s.newTable, id)|, false);
    }
  }

  lemma {:induction false} NetworksPassCheck(env: Env, s: State)
    requires Inv(env, s, {}, {})
    ensures NetworksPass(env, s)
  {
    hide RandomOk, AddrOk, TriedOk, NewOk, TimesOk, IdsOk, On, NewIds, TriedIds;
    forall id | id in s.infos ensures env.network(s.infos[id].addr) in s.counts { NetworkKnown(env, s, id); }
    forall net | net in s.counts
      ensures s.counts[net] ==
        Counts(|On(env, s.infos, NewIds(s.infos, {}), net)|, |On(env, s.infos, TriedIds(s.infos), net)|)
    {
      assert NetOk(env, s, {}, net);
    }
  }

  lemma {:induction false} Totals(env: Env, s: State)
    requires Inv(env, s, {}, {})
    ensures |s.random| == s.nTried + s.nNew
  {
    hide RandomOk, TriedOk, NewOk, AddrOk, TimesOk, IdsOk, NetOk;
    ListedOnce(s.infos, s.random);
    assert s.infos.Keys == NewIds(s.infos, {}) + TriedIds(s.infos);
    assert NewIds(s.infos, {}) !! TriedIds(s.infos);
  }

  /** The random order lists every entry once. */
  lemma {:induction false} ListedOnce(infos: map<Id, Info>, random: seq<Id>)
    requires RandomOk(infos, random)
    ensures |random| == |infos.Keys|
  {
    forall i, j | 0 <= i < j < |random| ensures random[i] != random[j] {
      assert infos[random[i]].randomPos == i && infos[random[j]].randomPos == j;
    }
    DistinctCard(random);
    forall id | id in infos ensures id in random { assert random[infos[id].randomPos] == id; }
    assert ToSet(random) == infos.Keys;
  }

  lemma {:induction false} TriedOnce(env: Env, s: State)
    requires Inv(env, s, {}, {})
    ensures TriedPasses(env, s)
  {
    hide TriedPlace, NewOk, AddrOk, TimesOk, IdsOk, CountersOk, RandomOk;
    forall id | id in TriedIds(s.infos) ensures |PlacesOf(s.triedTable, id)| == 1 {
      assert PlacesOf(s.triedTable, id) == {TriedPlace(env, s.infos[id].addr)};
    }
  }

  lemma {:induction false} NetworkKnown(env: Env, s: State, id: Id)
    requires Inv(env, s, {}, {}) && id in s.infos
    ensures env.network(s.infos[id].addr) in s.counts
  {
    hide TriedOk, NewOk, AddrOk, TimesOk, IdsOk, RandomOk;
    var net := env.network(s.infos[id].addr);
    assert NetOk(env, s, {}, net);
    assert id in On(env, s.infos, NewIds(s.infos, {}), net) || id in On(env, s.infos, TriedIds(s.infos), net);
  }
}
