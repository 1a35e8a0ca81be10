/** The address manager's tables: five indexes over the same entries, and the elementary changes that
    keep them in agreement. */
module AddrTables {

  const NEW_BUCKET_COUNT: nat := 1024
  const TRIED_BUCKET_COUNT: nat := 256
  const BUCKET_SIZE: nat := 64
  const NEW_BUCKETS_PER_ADDRESS: nat := 8

  type Addr = nat
  type Id = nat
  datatype Place = Place(bucket: nat, position: nat)

  datatype Info = Info(addr: Addr, source: nat, time: int, lastTry: int, lastCount: int, lastSuccess: int,
                       attempts: nat,
                       refCount: int, inTried: bool, randomPos: int)

  datatype Counts = Counts(nNew: int, nTried: int)

  /** The keyed hashes that choose buckets and positions, and the network of an address. */
  datatype Env = Env(newHash: (Addr, nat) -> nat, triedHash: Addr -> nat, placeHash: (bool, nat, Addr) -> nat,
                     network: Addr -> nat)

  function NewBucket(env: Env, a: Addr, source: nat): nat { env.newHash(a, source) % NEW_BUCKET_COUNT }

  function NewPlaceIn(env: Env, a: Addr, bucket: nat): Place {
    Place(bucket, env.placeHash(true, bucket, a) % BUCKET_SIZE)
  }

  function TriedPlace(env: Env, a: Addr): Place {
    var b := env.triedHash(a) % TRIED_BUCKET_COUNT;
    Place(b, env.placeHash(false, b, a) % BUCKET_SIZE)
  }

  /** Where places are: 1024 and 256 buckets of 64. */
  lemma {:induction false} PlaceBounds(env: Env, a: Addr, source: nat, bucket: nat)
    ensures NewBucket(env, a, source) < 1024 && NewPlaceIn(env, a, bucket).position < 64
    ensures TriedPlace(env, a).bucket < 256 && TriedPlace(env, a).position < 64
  {
  }

  /** The tables hold only occupied places. */
  datatype State = State(
    infos: map<Id, Info>, byAddr: map<Addr, Id>, random: seq<Id>, newTable: map<Place, Id>, triedTable: map<Place, Id>,
    nNew: int, nTried: int, nIdCount: nat, counts: map<nat, Counts>)

  function CountsOf(m: map<nat, Counts>, net: nat): Counts { if net in m then m[net] else Counts(0, 0) }

  // ---------------------------------------------------------------- the invariant, index by index

  ghost predicate RandomOk(infos: map<Id, Info>, random: seq<Id>) {
    && (forall id :: id in infos ==> 0 <= infos[id].randomPos < |random| && random[infos[id].randomPos] == id)
    && (forall i :: 0 <= i < |random| ==> random[i] in infos && infos[random[i]].randomPos == i)
  }

  ghost predicate AddrOk(infos: map<Id, Info>, byAddr: map<Addr, Id>) {
    && (forall id :: id in infos ==> infos[id].addr in byAddr && byAddr[infos[id].addr] == id)
    && (forall a :: a in byAddr ==> byAddr[a] in infos && infos[byAddr[a]].addr == a)
  }

  ghost predicate TriedOk(env: Env, infos: map<Id, Info>, tried: map<Place, Id>) {
    && (forall p :: p in tried ==>
      tried[p] in infos && infos[tried[p]].inTried && TriedPlace(env, infos[tried[p]].addr) == p)
    && (forall id :: id in infos && infos[id].inTried ==>
      TriedPlace(env, infos[id].addr) in tried && tried[TriedPlace(env, infos[id].addr)] == id)
  }

  ghost function PlacesOf(table: map<Place, Id>, id: Id): set<Place> { set p | p in table && table[p] == id }

  /** Reference counts count places. Entries in `bare` are in neither table. */
  ghost predicate NewOk(env: Env, infos: map<Id, Info>, table: map<Place, Id>, bare: set<Id>) {
    && (forall p :: p in table ==>
      table[p] in infos && p.bucket < NEW_BUCKET_COUNT && p == NewPlaceIn(env, infos[table[p]].addr, p.bucket))
    && (forall id :: id in infos ==> RefOk(infos[id], |PlacesOf(table, id)|, id in bare))
    && (forall id :: id in bare ==> id in infos)
  }

  ghost predicate RefOk(info: Info, places: nat, bare: bool) {
    && info.refCount == places
    && if bare then !info.inTried && places == 0
       else if info.inTried then places == 0
       else 1 <= places <= NEW_BUCKETS_PER_ADDRESS
  }

  ghost function NewIds(infos: map<Id, Info>, limbo: set<Id>): set<Id> {
    set id | id in infos && !infos[id].inTried && id !in limbo
  }

  ghost function TriedIds(infos: map<Id, Info>): set<Id> { set id | id in infos && infos[id].inTried }

  ghost function On(env: Env, infos: map<Id, Info>, ids: set<Id>, net: nat): set<Id> {
    set id | id in ids && id in infos && env.network(infos[id].addr) == net
  }

  ghost predicate NetOk(env: Env, s: State, limbo: set<Id>, net: nat) {
    CountsOf(s.counts, net) ==
      Counts(|On(env, s.infos, NewIds(s.infos, limbo), net)|, |On(env, s.infos, TriedIds(s.infos), net)|)
  }

  /** The counters; entries in `limbo` are counted nowhere. */
  ghost predicate CountersOk(env: Env, s: State, limbo: set<Id>) {
    && s.nNew == |NewIds(s.infos, limbo)| && s.nTried == |TriedIds(s.infos)|
    && (forall net :: NetOk(env, s, limbo, net))
  }

  ghost predicate TimesOk(infos: map<Id, Info>) {
    forall id :: id in infos ==>
      infos[id].lastTry >= 0 && infos[id].lastSuccess >= 0 && (infos[id].inTried ==> infos[id].lastSuccess > 0)
  }

  ghost predicate IdsOk(infos: map<Id, Info>, next: nat) { forall id :: id in infos ==> id < next }

  /** `loose` entries count as new but have no place; `limbo` entries are between the tables. */
  ghost predicate Inv(env: Env, s: State, loose: set<Id>, limbo: set<Id>) {
    && RandomOk(s.infos, s.random) && AddrOk(s.infos, s.byAddr) && TriedOk(env, s.infos, s.triedTable)
    && NewOk(env, s.infos, s.newTable, loose + limbo) && CountersOk(env, s, limbo)
    && TimesOk(s.infos) && IdsOk(s.infos, s.nIdCount)
  }

  // ---------------------------------------------------------------- changing one entry

  /** Apart from `id`, the entries are the same but possibly for their place in the random order. */
  ghost predicate Beside(infos: map<Id, Info>, infos': map<Id, Info>, id: Id) {
    && (forall j :: j != id ==> (j in infos <==> j in infos'))
    && (forall j :: j != id && j in infos && j in infos' ==> infos'[j] == infos[j].(randomPos := infos'[j].randomPos))
  }

  lemma {:induction false} AddrBeside(infos: map<Id, Info>, infos': map<Id, Info>, byAddr: map<Addr, Id>, id: Id)
    requires AddrOk(infos, byAddr) && Beside(infos, infos', id)
    requires id in infos && id in infos' && infos'[id].addr == infos[id].addr
    ensures AddrOk(infos', byAddr)
  {
  }

  lemma {:induction false} TimesBeside(infos: map<Id, Info>, infos': map<Id, Info>, id: Id)
    requires TimesOk(infos) && Beside(infos, infos', id)
    requires id in infos' ==>
      infos'[id].lastTry >= 0 && infos'[id].lastSuccess >= 0 && (infos'[id].inTried ==> infos'[id].lastSuccess > 0)
    ensures TimesOk(infos')
  {
  }

  lemma {:induction false} IdsBeside(infos: map<Id, Info>, infos': map<Id, Info>, id: Id, next: nat, next': nat)
    requires IdsOk(infos, next) && Beside(infos, infos', id) && next <= next' && (id in infos' ==> id < next')
    ensures IdsOk(infos', next')
  {
  }

  predicate WasTried(infos: map<Id, Info>, id: Id) { id in infos && infos[id].inTried }

  /** The tried table when an entry enters it, leaves it, or neither. */
  lemma {:induction false} TriedBeside(env: Env, infos: map<Id, Info>, infos': map<Id, Info>, tried: map<Place, Id>,
                                       tried': map<Place, Id>, id: Id)
    requires TriedOk(env, infos, tried) && Beside(infos, infos', id)
    requires id in infos && id in infos' ==> infos'[id].addr == infos[id].addr
    requires WasTried(infos, id) == WasTried(infos', id) ==> tried' == tried
    requires WasTried(infos, id) && !WasTried(infos', id) ==> tried' == tried - {TriedPlace(env, infos[id].addr)}
    requires !WasTried(infos, id) && WasTried(infos', id) ==>
      TriedPlace(env, infos'[id].addr) !in tried && tried' == tried[TriedPlace(env, infos'[id].addr) := id]
    ensures TriedOk(env, infos', tried')
  {
    hide TriedPlace;
  }

  /** The new table when only the places of `id` change. */
  lemma {:induction false} NewBeside(env: Env, infos: map<Id, Info>, infos': map<Id, Info>, table: map<Place, Id>,
                                     table': map<Place, Id>,
                                     bare: set<Id>, bare': set<Id>, id: Id)
    requires NewOk(env, infos, table, bare) && Beside(infos, infos', id)
    requires forall j :: j != id ==> PlacesOf(table', j) == PlacesOf(table, j) && (j in bare' <==> j in bare)
    requires forall p :: p in table' && table'[p] == id ==>
      id in infos' && p.bucket < NEW_BUCKET_COUNT && p == NewPlaceIn(env, infos'[id].addr, p.bucket)
    requires if id in infos' then RefOk(infos'[id], |PlacesOf(table', id)|, id in bare') else id !in bare'
    ensures NewOk(env, infos', table', bare')
  {
    hide NewPlaceIn;
    forall p | p in table'
      ensures table'[p] in infos' && p.bucket < NEW_BUCKET_COUNT
        && p == NewPlaceIn(env, infos'[table'[p]].addr, p.bucket)
    {
      var j := table'[p];
      if j != id { assert p in PlacesOf(table', j); assert p in PlacesOf(table, j); }
    }
    forall j | j in infos' ensures RefOk(infos'[j], |PlacesOf(table', j)|, j in bare') {
      if j != id { assert RefOk(infos[j], |PlacesOf(table, j)|, j in bare); }
    }
  }

  predicate CountsAsNew(infos: map<Id, Info>, limbo: set<Id>, id: Id) {
    id in infos && !infos[id].inTried && id !in limbo
  }

  function One(b: bool): int { if b then 1 else 0 }

  lemma {:induction false} SetChange(was: set<Id>, now: set<Id>, id: Id)
    requires forall j :: j != id ==> (j in was <==> j in now)
    ensures |now| == |was| + One(id in now) - One(id in was)
  {
    var rest := was - {id};
    assert now - {id} == rest;
    assert was == if id in was then rest + {id} else rest;
    assert now == if id in now then rest + {id} else rest;
  }

  /** The counters when only `id` changes between new, tried, limbo and absent. */
  lemma {:induction false} CountersBeside(env: Env, s: State, s': State, limbo: set<Id>, limbo': set<Id>, id: Id,
                                          a: Addr)
    requires CountersOk(env, s, limbo) && Beside(s.infos, s'.infos, id)
      && forall j :: j != id ==> (j in limbo <==> j in limbo')
    requires (id in s.infos ==> s.infos[id].addr == a) && (id in s'.infos ==> s'.infos[id].addr == a)
    requires var dNew := One(CountsAsNew(s'.infos, limbo', id)) - One(CountsAsNew(s.infos, limbo, id));
             var dTried := One(WasTried(s'.infos, id)) - One(WasTried(s.infos, id)); var net := env.network(a);
             && s'.nNew == s.nNew + dNew && s'.nTried == s.nTried + dTried
             && CountsOf(s'.counts, net) ==
               Counts(CountsOf(s.counts, net).nNew + dNew, CountsOf(s.counts, net).nTried + dTried)
             && forall n :: n != net ==> CountsOf(s'.counts, n) == CountsOf(s.counts, n)
    ensures CountersOk(env, s', limbo')
  {
    hide CountsOf;
    SetChange(NewIds(s.infos, limbo), NewIds(s'.infos, limbo'), id);
    SetChange(TriedIds(s.infos), TriedIds(s'.infos), id);
    forall n ensures NetOk(env, s', limbo', n) {
      assert NetOk(env, s, limbo, n);
      SetChange(On(env, s.infos, NewIds(s.infos, limbo), n), On(env, s'.infos, NewIds(s'.infos, limbo'), n), id);
      SetChange(On(env, s.infos, TriedIds(s.infos), n), On(env, s'.infos, TriedIds(s'.infos), n), id);
    }
  }

  lemma {:induction false} RandomBeside(infos: map<Id, Info>, infos': map<Id, Info>, random: seq<Id>, id: Id)
    requires RandomOk(infos, random) && id in infos && infos'.Keys == infos.Keys
    requires forall j :: j in infos ==> infos'[j].randomPos == infos[j].randomPos
    ensures RandomOk(infos', random)
  {
  }

  // ---------------------------------------------------------------- elementary changes

  function AddNew(m: map<nat, Counts>, net: nat, d: int): map<nat, Counts> {
    m[net := Counts(CountsOf(m, net).nNew + d, CountsOf(m, net).nTried)]
  }

  function AddTried(m: map<nat, Counts>, net: nat, d: int): map<nat, Counts> {
    m[net := Counts(CountsOf(m, net).nNew, CountsOf(m, net).nTried + d)]
  }

  /** Replace one entry, keeping its address and its place in the random order. */
  lemma {:induction false} EntryBeside(infos: map<Id, Info>, id: Id, x: Info)
    requires id in infos && x.randomPos == infos[id].randomPos
    ensures Beside(infos, infos[id := x], id) && infos[id := x].Keys == infos.Keys
    ensures forall j :: j in infos ==> infos[id := x][j].randomPos == infos[j].randomPos
  {
  }

  /** Take the entry at a new place out of it. */
  function Unlist(s: State, p: Place): State
    requires p in s.newTable && s.newTable[p] in s.infos
  {
    var id := s.newTable[p];
    s.(newTable := s.newTable - {p}, infos := s.infos[id := s.infos[id].(refCount := s.infos[id].refCount - 1)])
  }

  lemma {:induction false} UnlistPlaces(table: map<Place, Id>, p: Place)
    requires p in table
    ensures |PlacesOf(table - {p}, table[p])| == |PlacesOf(table, table[p])| - 1
    ensures forall j :: j != table[p] ==> PlacesOf(table - {p}, j) == PlacesOf(table, j)
  {
    assert PlacesOf(table - {p}, table[p]) == PlacesOf(table, table[p]) - {p};
  }

  lemma {:induction false} UnlistKeeps(env: Env, s: State, loose: set<Id>, limbo: set<Id>, p: Place)
    requires Inv(env, s, loose, limbo) && p in s.newTable
    ensures var id := s.newTable[p];
            && id in s.infos && id !in loose + limbo && !s.infos[id].inTried && s.infos[id].refCount > 0
            && Inv(env, Unlist(s, p), if s.infos[id].refCount == 1 then loose + {id} else loose, limbo)
  {
    hide RandomOk, AddrOk, TriedOk, CountersOk, TimesOk, IdsOk, PlacesOf;
    var id := s.newTable[p];
    assert RefOk(s.infos[id], |PlacesOf(s.newTable, id)|, id in loose + limbo);
    UnlistPlaces(s.newTable, p);
    var s' := Unlist(s, p);
    var loose' := if s.infos[id].refCount == 1 then loose + {id} else loose;
    EntryBeside(s.infos, id, s'.infos[id]);
    TimeFacts(s.infos, id);
    hide NewOk;
    RestKept(env, s, s', limbo, id);
    NewBeside(env, s.infos, s'.infos, s.newTable, s'.newTable, loose + limbo, loose' + limbo, id);
  }

  /** An entry changed only in its statistics and reference count: every index but the new table. */
  lemma {:induction false} RestKept(env: Env, s: State, s': State, limbo: set<Id>, id: Id)
    requires RandomOk(s.infos, s.random) && AddrOk(s.infos, s.byAddr) && TriedOk(env, s.infos, s.triedTable)
    requires CountersOk(env, s, limbo) && TimesOk(s.infos) && IdsOk(s.infos, s.nIdCount)
    requires id in s.infos && id in s'.infos && s' == s.(infos := s.infos[id := s'.infos[id]], newTable := s'.newTable)
    requires var x, y := s.infos[id], s'.infos[id];
             && y.addr == x.addr && y.randomPos == x.randomPos && y.inTried == x.inTried
             && y.lastTry >= 0 && y.lastSuccess >= 0 && (y.inTried ==> y.lastSuccess > 0)
    ensures RandomOk(s'.infos, s'.random) && AddrOk(s'.infos, s'.byAddr) && TriedOk(env, s'.infos, s'.triedTable)
    ensures CountersOk(env, s', limbo) && TimesOk(s'.infos) && IdsOk(s'.infos, s'.nIdCount)
  {
    EntryBeside(s.infos, id, s'.infos[id]);
    IdBound(s.infos, s.nIdCount, id);
    hide RandomOk, AddrOk, TriedOk, CountersOk, TimesOk, IdsOk, Beside;
    RandomBeside(s.infos, s'.infos, s.random, id);
    AddrBeside(s.infos, s'.infos, s.byAddr, id);
    TriedBeside(env, s.infos, s'.infos, s.triedTable, s'.triedTable, id);
    CountersBeside(env, s, s', limbo, limbo, id, s.infos[id].addr);
    TimesBeside(s.infos, s'.infos, id);
    IdsBeside(s.infos, s'.infos, id, s.nIdCount, s'.nIdCount);
  }

  lemma {:induction false} IdBound(infos: map<Id, Info>, next: nat, id: Id)
    requires IdsOk(infos, next) && id in infos
    ensures id < next
  {
  }

  lemma {:induction false} TimeFacts(infos: map<Id, Info>, id: Id)
    requires TimesOk(infos) && id in infos
    ensures infos[id].lastTry >= 0 && infos[id].lastSuccess >= 0 && (infos[id].inTried ==> infos[id].lastSuccess > 0)
  {
  }

  /** Enter an entry at a free place of the new table. */
  function PutNew(s: State, p: Place, id: Id): State
    requires id in s.infos
  {
    s.(newTable := s.newTable[p := id], infos := s.infos[id := s.infos[id].(refCount := s.infos[id].refCount + 1)])
  }

  lemma {:induction false} PutPlaces(table: map<Place, Id>, p: Place, id: Id)
    requires p !in table
    ensures |PlacesOf(table[p := id], id)| == |PlacesOf(table, id)| + 1
    ensures forall j :: j != id ==> PlacesOf(table[p := id], j) == PlacesOf(table, j)
    ensures forall q :: q in PlacesOf(table[p := id], id) <==> q == p || q in PlacesOf(table, id)
  {
    assert PlacesOf(table[p := id], id) == PlacesOf(table, id) + {p};
  }

  lemma {:induction false} PutNewKeeps(env: Env, s: State, loose: set<Id>, limbo: set<Id>, p: Place, id: Id)
    requires Inv(env, s, loose, limbo) && p !in s.newTable && id in s.infos && id !in limbo && !s.infos[id].inTried
    requires s.infos[id].refCount < NEW_BUCKETS_PER_ADDRESS && p.bucket < NEW_BUCKET_COUNT
      && p == NewPlaceIn(env, s.infos[id].addr, p.bucket)
    ensures Inv(env, PutNew(s, p, id), loose - {id}, limbo)
  {
    hide RandomOk, AddrOk, TriedOk, CountersOk, TimesOk, IdsOk, PlacesOf;
    assert RefOk(s.infos[id], |PlacesOf(s.newTable, id)|, id in loose + limbo);
    PutPlaces(s.newTable, p, id);
    var s' := PutNew(s, p, id);
    EntryBeside(s.infos, id, s'.infos[id]);
    TimeFacts(s.infos, id);
    RestKept(env, s, s', limbo, id);
    PlacesMember(s.newTable, id);
    PlacesMember(s'.newTable, id);
    forall q | q in s'.newTable && s'.newTable[q] == id
      ensures q.bucket < NEW_BUCKET_COUNT && q == NewPlaceIn(env, s.infos[id].addr, q.bucket)
    {
      assert q in PlacesOf(s'.newTable, id);
    }
    hide NewOk;
    NewBeside(env, s.infos, s'.infos, s.newTable, s'.newTable, loose + limbo, (loose - {id}) + limbo, id);
  }

  lemma {:induction false} PlacesMember(table: map<Place, Id>, id: Id)
    ensures forall q :: q in PlacesOf(table, id) <==> q in table && table[q] == id
  {
  }

  /** Stop counting an entry as new, or start to. */
  function LeaveNew(env: Env, s: State, id: Id): State
    requires id in s.infos
  {
    s.(nNew := s.nNew - 1, counts := AddNew(s.counts, env.network(s.infos[id].addr), -1))
  }

  function EnterNew(env: Env, s: State, id: Id): State
    requires id in s.infos
  {
    s.(nNew := s.nNew + 1, counts := AddNew(s.counts, env.network(s.infos[id].addr), 1))
  }

  lemma {:induction false} LeaveNewKeeps(env: Env, s: State, loose: set<Id>, limbo: set<Id>, id: Id)
    requires Inv(env, s, loose, limbo) && id in loose && id in s.infos && id !in limbo
    ensures Inv(env, LeaveNew(env, s, id), loose - {id}, limbo + {id})
  {
    hide RandomOk, AddrOk, TriedOk, CountersOk, TimesOk, IdsOk, PlacesOf;
    assert (loose - {id}) + (limbo + {id}) == loose + limbo;
    assert RefOk(s.infos[id], |PlacesOf(s.newTable, id)|, true);
    CountersBeside(env, s, LeaveNew(env, s, id), limbo, limbo + {id}, id, s.infos[id].addr);
  }

  lemma {:induction false} EnterNewKeeps(env: Env, s: State, loose: set<Id>, limbo: set<Id>, id: Id)
    requires Inv(env, s, loose, limbo) && id in limbo && id in s.infos
    ensures Inv(env, EnterNew(env, s, id), loose + {id}, limbo - {id})
  {
    hide RandomOk, AddrOk, TriedOk, CountersOk, TimesOk, IdsOk, PlacesOf;
    assert (loose + {id}) + (limbo - {id}) == loose + limbo;
    assert RefOk(s.infos[id], |PlacesOf(s.newTable, id)|, true);
    CountersBeside(env, s, EnterNew(env, s, id), limbo, limbo - {id}, id, s.infos[id].addr);
  }

  /** Take an entry out of the tried table, or put it in. */
  function LeaveTried(env: Env, s: State, id: Id): State
    requires id in s.infos
  {
    var a := s.infos[id].addr;
    s.(infos := s.infos[id := s.infos[id].(inTried := false)], triedTable := s.triedTable - {TriedPlace(env, a)},
      nTried := s.nTried - 1,
       counts := AddTried(s.counts, env.network(a), -1))
  }

  function EnterTried(env: Env, s: State, id: Id): State
    requires id in s.infos
  {
    var a := s.infos[id].addr;
    s.(infos := s.infos[id := s.infos[id].(inTried := true)], triedTable := s.triedTable[TriedPlace(env, a) := id],
      nTried := s.nTried + 1,
       counts := AddTried(s.counts, env.network(a), 1))
  }

  /** What entering and leaving the tried table have in common. */
  lemma {:induction false} TriedSwitch(env: Env, s: State, s': State, loose: set<Id>, limbo: set<Id>, limbo': set<Id>,
                                       id: Id)
    requires Inv(env, s, loose, limbo) && id in s.infos && id in s'.infos && id !in loose
    requires s'.infos == s.infos[id := s.infos[id].(inTried := !s.infos[id].inTried)] && s'.newTable == s.newTable
    requires s'.random == s.random && s'.byAddr == s.byAddr && s'.nIdCount == s.nIdCount
    requires s.infos[id].inTried ==> id !in limbo && limbo' == limbo + {id}
    requires !s.infos[id].inTried ==> id in limbo && limbo' == limbo - {id} && s.infos[id].lastSuccess > 0
    requires TriedOk(env, s'.infos, s'.triedTable) && CountersOk(env, s', limbo')
    ensures Inv(env, s', loose, limbo')
  {
    hide RandomOk, AddrOk, TriedOk, CountersOk, TimesOk, IdsOk, PlacesOf;
    assert RefOk(s.infos[id], |PlacesOf(s.newTable, id)|, id in loose + limbo);
    EntryBeside(s.infos, id, s'.infos[id]);
    IdBound(s.infos, s.nIdCount, id);
    TimeFacts(s.infos, id);
    RandomBeside(s.infos, s'.infos, s.random, id);
    AddrBeside(s.infos, s'.infos, s.byAddr, id);
    TimesBeside(s.infos, s'.infos, id);
    IdsBeside(s.infos, s'.infos, id, s.nIdCount, s'.nIdCount);
    PlacesMember(s.newTable, id);
    NewBeside(env, s.infos, s'.infos, s.newTable, s'.newTable, loose + limbo, loose + limbo', id);
  }

  lemma {:induction false} LeaveTriedKeeps(env: Env, s: State, loose: set<Id>, limbo: set<Id>, id: Id)
    requires Inv(env, s, loose, limbo) && id in s.infos && s.infos[id].inTried
    ensures id !in loose + limbo && Inv(env, LeaveTried(env, s, id), loose, limbo + {id})
  {
    hide RandomOk, AddrOk, TriedOk, CountersOk, TimesOk, IdsOk, PlacesOf, TriedPlace;
    assert RefOk(s.infos[id], |PlacesOf(s.newTable, id)|, id in loose + limbo);
    var s' := LeaveTried(env, s, id);
    EntryBeside(s.infos, id, s'.infos[id]);
    TriedBeside(env, s.infos, s'.infos, s.triedTable, s'.triedTable, id);
    CountersBeside(env, s, s', limbo, limbo + {id}, id, s.infos[id].addr);
    TriedSwitch(env, s, s', loose, limbo, limbo + {id}, id);
  }

  lemma {:induction false} EnterTriedKeeps(env: Env, s: State, loose: set<Id>, limbo: set<Id>, id: Id)
    requires Inv(env, s, loose, limbo) && id in s.infos && id in limbo && id !in loose && s.infos[id].lastSuccess > 0
    requires TriedPlace(env, s.infos[id].addr) !in s.triedTable
    ensures Inv(env, EnterTried(env, s, id), loose, limbo - {id})
  {
    hide RandomOk, AddrOk, TriedOk, CountersOk, TimesOk, IdsOk, PlacesOf, TriedPlace;
    assert RefOk(s.infos[id], |PlacesOf(s.newTable, id)|, true);
    var s' := EnterTried(env, s, id);
    EntryBeside(s.infos, id, s'.infos[id]);
    TriedBeside(env, s.infos, s'.infos, s.triedTable, s'.triedTable, id);
    CountersBeside(env, s, s', limbo, limbo - {id}, id, s.infos[id].addr);
    TriedSwitch(env, s, s', loose, limbo, limbo - {id}, id);
  }

  /** Change the statistics of an entry. */
  function SetStats(s: State, id: Id, time: int, lastTry: int, lastCount: int, lastSuccess: int, attempts: nat): State
    requires id in s.infos
  {
    s.(infos := s.infos[id :=
      s.infos[id].(time := time, lastTry := lastTry, lastCount := lastCount, lastSuccess := lastSuccess,
        attempts := attempts)])
  }

  lemma {:induction false} SetStatsKeeps(env: Env, s: State, loose: set<Id>, limbo: set<Id>, id: Id,
                                         time: int, lastTry: int, lastCount: int, lastSuccess: int, attempts: nat)
    requires Inv(env, s, loose, limbo) && id in s.infos && lastTry >= 0 && lastSuccess >= 0
      && (s.infos[id].inTried ==> lastSuccess > 0)
    ensures Inv(env, SetStats(s, id, time, lastTry, lastCount, lastSuccess, attempts), loose, limbo)
  {
    hide RandomOk, AddrOk, TriedOk, CountersOk, TimesOk, IdsOk, PlacesOf;
    assert RefOk(s.infos[id], |PlacesOf(s.newTable, id)|, id in loose + limbo);
    var s' := SetStats(s, id, time, lastTry, lastCount, lastSuccess, attempts);
    EntryBeside(s.infos, id, s'.infos[id]);
    RestKept(env, s, s', limbo, id);
    PlacesMember(s.newTable, id);
    NewBeside(env, s.infos, s'.infos, s.newTable, s'.newTable, loose + limbo, loose + limbo, id);
  }

  // ---------------------------------------------------------------- creating and deleting

  function Create(env: Env, s: State, a: Addr, source: nat, time: int): State {
    var id := s.nIdCount;
    s.(infos := s.infos[id := Info(a, source, time, 0, 0, 0, 0, 0, false, |s.random|)], byAddr := s.byAddr[a := id],
       random := s.random + [id], nNew := s.nNew + 1, nIdCount := id + 1, counts := AddNew(s.counts, env.network(a), 1))
  }

  lemma {:induction false} CreateBeside(env: Env, s: State, a: Addr, source: nat, time: int)
    requires IdsOk(s.infos, s.nIdCount) && RandomOk(s.infos, s.random) && AddrOk(s.infos, s.byAddr) && a !in s.byAddr
    ensures var s' := Create(env, s, a, source, time); var id := s.nIdCount;
            && id !in s.infos && Beside(s.infos, s'.infos, id) && RandomOk(s'.infos, s'.random)
              && AddrOk(s'.infos, s'.byAddr)
  {
    var id := s.nIdCount;
    assert id !in s.infos;
    hide IdsOk;
    RandomAppend(s.infos, s.random, id, Info(a, source, time, 0, 0, 0, 0, 0, false, |s.random|));
    hide RandomOk;
    AddrInsert(s.infos, s.byAddr, id, Info(a, source, time, 0, 0, 0, 0, 0, false, |s.random|));
    hide AddrOk;
  }

  lemma {:induction false} RandomAppend(infos: map<Id, Info>, random: seq<Id>, id: Id, x: Info)
    requires RandomOk(infos, random) && id !in infos && x.randomPos == |random|
    ensures RandomOk(infos[id := x], random + [id])
  {
  }

  lemma {:induction false} AddrInsert(infos: map<Id, Info>, byAddr: map<Addr, Id>, id: Id, x: Info)
    requires AddrOk(infos, byAddr) && id !in infos && x.addr !in byAddr
    ensures AddrOk(infos[id := x], byAddr[x.addr := id])
  {
  }

  lemma {:induction false} CreateKeeps(env: Env, s: State, loose: set<Id>, limbo: set<Id>, a: Addr, source: nat,
                                       time: int)
    requires Inv(env, s, loose, limbo) && a !in s.byAddr
    ensures s.nIdCount !in s.infos && s.nIdCount !in limbo
      && Inv(env, Create(env, s, a, source, time), loose + {s.nIdCount}, limbo)
  {
    hide RandomOk, AddrOk, TriedOk, CountersOk, TimesOk, IdsOk, PlacesOf;
    var s', id := Create(env, s, a, source, time), s.nIdCount;
    CreateBeside(env, s, a, source, time);
    TriedBeside(env, s.infos, s'.infos, s.triedTable, s'.triedTable, id);
    CountersBeside(env, s, s', limbo, limbo, id, a);
    TimesBeside(s.infos, s'.infos, id);
    IdsBeside(s.infos, s'.infos, id, s.nIdCount, s'.nIdCount);
    PlacesMember(s.newTable, id);
    assert PlacesOf(s.newTable, id) == {};
    NewBeside(env, s.infos, s'.infos, s.newTable, s'.newTable, loose + limbo, loose + {id} + limbo, id);
    assert loose + {id} + limbo == (loose + {id}) + limbo;
  }

  /** `SwapRandom`. */
  function SwapRandom(s: State, i: nat, j: nat): State
    requires i < |s.random| && j < |s.random| && s.random[i] in s.infos && s.random[j] in s.infos
  {
    if i == j then s
    else
      var a, b := s.random[i], s.random[j];
      var infos1 := s.infos[a := s.infos[a].(randomPos := j)];
      s.(infos := infos1[b := infos1[b].(randomPos := i)], random := s.random[i := b][j := a])
  }

  lemma {:induction false} SwapRandomKeeps(env: Env, s: State, loose: set<Id>, limbo: set<Id>, i: nat, j: nat)
    requires Inv(env, s, loose, limbo) && i < |s.random| && j < |s.random|
    ensures s.random[i] in s.infos && s.random[j] in s.infos && Inv(env, SwapRandom(s, i, j), loose, limbo)
    ensures Moved(s, SwapRandom(s, i, j))
  {
    if i != j {
      SwapOrder(s, i, j);
      hide RandomOk;
      MovedKeeps(env, s, SwapRandom(s, i, j), loose, limbo, s.random[i]);
    }
  }

  /** Only the random order differs. */
  ghost predicate Moved(s: State, s': State) {
    && s' == s.(infos := s'.infos, random := s'.random) && s'.infos.Keys == s.infos.Keys && |s'.random| == |s.random|
    && forall k :: k in s.infos ==> s'.infos[k] == s.infos[k].(randomPos := s'.infos[k].randomPos)
  }

  lemma {:induction false} SwapOrder(s: State, i: nat, j: nat)
    requires RandomOk(s.infos, s.random) && i < |s.random| && j < |s.random| && i != j
    ensures s.random[i] in s.infos && s.random[j] in s.infos
    ensures RandomOk(SwapRandom(s, i, j).infos, SwapRandom(s, i, j).random) && Moved(s, SwapRandom(s, i, j))
  {
    assert s.infos[s.random[i]].randomPos == i && s.infos[s.random[j]].randomPos == j;
  }

  lemma {:induction false} MovedKeeps(env: Env, s: State, s': State, loose: set<Id>, limbo: set<Id>, id: Id)
    requires Inv(env, s, loose, limbo) && Moved(s, s') && RandomOk(s'.infos, s'.random) && id in s.infos
    ensures Inv(env, s', loose, limbo)
  {
    hide RandomOk, AddrOk, TriedOk, CountersOk, TimesOk, IdsOk, PlacesOf;
    assert RefOk(s.infos[id], |PlacesOf(s.newTable, id)|, id in loose + limbo);
    assert Beside(s.infos, s'.infos, id);
    IdBound(s.infos, s.nIdCount, id);
    TimeFacts(s.infos, id);
    AddrBeside(s.infos, s'.infos, s.byAddr, id);
    TriedBeside(env, s.infos, s'.infos, s.triedTable, s'.triedTable, id);
    CountersBeside(env, s, s', limbo, limbo, id, s.infos[id].addr);
    TimesBeside(s.infos, s'.infos, id);
    IdsBeside(s.infos, s'.infos, id, s.nIdCount, s'.nIdCount);
    PlacesMember(s.newTable, id);
    NewBeside(env, s.infos, s'.infos, s.newTable, s'.newTable, loose + limbo, loose + limbo, id);
  }

  /** `Delete`: an entry that is in neither table. */
  function Remove(env: Env, s: State, id: Id): State
    requires id in s.infos && s.random != []
  {
    var a := s.infos[id].addr;
    s.(infos := s.infos - {id}, byAddr := s.byAddr - {a}, random := s.random[..|s.random| - 1], nNew := s.nNew - 1,
       counts := AddNew(s.counts, env.network(a), -1))
  }

  lemma {:induction false} RemoveBeside(env: Env, s: State, id: Id)
    requires RandomOk(s.infos, s.random) && AddrOk(s.infos, s.byAddr) && s.random != []
      && s.random[|s.random| - 1] == id
    ensures id in s.infos
    ensures var s' := Remove(env, s, id);
            Beside(s.infos, s'.infos, id) && RandomOk(s'.infos, s'.random) && AddrOk(s'.infos, s'.byAddr)
  {
    RandomLast(s.infos, s.random);
    hide RandomOk;
    AddrLast(s.infos, s.byAddr, id);
    hide AddrOk;
  }

  lemma {:induction false} RandomLast(infos: map<Id, Info>, random: seq<Id>)
    requires RandomOk(infos, random) && random != []
    ensures var id := random[|random| - 1]; id in infos && RandomOk(infos - {id}, random[..|random| - 1])
  {
    var n := |random| - 1;
    forall j | j in infos && j != random[n] ensures infos[j].randomPos < n { assert random[infos[j].randomPos] == j; }
  }

  lemma {:induction false} AddrLast(infos: map<Id, Info>, byAddr: map<Addr, Id>, id: Id)
    requires AddrOk(infos, byAddr) && id in infos
    ensures AddrOk(infos - {id}, byAddr - {infos[id].addr})
  {
  }

  lemma {:induction false} RemoveKeeps(env: Env, s: State, loose: set<Id>, limbo: set<Id>, id: Id)
    requires Inv(env, s, loose, limbo) && id in loose && id !in limbo && s.random != []
      && s.random[|s.random| - 1] == id
    ensures id in s.infos && Inv(env, Remove(env, s, id), loose - {id}, limbo)
  {
    hide RandomOk, AddrOk, TriedOk, CountersOk, TimesOk, IdsOk, PlacesOf;
    RemoveBeside(env, s, id);
    assert RefOk(s.infos[id], |PlacesOf(s.newTable, id)|, true);
    var s' := Remove(env, s, id);
    TriedBeside(env, s.infos, s'.infos, s.triedTable, s'.triedTable, id);
    CountersBeside(env, s, s', limbo, limbo, id, s.infos[id].addr);
    TimesBeside(s.infos, s'.infos, id);
    IdsBeside(s.infos, s'.infos, id, s.nIdCount, s'.nIdCount);
    PlacesMember(s.newTable, id);
    NewBeside(env, s.infos, s'.infos, s.newTable, s'.newTable, loose + limbo, (loose - {id}) + limbo, id);
  }

  function Delete(env: Env, s: State, id: Id): State
    requires RandomReady(s, id)
  {
    Remove(env, SwapRandom(s, s.infos[id].randomPos, |s.random| - 1), id)
  }

  /** What `Delete` needs to run: the entry and the last of the random order are there. */
  predicate RandomReady(s: State, id: Id) {
    && id in s.infos && 0 <= s.infos[id].randomPos < |s.random| && s.random[s.infos[id].randomPos] == id
    && s.random[|s.random| - 1] in s.infos
  }

  lemma {:induction false} DeleteKeeps(env: Env, s: State, loose: set<Id>, limbo: set<Id>, id: Id)
    requires Inv(env, s, loose, limbo) && id in loose && id !in limbo
    ensures RandomReady(s, id) && Inv(env, Delete(env, s, id), loose - {id}, limbo)
    ensures Delete(env, s, id).infos.Keys == s.infos.Keys - {id} && Delete(env, s, id).triedTable == s.triedTable
    ensures Delete(env, s, id).newTable == s.newTable && Delete(env, s, id).nIdCount == s.nIdCount
    ensures forall j :: j in s.infos && j != id ==>
      Delete(env, s, id).infos[j] == s.infos[j].(randomPos := Delete(env, s, id).infos[j].randomPos)
  {
    hide Inv, SwapRandom;
    LooseKnown(env, s, loose, limbo, id);
    SwapLast(s, id);
    SwapRandomKeeps(env, s, loose, limbo, s.infos[id].randomPos, |s.random| - 1);
    RemoveKeeps(env, SwapRandom(s, s.infos[id].randomPos, |s.random| - 1), loose, limbo, id);
  }

  lemma {:induction false} SwapLast(s: State, id: Id)
    requires RandomReady(s, id)
    ensures var s1 := SwapRandom(s, s.infos[id].randomPos, |s.random| - 1);
            |s1.random| == |s.random| && s1.random[|s1.random| - 1] == id
  {
  }

  lemma {:induction false} LooseKnown(env: Env, s: State, loose: set<Id>, limbo: set<Id>, id: Id)
    requires Inv(env, s, loose, limbo) && id in loose + limbo
    ensures RandomReady(s, id)
  {
  }
}
