/** Headers synchronisation in two downloads: PRESYNC commits to the peer's chain, REDOWNLOAD releases
    headers from a lookahead buffer once enough commitments above them have been checked. */
module HeadersSync {

  const HEADER_COMMITMENT_PERIOD: nat := 59
  const REDOWNLOAD_BUFFER_SIZE: nat := 741
  const NULL_INDEX: nat := 0xffff_ffff

  /** Work is a 256-bit number; additions wrap. */
  const WORK_MODULUS: nat := 0x1_0000000000000000_0000000000000000_0000000000000000_0000000000000000

  datatype Header = Header(
    version: int, prev: nat, merkleRoot: nat, time: nat, bits: nat, nonce: nat, stateRoot: nat, utxoRoot: nat,
    stakeHash: nat, stakeIndex: nat, signature: seq<nat>, shift: nat, adder: nat, gapSize: nat)
  {
    predicate IsProofOfStake() { !(stakeHash == 0 && stakeIndex == NULL_INDEX) }

    /** The prime-gap fields have their default values. */
    predicate NoGapFields() { shift == 0 && adder == 0 && gapSize == 0 }
  }

  /** A buffered header: neither the previous hash nor the prime-gap fields are kept. */
  datatype Compressed = Compressed(
    version: int, merkleRoot: nat, time: nat, bits: nat, nonce: nat, stateRoot: nat, utxoRoot: nat,
    stakeHash: nat, stakeIndex: nat, signature: seq<nat>)

  function Compress(h: Header): Compressed {
    Compressed(h.version, h.merkleRoot, h.time, h.bits, h.nonce, h.stateRoot, h.utxoRoot, h.stakeHash, h.stakeIndex,
      h.signature)
  }

  function GetFullHeader(c: Compressed, prev: nat): Header {
    Header(c.version, prev, c.merkleRoot, c.time, c.bits, c.nonce, c.stateRoot, c.utxoRoot, c.stakeHash, c.stakeIndex,
      c.signature, 0, 0, 0)
  }

  /** The block the peer's chain builds on. */
  datatype Start = Start(hash: nat, height: nat, bits: nat, work: nat, header: Header)

  /** What a sync is given: the hash of a header, the salted bit of a hash, the difficulty rule, the
      work of a header, the starting block, the work wanted, and the secret commitment offset. */
  datatype World = World(
    hash: Header -> nat, bit: nat -> bool, permitted: (nat, nat, nat) -> bool, proof: Header -> nat,
    start: Start, minWork: nat, offset: nat, maxCommitments: nat)

  // ---------------------------------------------------------------- what a chain of headers means

  /** Height of the header with index `k` after the start. */
  function Height(w: World, k: nat): nat { w.start.height + 1 + k }

  predicate IsCommit(w: World, k: nat) { Height(w, k) % HEADER_COMMITMENT_PERIOD == w.offset }

  function Bit(w: World, h: Header): bool { w.bit(w.hash(h)) }

  function AddWork(a: nat, b: nat): nat { (a + b) % WORK_MODULUS }

  function Work(w: World, hs: seq<Header>): nat {
    if hs == [] then w.start.work else AddWork(Work(w, hs[..|hs| - 1]), w.proof(hs[|hs| - 1]))
  }

  function LastHash(w: World, hs: seq<Header>): nat { if hs == [] then w.start.hash else w.hash(hs[|hs| - 1]) }

  function LastHeader(w: World, hs: seq<Header>): Header { if hs == [] then w.start.header else hs[|hs| - 1] }

  function LastBits(w: World, hs: seq<Header>): nat { if hs == [] then w.start.bits else hs[|hs| - 1].bits }

  /** Every header names the hash of the one before it, the first that of the start. */
  ghost predicate Chained(w: World, hs: seq<Header>) {
    forall i :: 0 <= i < |hs| ==> hs[i].prev == LastHash(w, hs[..i])
  }

  /** Every header's difficulty is a permitted step from that of the header before it. */
  ghost predicate DifficultyOk(w: World, hs: seq<Header>) {
    forall i :: 0 <= i < |hs| ==> w.permitted(Height(w, i), LastBits(w, hs[..i]), hs[i].bits)
  }

  /** The same in the first download, where the first header follows the start as it was given. */
  ghost predicate PresyncDifficulty(w: World, hs: seq<Header>) {
    forall i :: 0 <= i < |hs| ==> w.permitted(Height(w, i), LastHeader(w, hs[..i]).bits, hs[i].bits)
  }

  /** The commitment bits of the headers from index `k` on. */
  function CommitBits(w: World, hs: seq<Header>, k: nat): seq<bool>
    decreases |hs| - k
  {
    if k >= |hs| then [] else (if IsCommit(w, k) then [Bit(w, hs[k])] else []) + CommitBits(w, hs, k + 1)
  }

  /** The headers handed out when `hs` is released from the buffer. */
  function Rebuilt(w: World, hs: seq<Header>): (r: seq<Header>)
    ensures |r| == |hs|
  {
    if hs == [] then []
    else
      var r := Rebuilt(w, hs[..|hs| - 1]);
      r + [GetFullHeader(Compress(hs[|hs| - 1]), LastHash(w, r))]
  }

  function Buffered(hs: seq<Header>): (r: seq<Compressed>)
    ensures |r| == |hs| && forall i :: 0 <= i < |hs| ==> r[i] == Compress(hs[i])
  {
    seq(|hs|, i requires 0 <= i < |hs| => Compress(hs[i]))
  }

  // ---------------------------------------------------------------- the history of a sync

  /** The headers accepted in the first and in the second download, and those released. `checked`
      headers of the second download were accepted before its work reached the target. */
  datatype History = History(presync: seq<Header>, again: seq<Header>, released: seq<Header>, checked: nat,
                             reached: bool)

  ghost predicate HistoryOk(w: World, h: History) {
    && |h.released| <= |h.again| && h.released == Rebuilt(w, h.again[..|h.released|])
    && Chained(w, h.again) && DifficultyOk(w, h.again) && PresyncDifficulty(w, h.presync)
    && (h.again != [] ==> Work(w, h.presync) >= w.minWork)
    && Target(w, h) && Committed(w, h)
    && (h.reached || h.released == [] || |h.released| + REDOWNLOAD_BUFFER_SIZE <= |h.again|)
  }

  ghost predicate Target(w: World, h: History) {
    if h.reached then h.checked < |h.again| && Work(w, h.again[..h.checked + 1]) >= w.minWork
    else h.checked == |h.again|
  }

  /** Every header at a commitment height accepted before the target was reached shows the bit the
      first download showed at the same height. */
  ghost predicate Committed(w: World, h: History) {
    h.checked <= |h.again| &&
    forall i :: 0 <= i < h.checked && IsCommit(w, i) ==> i < |h.presync| && Bit(w, h.again[i]) == Bit(w, h.presync[i])
  }

  // ---------------------------------------------------------------- what the history promises

  /** Whatever the peer sends, released headers form a hash chain from the starting block. */
  lemma {:induction false} ReleasedChain(w: World, h: History)
    requires HistoryOk(w, h)
    ensures Chained(w, h.released)
  {
    RebuiltChain(w, h.again[..|h.released|]);
  }

  lemma {:induction false} RebuiltChain(w: World, hs: seq<Header>)
    ensures Chained(w, Rebuilt(w, hs))
  {
    if hs != [] {
      var n := |hs| - 1;
      RebuiltChain(w, hs[..n]);
      var q, r := Rebuilt(w, hs[..n]), Rebuilt(w, hs);
      forall i | 0 <= i < |r| ensures r[i].prev == LastHash(w, r[..i]) { assert r[..i] == q[..i]; }
    }
  }

  /** The released headers are the received ones exactly if none of those has prime-gap fields:
      compression drops them. */
  lemma {:induction false} ReleasedExact(w: World, h: History)
    requires HistoryOk(w, h)
    ensures h.released == h.again[..|h.released|] <==> AllPlain(h.again[..|h.released|])
  {
    hide Chained, Rebuilt;
    ChainedPrefix(w, h.again, |h.released|);
    RebuiltExact(w, h.again[..|h.released|]);
  }

  ghost predicate AllPlain(hs: seq<Header>) { forall i :: 0 <= i < |hs| ==> hs[i].NoGapFields() }

  lemma {:induction false} PlainSplit(hs: seq<Header>)
    requires hs != []
    ensures AllPlain(hs) <==> AllPlain(hs[..|hs| - 1]) && hs[|hs| - 1].NoGapFields()
  {
    if AllPlain(hs[..|hs| - 1]) && hs[|hs| - 1].NoGapFields() {
      forall i | 0 <= i < |hs| ensures hs[i].NoGapFields() { assert i < |hs| - 1 ==> hs[..|hs| - 1][i] == hs[i]; }
    }
  }

  lemma {:induction false} RebuiltExact(w: World, hs: seq<Header>)
    requires Chained(w, hs)
    ensures Rebuilt(w, hs) == hs <==> AllPlain(hs)
  {
    hide LastHash, Chained, Rebuilt;
    if hs != [] {
      ChainedPrefix(w, hs, |hs| - 1);
      RebuiltExact(w, hs[..|hs| - 1]);
      LastRebuilt(w, hs);
      PlainSplit(hs);
    }
  }

  lemma {:induction false} ChainedPrefix(w: World, hs: seq<Header>, n: nat)
    requires Chained(w, hs) && n <= |hs|
    ensures Chained(w, hs[..n])
    ensures n < |hs| ==> hs[n].prev == LastHash(w, hs[..n])
  {
    hide LastHash;
    forall i | 0 <= i < n ensures hs[..n][i].prev == LastHash(w, hs[..n][..i]) { assert hs[..n][..i] == hs[..i]; }
  }

  /** The last header comes back as it was if those before it did and it has no prime-gap fields. */
  lemma {:induction false} LastRebuilt(w: World, hs: seq<Header>)
    requires hs != [] && hs[|hs| - 1].prev == LastHash(w, hs[..|hs| - 1])
    ensures var init := hs[..|hs| - 1];
            Rebuilt(w, hs) == hs <==> Rebuilt(w, init) == init && hs[|hs| - 1].NoGapFields()
  {
    hide LastHash;
    var n := |hs| - 1;
    var q, r := Rebuilt(w, hs[..n]), Rebuilt(w, hs);
    assert r == q + [r[n]] && hs == hs[..n] + [hs[n]];
    if r == hs { assert q == r[..n] == hs[..n]; }
  }

  /** A released header has at least 741 accepted headers on top of it, or the second download
      reached the target work; in the former case at least 12 commitments on top of it matched. */
  lemma {:induction false} ReleasedDeep(w: World, h: History, i: nat)
    requires HistoryOk(w, h) && i < |h.released| && w.offset < 59
    ensures if h.reached then h.checked < |h.again| && Work(w, h.again[..h.checked + 1]) >= w.minWork
            else i + 741 < |h.again| && Commits(w, i + 1, |h.again|) >= 12
    ensures forall k :: i < k < h.checked && Height(w, k) % 59 == w.offset ==>
      k < |h.presync| && Bit(w, h.again[k]) == Bit(w, h.presync[k])
  {
    hide Work, Chained, DifficultyOk, Rebuilt, Commits, Bit;
    forall k | i < k < h.checked && Height(w, k) % 59 == w.offset
      ensures k < |h.presync| && Bit(w, h.again[k]) == Bit(w, h.presync[k])
    {
      assert IsCommit(w, k);
    }
    if !h.reached { CommitsDense(w, i + 1, |h.again|, 12); }
  }

  /** How many of the headers `from`, ..., `to - 1` are at commitment heights. */
  function Commits(w: World, from: nat, to: nat): nat
    decreases to - from
  {
    if from >= to then 0 else (if IsCommit(w, from) then 1 else 0) + Commits(w, from + 1, to)
  }

  lemma {:induction false} CommitsSplit(w: World, a: nat, b: nat, c: nat)
    requires a <= b <= c
    ensures Commits(w, a, c) == Commits(w, a, b) + Commits(w, b, c)
    decreases b - a
  {
    if a < b { CommitsSplit(w, a + 1, b, c); }
  }

  lemma {:induction false} CommitsDense(w: World, a: nat, b: nat, n: nat)
    requires a + HEADER_COMMITMENT_PERIOD * n <= b && w.offset < HEADER_COMMITMENT_PERIOD
    ensures Commits(w, a, b) >= n
    decreases n
  {
    if n > 0 {
      var m := a + HEADER_COMMITMENT_PERIOD;
      CommitsSplit(w, a, m, b);
      CommitsDense(w, m, b, n - 1);
      var k := a + (w.offset - Height(w, a)) % HEADER_COMMITMENT_PERIOD;
      assert IsCommit(w, k) by { NextCommit(Height(w, a), w.offset); }
      CommitsSplit(w, a, k, m);
    }
  }

  lemma {:induction false} NextCommit(height: nat, offset: nat)
    requires offset < 59
    ensures (height + (offset - height) % 59) % 59 == offset
  {
  }

  // ---------------------------------------------------------------- how it grows

  lemma {:induction false} CommitBitsAppend(w: World, hs: seq<Header>, h: Header, k: nat)
    requires k <= |hs|
    ensures CommitBits(w, hs + [h], k) == CommitBits(w, hs, k) + (if IsCommit(w, |hs|) then [Bit(w, h)] else [])
    decreases |hs| - k
  {
    hide IsCommit, Bit;
    if k < |hs| {
      CommitBitsAppend(w, hs, h, k + 1);
      assert (hs + [h])[k] == hs[k];
    } else {
      assert (hs + [h])[k] == h;
      assert CommitBits(w, hs + [h], |hs| + 1) == [];
    }
  }

  lemma {:induction false} WorkAppend(w: World, hs: seq<Header>, h: Header)
    ensures Work(w, hs + [h]) == AddWork(Work(w, hs), w.proof(h))
  {
    assert (hs + [h])[..|hs|] == hs;
  }

  /** Accepting a header in the second download. */
  function Accepted(w: World, h: History, header: Header): History {
    var again := h.again + [header];
    if h.reached || Work(w, again) >= w.minWork then h.(again := again, reached := true)
    else h.(again := again, checked := |again|)
  }

  lemma {:induction false} PresyncGrows(w: World, h: History, header: Header)
    requires HistoryOk(w, h) && h.again == [] && h.checked == 0
    requires w.permitted(Height(w, |h.presync|), LastHeader(w, h.presync).bits, header.bits)
    ensures HistoryOk(w, h.(presync := h.presync + [header]))
  {
    hide Work, Chained, DifficultyOk, Rebuilt, LastHash, LastHeader;
    var r := h.presync + [header];
    forall i | 0 <= i < |r| ensures w.permitted(Height(w, i), LastHeader(w, r[..i]).bits, r[i].bits) {
      assert r[..i] == if i < |h.presync| then h.presync[..i] else h.presync;
    }
  }

  /** What the second download tests, in terms of the stored bits. */
  lemma {:induction false} AgainDecided(w: World, h: History, header: Header)
    ensures var k := |h.again|; var bits := CommitBits(w, h.presync, k);
            AgainOk(w, h, header) <==>
              && header.prev == LastHash(w, h.again) && w.permitted(Height(w, k), LastBits(w, h.again), header.bits)
              && (Accepted(w, h, header).reached || !IsCommit(w, k) || (bits != [] && Bit(w, header) == bits[0]))
  {
    hide CommitBits, Accepted, IsCommit, LastHash, LastBits, Bit;
    TakeCommitment(w, h.presync, |h.again|);
  }

  lemma {:induction false} Unaccepted(w: World, h: History)
    ensures AcceptedAll(w, h, []) == h
  {
  }

  lemma {:induction false} AcceptedNext(w: World, h: History, headers: seq<Header>, i: nat)
    requires i < |headers|
    ensures AcceptedAll(w, h, headers[..i + 1]) == Accepted(w, AcceptedAll(w, h, headers[..i]), headers[i])
  {
    hide Accepted;
    assert headers[..i + 1][..i] == headers[..i];
  }

  lemma {:induction false} AcceptOk(w: World, h: History, header: Header)
    requires HistoryOk(w, h) && Work(w, h.presync) >= w.minWork && AgainOk(w, h, header)
    ensures HistoryOk(w, Accepted(w, h, header))
  {
    hide Work, Rebuilt, IsCommit, Bit, Chained, DifficultyOk;
    var h', n := Accepted(w, h, header), |h.again|;
    ChainedAppend(w, h.again, header);
    DifficultyAppend(w, h.again, header);
    assert h'.again[..|h.released|] == h.again[..|h.released|];
    assert h'.again[..n + 1] == h'.again;
    assert h.reached ==> h'.again[..h.checked + 1] == h.again[..h.checked + 1];
  }

  lemma {:induction false} ChainedAppend(w: World, hs: seq<Header>, h: Header)
    requires Chained(w, hs) && h.prev == LastHash(w, hs)
    ensures Chained(w, hs + [h])
  {
    hide LastHash;
    var r := hs + [h];
    forall i | 0 <= i < |r| ensures r[i].prev == LastHash(w, r[..i]) {
      assert r[..i] == if i < |hs| then hs[..i] else hs;
    }
  }

  lemma {:induction false} DifficultyAppend(w: World, hs: seq<Header>, h: Header)
    requires DifficultyOk(w, hs) && w.permitted(Height(w, |hs|), LastBits(w, hs), h.bits)
    ensures DifficultyOk(w, hs + [h])
  {
    hide LastBits;
    var r := hs + [h];
    forall i | 0 <= i < |r| ensures w.permitted(Height(w, i), LastBits(w, r[..i]), r[i].bits) {
      assert r[..i] == if i < |hs| then hs[..i] else hs;
    }
  }

  lemma {:induction false} ReleaseOk(w: World, h: History, n: nat)
    requires HistoryOk(w, h) && n <= |h.again| && (h.reached || n == 0 || n + REDOWNLOAD_BUFFER_SIZE <= |h.again|)
    ensures HistoryOk(w, h.(released := Rebuilt(w, h.again[..n])))
  {
    hide Work, Rebuilt, IsCommit, Bit, LastHash, LastBits;
  }

  // ---------------------------------------------------------------- which headers are accepted

  /** A header may follow `presync` in the first download. */
  ghost predicate FirstOk(w: World, presync: seq<Header>, header: Header) {
    && w.permitted(Height(w, |presync|), LastHeader(w, presync).bits, header.bits)
    && |CommitBits(w, presync + [header], 0)| <= w.maxCommitments
  }

  /** A message is accepted in the first download. Only its first header must connect. */
  ghost predicate MessageOk(w: World, presync: seq<Header>, headers: seq<Header>) {
    && (headers != [] ==> Connects(w, presync, headers[0]))
    && forall i :: 0 <= i < |headers| ==> FirstOk(w, presync + headers[..i], headers[i])
  }

  /** The first header that a message fails at. */
  ghost predicate FailsAt(w: World, presync: seq<Header>, headers: seq<Header>, n: nat) {
    && n < |headers| && !FirstOk(w, presync + headers[..n], headers[n])
    && forall i :: 0 <= i < n ==> FirstOk(w, presync + headers[..i], headers[i])
  }

  ghost predicate Connects(w: World, presync: seq<Header>, header: Header) {
    header.prev == w.hash(LastHeader(w, presync))
      && !(header.IsProofOfStake() && header.time <= LastHeader(w, presync).time)
  }

  /** A header may follow in the second download: it connects, its difficulty is permitted, and below
      the target it repeats the bit committed to. */
  ghost predicate AgainOk(w: World, h: History, header: Header) {
    && header.prev == LastHash(w, h.again) && w.permitted(Height(w, |h.again|), LastBits(w, h.again), header.bits)
    && (!Accepted(w, h, header).reached && IsCommit(w, |h.again|) ==>
          |h.again| < |h.presync| && Bit(w, header) == Bit(w, h.presync[|h.again|]))
  }

  ghost function AcceptedAll(w: World, h: History, headers: seq<Header>): History {
    if headers == [] then h else Accepted(w, AcceptedAll(w, h, headers[..|headers| - 1]), headers[|headers| - 1])
  }

  ghost predicate AgainMessageOk(w: World, h: History, headers: seq<Header>) {
    forall i :: 0 <= i < |headers| ==> AgainOk(w, AcceptedAll(w, h, headers[..i]), headers[i])
  }

  ghost predicate AgainFailsAt(w: World, h: History, headers: seq<Header>, n: nat) {
    && n < |headers| && !AgainOk(w, AcceptedAll(w, h, headers[..n]), headers[n])
    && forall i :: 0 <= i < n ==> AgainOk(w, AcceptedAll(w, h, headers[..i]), headers[i])
  }

  lemma {:induction false} MessageConnects(w: World, presync: seq<Header>, headers: seq<Header>)
    requires headers != [] && MessageOk(w, presync, headers)
    ensures var last := LastHeader(w, presync);
            headers[0].prev == w.hash(last) && (headers[0].IsProofOfStake() ==> headers[0].time > last.time)
  {
    hide FirstOk;
  }

  // ---------------------------------------------------------------- the object

  datatype Phase = Presync | Redownload | Final

  datatype ProcessingResult = ProcessingResult(headers: seq<Header>, success: bool, requestMore: bool)

  function Max(a: int, b: int): int { if a > b then a else b }

  /** After a message of the second download, all but the newest 741 headers are out; all of them are
      once the target is reached. */
  ghost predicate Released(h: History, accepted: History, h': History) {
    && h' == accepted.(released := h'.released) && h.released <= h'.released
    && |h'.released| == if h'.reached then |h'.again| else Max(|h.released|, |h'.again| - REDOWNLOAD_BUFFER_SIZE)
  }

  class HeadersSyncState {
    const w: World
    var phase: Phase
    var currentWork: nat
    var lastHeader: Header
    var currentHeight: nat
    var commitments: seq<bool>
    var buffer: seq<Compressed>
    var lastHeight: nat
    var lastHash: nat
    var firstPrevHash: nat
    var chainWork: nat
    var processAll: bool
    ghost var hist: History

    ghost predicate PresyncOk()
      reads this
    {
      && hist.again == [] && hist.released == [] && hist.checked == 0 && !hist.reached && !processAll
      && commitments == CommitBits(w, hist.presync, 0) && |commitments| <= w.maxCommitments
      && currentHeight == w.start.height + |hist.presync| && currentWork == Work(w, hist.presync)
      && lastHeader == LastHeader(w, hist.presync)
    }

    ghost predicate BufferOk()
      reads this
    {
      && |hist.released| <= |hist.again| && buffer == Buffered(hist.again[|hist.released|..])
      && lastHeight == w.start.height + |hist.again| && lastHash == LastHash(w, hist.again)
      && firstPrevHash == LastHash(w, hist.released) && chainWork == Work(w, hist.again)
      && processAll == hist.reached && (!hist.reached ==> commitments == CommitBits(w, hist.presync, |hist.again|))
      && |commitments| <= w.maxCommitments && Work(w, hist.presync) >= w.minWork
    }

    /** Between messages the buffer is empty only at the start: the last header's difficulty is at hand. */
    ghost predicate RedownloadOk()
      reads this
    {
      BufferOk() && (buffer == [] ==> hist.again == [])
    }

    ghost predicate Valid()
      reads this
    {
      && HistoryOk(w, hist) && |commitments| <= w.maxCommitments
      && (phase.Presync? ==> PresyncOk()) && (phase.Redownload? ==> RedownloadOk())
    }

    constructor (world: World)
      ensures Valid() && w == world && phase.Presync? && hist == History([], [], [], 0, false)
    {
      w := world;
      phase, currentWork, lastHeader, currentHeight := Presync, world.start.work, world.start.header,
        world.start.height;
      commitments, buffer, lastHeight, lastHash, firstPrevHash, chainWork, processAll := [], [], 0, 0, 0, 0, false;
      hist := History([], [], [], 0, false);
    }

    /** One header of the first download. */
    method ValidateAndProcessSingleHeader(current: Header) returns (ok: bool)
      requires phase.Presync? && HistoryOk(w, hist) && PresyncOk()
      modifies this
      ensures phase.Presync? && HistoryOk(w, hist) && hist == old(hist).(presync := hist.presync)
      ensures ok <==> FirstOk(w, old(hist.presync), current)
      ensures ok ==> PresyncOk() && hist.presync == old(hist.presync) + [current]
      ensures !ok ==> hist == old(hist)
    {
      hide HistoryOk, CommitBits, Work;
      ok := false;
      var nextHeight := currentHeight + 1;
      if !w.permitted(nextHeight, lastHeader.bits, current.bits) { return; }
      CommitBitsAppend(w, hist.presync, current, 0);
      WorkAppend(w, hist.presync, current);
      PresyncGrows(w, hist, current);
      if nextHeight % HEADER_COMMITMENT_PERIOD == w.offset {
        commitments := commitments + [w.bit(w.hash(current))];
        if |commitments| > w.maxCommitments { return; }
      }
      currentWork := AddWork(currentWork, w.proof(current));
      lastHeader := current;
      currentHeight := nextHeight;
      hist := hist.(presync := hist.presync + [current]);
      ok := true;
    }

    /** A message of the first download. */
    method ValidateAndStoreHeadersCommitments(headers: seq<Header>) returns (ok: bool)
      requires phase.Presync? && HistoryOk(w, hist) && PresyncOk()
      modifies this
      ensures !phase.Final? && HistoryOk(w, hist) && hist == old(hist).(presync := hist.presync)
      ensures ok <==> MessageOk(w, old(hist.presync), headers)
      ensures ok ==>
        hist.presync == old(hist.presync) + headers && if phase.Presync? then PresyncOk() else RedownloadOk()
      ensures !ok ==>
        phase.Presync? && old(hist.presync) <= hist.presync <= old(hist.presync) + headers && headers != []
      ensures !ok && !Connects(w, old(hist.presync), headers[0]) ==> hist == old(hist)
      ensures !ok && Connects(w, old(hist.presync), headers[0]) ==>
        exists n: nat :: FailsAt(w, old(hist.presync), headers, n) && hist.presync == old(hist.presync) + headers[..n]
      ensures ok && headers != [] ==> (phase.Redownload? <==> Work(w, hist.presync) >= w.minWork)
    {
      hide HistoryOk, CommitBits, Buffered, Work, FirstOk;
      if |headers| == 0 { return true; }
      if headers[0].prev != w.hash(lastHeader) || (headers[0].IsProofOfStake() && headers[0].time <= lastHeader.time) {
        return false;
      }
      for i := 0 to |headers|
        invariant phase.Presync? && HistoryOk(w, hist) && PresyncOk() && hist == old(hist).(presync := hist.presync)
        invariant hist.presync == old(hist.presync) + headers[..i]
        invariant forall j :: 0 <= j < i ==> FirstOk(w, old(hist.presync) + headers[..j], headers[j])
      {
        assert headers[..i + 1] == headers[..i] + [headers[i]];
        var fine := ValidateAndProcessSingleHeader(headers[i]);
        if !fine {
          assert FailsAt(w, old(hist.presync), headers, i);
          return false;
        }
      }
      assert headers[..|headers|] == headers;
      NothingYet(w);
      if currentWork >= w.minWork {
        buffer := [];
        lastHeight := w.start.height;
        firstPrevHash, lastHash := w.start.hash, w.start.hash;
        chainWork := w.start.work;
        phase := Redownload;
      }
      ok := true;
    }

    /** One header of the second download. */
    method ValidateAndStoreRedownloadedHeader(header: Header) returns (ok: bool)
      requires phase.Redownload? && HistoryOk(w, hist) && RedownloadOk()
      modifies this
      ensures phase.Redownload? && HistoryOk(w, hist)
      ensures ok <==> AgainOk(w, old(hist), header)
      ensures ok ==> RedownloadOk() && buffer != [] && hist == Accepted(w, old(hist), header)
      ensures !ok ==> hist == old(hist)
    {
      hide HistoryOk, Work, CommitBits, Buffered, Accepted, AgainOk;
      AgainDecided(w, hist, header);
      ok := false;
      ghost var k := |hist.again|;
      var nextHeight := lastHeight + 1;
      if header.prev != lastHash { return; }
      LastBuffered(w, hist, buffer);
      var previousBits := if buffer != [] then buffer[|buffer| - 1].bits else w.start.bits;
      if !w.permitted(nextHeight, previousBits, header.bits) { return; }
      WorkAppend(w, hist.again, header);
      AcceptedParts(w, hist, header);
      chainWork := AddWork(chainWork, w.proof(header));
      if chainWork >= w.minWork { processAll := true; }
      TakeCommitment(w, hist.presync, k);
      if !processAll && nextHeight % HEADER_COMMITMENT_PERIOD == w.offset {
        if commitments == [] { return; }
        var commitment, expected := w.bit(w.hash(header)), commitments[0];
        commitments := commitments[1..];
        if commitment != expected { return; }
      }
      AcceptOk(w, hist, header);
      BufferedAppend(hist, header);
      buffer := buffer + [Compress(header)];
      lastHeight := nextHeight;
      lastHash := w.hash(header);
      hist := Accepted(w, hist, header);
      ok := true;
    }

    /** Release from the front of the buffer what may be released. */
    method PopHeadersReadyForAcceptance() returns (ret: seq<Header>)
      requires phase.Redownload? && HistoryOk(w, hist) && BufferOk()
      modifies this
      ensures phase.Redownload? && HistoryOk(w, hist) && BufferOk()
      ensures hist == old(hist).(released := hist.released) && hist.released == old(hist.released) + ret
      ensures |hist.released| ==
        if hist.reached then |hist.again| else Max(|old(hist.released)|, |hist.again| - REDOWNLOAD_BUFFER_SIZE)
      ensures buffer == [] && hist.again != [] ==> processAll || old(buffer) == []
    {
      hide HistoryOk, Work, CommitBits, Buffered, Rebuilt, LastHash, GetFullHeader;
      ret := [];
      while |buffer| > REDOWNLOAD_BUFFER_SIZE || (|buffer| > 0 && processAll)
        invariant phase.Redownload? && HistoryOk(w, hist) && BufferOk()
        invariant hist == old(hist).(released := hist.released) && hist.released == old(hist.released) + ret
        invariant buffer == [] ==> processAll || old(buffer) == []
        invariant ret != [] ==> |buffer| >= REDOWNLOAD_BUFFER_SIZE || processAll
        decreases |buffer|
      {
        PopOne(w, hist, buffer);
        var full := GetFullHeader(buffer[0], firstPrevHash);
        ret := ret + [full];
        buffer := buffer[1..];
        firstPrevHash := w.hash(full);
        hist := hist.(released := hist.released + [full]);
      }
    }

    /** `Finalize`: drop everything; the object stays unusable. */
    method Finalize()
      modifies this
      ensures phase.Final? && hist == old(hist) && commitments == [] && buffer == []
    {
      commitments, buffer := [], [];
      lastHeader := Header(0, 0, 0, 0, 0, 0, 0, 0, 0, NULL_INDEX, [], 0, 0, 0);
      lastHash, firstPrevHash := 0, 0;
      processAll, currentHeight := false, 0;
      phase := Final;
    }

    /** A message of headers, in any phase. Whatever the peer sends, the history stays as `HistoryOk`
        promises, and what is returned is what was released. */
    method ProcessNextHeaders(received: seq<Header>, fullMessage: bool) returns (ret: ProcessingResult)
      requires Valid()
      modifies this
      ensures Valid()
      ensures hist.released == old(hist.released) + ret.headers
      ensures old(hist.presync) <= hist.presync <= old(hist.presync) + received
      ensures old(hist.again) <= hist.again <= old(hist.again) + received
      ensures received == [] || old(phase).Final? ==> phase == old(phase) && hist == old(hist) && !ret.success
      ensures received != [] && !old(phase).Final? ==> (phase.Final? <==> !(ret.success && ret.requestMore))
      ensures old(phase).Presync? ==> hist == old(hist).(presync := hist.presync)
      ensures !old(phase).Presync? ==> hist.presync == old(hist.presync)
      ensures received != [] && old(phase).Presync? ==>
        && (ret.success <==> MessageOk(w, old(hist.presync), received))
        && (ret.success ==>
              var last := LastHeader(w, old(hist.presync));
              received[0].prev == w.hash(last) && (received[0].IsProofOfStake() ==> received[0].time > last.time))
        && (ret.success ==> hist.presync == old(hist.presync) + received)
        && (!ret.success && !Connects(w, old(hist.presync), received[0]) ==> hist == old(hist))
        && (!ret.success && Connects(w, old(hist.presync), received[0]) ==>
              exists n: nat :: FailsAt(w, old(hist.presync), received, n)
                && hist.presync == old(hist.presync) + received[..n])
        && (ret.requestMore <==> ret.success && (fullMessage || Work(w, hist.presync) >= w.minWork))
        && (ret.requestMore ==> (phase.Redownload? <==> Work(w, hist.presync) >= w.minWork))
      ensures received != [] && old(phase).Redownload? ==>
        && (ret.success <==> AgainMessageOk(w, old(hist), received))
        && (ret.success ==> Released(old(hist), AcceptedAll(w, old(hist), received), hist))
        && (!ret.success ==>
              exists n: nat ::
                AgainFailsAt(w, old(hist), received, n) && hist == AcceptedAll(w, old(hist), received[..n]))
        && (ret.requestMore <==> ret.success && fullMessage && !hist.reached)
        && (ret.requestMore ==> phase.Redownload?)
    {
      hide HistoryOk, Work, CommitBits, Buffered, MessageOk, AgainMessageOk, FailsAt, AgainFailsAt, Connects,
           AcceptedAll;
      if received != [] && MessageOk(w, hist.presync, received) { MessageConnects(w, hist.presync, received); }
      ret := ProcessingResult([], false, false);
      if received == [] || phase.Final? { return; }
      if phase.Presync? {
        var ok := ValidateAndStoreHeadersCommitments(received);
        ret := ret.(success := ok, requestMore := ok && (fullMessage || phase.Redownload?));
      } else {
        var ok := StoreRedownloaded(received);
        ret := ret.(success := ok);
        if ok {
          var out := PopHeadersReadyForAcceptance();
          ret := ret.(headers := out, requestMore := !(buffer == [] && processAll) && fullMessage);
        }
      }
      if !(ret.success && ret.requestMore) { Finalize(); }
    }

    /** The loop over a message of the second download. */
    method StoreRedownloaded(received: seq<Header>) returns (ok: bool)
      requires phase.Redownload? && HistoryOk(w, hist) && RedownloadOk() && received != []
      modifies this
      ensures phase.Redownload? && HistoryOk(w, hist)
      ensures hist.presync == old(hist.presync) && hist.released == old(hist.released)
      ensures old(hist.again) <= hist.again <= old(hist.again) + received
      ensures ok <==> AgainMessageOk(w, old(hist), received)
      ensures ok ==> BufferOk() && buffer != [] && hist == AcceptedAll(w, old(hist), received)
      ensures !ok ==>
        exists n: nat :: AgainFailsAt(w, old(hist), received, n) && hist == AcceptedAll(w, old(hist), received[..n])
    {
      hide HistoryOk, Work, CommitBits, Buffered, Accepted, AcceptedAll, AgainOk, BufferOk;
      Unaccepted(w, hist);
      assert received[..0] == [];
      for i := 0 to |received|
        invariant phase.Redownload? && HistoryOk(w, hist) && RedownloadOk() && (i > 0 ==> buffer != [])
        invariant hist.presync == old(hist.presync) && hist.released == old(hist.released)
        invariant hist.again == old(hist.again) + received[..i] && hist == AcceptedAll(w, old(hist), received[..i])
        invariant forall j :: 0 <= j < i ==> AgainOk(w, AcceptedAll(w, old(hist), received[..j]), received[j])
      {
        assert received[..i + 1] == received[..i] + [received[i]];
        AcceptedNext(w, old(hist), received, i);
        AcceptedParts(w, hist, received[i]);
        var fine := ValidateAndStoreRedownloadedHeader(received[i]);
        if !fine {
          assert AgainFailsAt(w, old(hist), received, i);
          return false;
        }
      }
      assert received[..|received|] == received;
      ok := true;
    }
  }

  /** A whole sync, both downloads of one header, that releases the header without its prime-gap fields. */
  method GapFieldsLost() returns (sent: Header, out: seq<Header>)
    ensures sent.gapSize == 1 && out == [sent.(gapSize := 0)]
  {
    hide HistoryOk, FailsAt, AgainFailsAt, MessageOk, AgainMessageOk, Work, AcceptedAll, Connects, CommitBits;
    var none := Header(0, 0, 0, 0, 0, 0, 0, 0, 0, NULL_INDEX, [], 0, 0, 0);
    sent := none.(gapSize := 1);
    var w := World(_ => 0, _ => false, (_, _, _) => true, _ => 1, Start(0, 0, 0, 0, none), 1, 0, 1);
    var sync := new HeadersSyncState(w);
    ghost var start := sync.hist;
    OneHeader(w, start, sent);
    var r := sync.ProcessNextHeaders([sent], true);
    assert [] + [sent] == [sent];
    OneHeader(w, sync.hist, sent);
    r := sync.ProcessNextHeaders([sent], true);
    OneReleased(w, AcceptedAll(w, start.(presync := [sent]), [sent]), sync.hist, sent);
    out := r.headers;
  }

  /** A header that reaches the target on its own is accepted in both downloads. */
  lemma {:induction false} OneHeader(w: World, h: History, sent: Header)
    requires h == History(h.presync, [], [], 0, false)
    requires sent.prev == w.start.hash == w.hash(w.start.header) && !sent.IsProofOfStake()
    requires w.permitted(Height(w, 0), w.start.bits, sent.bits)
    requires w.permitted(Height(w, 0), w.start.header.bits, sent.bits)
    requires w.maxCommitments > 0 && AddWork(w.start.work, w.proof(sent)) >= w.minWork
    ensures h.presync == [] ==> MessageOk(w, h.presync, [sent])
    ensures Work(w, [sent]) >= w.minWork
    ensures AgainMessageOk(w, h, [sent])
    ensures AcceptedAll(w, h, [sent]) == h.(again := [sent], reached := true)
  {
    var one := [sent];
    assert one[..0] == [] && h.again + one == one;
    assert Work(w, []) == w.start.work && AcceptedAll(w, h, []) == h;
    assert CommitBits(w, one, 1) == [];
  }

  lemma {:induction false} OneReleased(w: World, accepted: History, h: History, sent: Header)
    requires accepted.again == [sent] && accepted.reached && sent.prev == w.start.hash
    requires HistoryOk(w, h) && h == accepted.(released := h.released) && |h.released| == 1
    ensures h.released == [sent.(shift := 0, adder := 0, gapSize := 0)]
  {
    var one := [sent];
    assert one[..0] == [] && one[..1] == one;
    assert Rebuilt(w, []) == [];
  }

  /** Releasing one header from the front of the buffer. */
  lemma {:induction false} PopOne(w: World, h: History, buffer: seq<Compressed>)
    requires HistoryOk(w, h) && |h.released| <= |h.again| && buffer == Buffered(h.again[|h.released|..]) && buffer != []
    requires |buffer| > REDOWNLOAD_BUFFER_SIZE || h.reached
    ensures var full := GetFullHeader(buffer[0], LastHash(w, h.released));
            && HistoryOk(w, h.(released := h.released + [full]))
            && buffer[1..] == Buffered(h.again[|h.released| + 1..]) && LastHash(w, h.released + [full]) == w.hash(full)
  {
    hide Work, Chained, DifficultyOk, IsCommit, Bit, LastHash;
    var n := |h.released|;
    var full := GetFullHeader(buffer[0], LastHash(w, h.released));
    assert h.again[..n + 1][..n] == h.again[..n];
    assert Rebuilt(w, h.again[..n + 1]) == h.released + [full];
    ReleaseOk(w, h, n + 1);
    LastOf(w, h.released, full);
  }

  lemma {:induction false} LastOf(w: World, hs: seq<Header>, h: Header)
    ensures LastHash(w, hs + [h]) == w.hash(h)
  {
  }

  lemma {:induction false} NothingYet(w: World)
    ensures Work(w, []) == w.start.work && Buffered([]) == []
  {
  }

  lemma {:induction false} LastBuffered(w: World, h: History, buffer: seq<Compressed>)
    requires |h.released| <= |h.again| && buffer == Buffered(h.again[|h.released|..])
      && (buffer == [] ==> h.again == [])
    ensures LastBits(w, h.again) == if buffer != [] then buffer[|buffer| - 1].bits else w.start.bits
  {
  }

  lemma {:induction false} AcceptedParts(w: World, h: History, header: Header)
    ensures var h' := Accepted(w, h, header);
            && h'.again == h.again + [header] && h'.presync == h.presync && h'.released == h.released
            && (h'.reached <==> h.reached || Work(w, h.again + [header]) >= w.minWork)
  {
  }

  lemma {:induction false} BufferedAppend(h: History, header: Header)
    requires |h.released| <= |h.again|
    ensures Buffered((h.again + [header])[|h.released|..]) == Buffered(h.again[|h.released|..]) + [Compress(header)]
  {
  }

  /** The next stored bit is that of the first download's header at the same height, if it has one. */
  lemma {:induction false} TakeCommitment(w: World, presync: seq<Header>, k: nat)
    ensures var bits := CommitBits(w, presync, k);
            if !IsCommit(w, k) then bits == CommitBits(w, presync, k + 1)
            else
              && (bits != [] <==> k < |presync|)
              && (bits != [] ==> bits[0] == Bit(w, presync[k]) && bits[1..] == CommitBits(w, presync, k + 1))
  {
  }
}
