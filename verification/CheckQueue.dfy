/** The script check queue as a step system: a master and any number of workers, whose atomic steps
    are the critical sections of `Loop` and `Add`. */
module CheckQueue {
  import opened Options

  /** A verification: `outcome` is what calling it returns, an error or nothing. */
  datatype Check = Check(id: nat, outcome: Option<nat>)

  /** Where a thread is: `Working` holds a batch, `Ready` has executed it and wants the mutex, and
      `Inside` holds the mutex. */
  datatype Pc = Outside | Fresh | Waiting(signalled: bool) | Working | Ready | Inside

  /** A thread's locals: `batch` is `vChecks` (and `nNow` its length), `local` is `local_result`.
      `executed` records which checks of the batch were called. */
  datatype Thread = Thread(pc: Pc, batch: seq<Check>, doWork: bool, local: Option<nat>, executed: seq<Check>)

  /** What `Complete` returned, with the checks added and the checks called in that round. */
  datatype Verdict = Verdict(checks: multiset<Check>, ran: multiset<Check>, answer: Option<nat>)

  /** The fields guarded by the mutex, the threads (the master is thread 0), and the history of the
      current round: the checks added, those whose batches came back, and those called. */
  datatype State = State(
    queue: seq<Check>, nIdle: int, nTotal: int, result: Option<nat>, nTodo: int,
    threads: seq<Thread>,
    added: multiset<Check>, done: multiset<Check>, ran: multiset<Check>, last: Option<Verdict>)

  const MASTER: nat := 0

  datatype Step =
    | Add(checks: seq<Check>, signals: set<nat>)  // the master adds work; some waiting workers are notified
    | Call                                        // the master calls Complete
    | Enter(t: nat)                               // thread t takes the mutex at the top of the loop
    | Execute(t: nat)                             // thread t works on its batch, without the mutex
    | Wake(t: nat)                                // thread t returns from waiting, signalled or not

  predicate Enabled(s: State, step: Step) {
    |s.threads| > 0 &&
    match step
    case Add(_, _) => s.threads[MASTER].pc.Outside?
    case Call => s.threads[MASTER].pc.Outside?
    case Enter(t) => t < |s.threads| && (s.threads[t].pc.Fresh? || s.threads[t].pc.Ready?)
    case Execute(t) => t < |s.threads| && s.threads[t].pc.Working?
    case Wake(t) => t < |s.threads| && s.threads[t].pc.Waiting?
  }

  // ---------------------------------------------------------------- the steps

  /** How many checks to take from a queue of `size`. */
  function BatchSize(size: nat, nTotal: int, nIdle: int, nBatchSize: nat): (n: nat)
    ensures 1 <= n && (size > 0 ==> n <= size) && (n <= nBatchSize || n == 1)
  {
    var share := if nTotal + nIdle + 1 <= 0 then 0 else size / (nTotal + nIdle + 1);
    var least := if share < nBatchSize then share else nBatchSize;
    if least < 1 then 1 else least
  }

  /** A batch is the largest within the limit of which every thread, and one more, could take one; at least 1. */
  lemma {:induction false} BatchShare(size: nat, nTotal: nat, nIdle: nat, nBatchSize: nat)
    ensures var n, k := BatchSize(size, nTotal, nIdle, nBatchSize), nTotal + nIdle + 1;
            && (n == 1 || (n <= nBatchSize && n * k <= size))
            && forall m: nat :: m <= nBatchSize && m * k <= size ==> m <= n
  {
    var n, k := BatchSize(size, nTotal, nIdle, nBatchSize), nTotal + nIdle + 1;
    var share := size / k;
    Share(size, k, share);
    if n != 1 {
      assert n <= share;
      ShareBelow(n, share, k);
    }
  }

  lemma {:induction false} Share(size: nat, k: nat, share: nat)
    requires k > 0 && share == size / k
    ensures share * k <= size && forall m: nat :: m * k <= size ==> m <= share
  {
    assert size == share * k + size % k;
    forall m: nat | m * k <= size ensures m <= share {
      if m > share { ShareBelow(share + 1, m, k); }
    }
  }

  lemma {:induction false} ShareBelow(a: nat, b: nat, k: nat)
    requires a <= b
    ensures a * k <= b * k
  {
  }

  /** Calling the checks of a batch in order, up to the first failure. */
  function Exec(batch: seq<Check>): (r: (seq<Check>, Option<nat>)) {
    if batch == [] then ([], None)
    else if batch[0].outcome.Some? then ([batch[0]], batch[0].outcome)
    else var (e, l) := Exec(batch[1..]); ([batch[0]] + e, l)
  }

  /** The loop over `vChecks`. What `local_result` held before does not matter: batches are not empty. */
  method CallChecks(batch: seq<Check>, before: Option<nat>) returns (local: Option<nat>, ghost executed: seq<Check>)
    requires batch != []
    ensures executed == Exec(batch).0 && local == Exec(batch).1
  {
    local, executed := before, [];
    var i := 0;
    assert batch[0..] == batch;
    while i < |batch|
      invariant i <= |batch| && (i > 0 ==> local.None?)
      invariant executed + Exec(batch[i..]).0 == Exec(batch).0 && Exec(batch[i..]).1 == Exec(batch).1
    {
      assert batch[i..][0] == batch[i] && batch[i..][1..] == batch[i + 1..];
      local := batch[i].outcome;
      executed := executed + [batch[i]];
      i := i + 1;
      if local.Some? { break; }
    }
  }

  function Signal(ts: seq<Thread>, t: nat): seq<Thread>
    requires t < |ts|
  {
    if ts[t].pc.Waiting? then ts[t := ts[t].(pc := Waiting(true))] else ts
  }

  function SignalAll(ts: seq<Thread>, who: set<nat>): (r: seq<Thread>)
    ensures |r| == |ts|
  {
    seq(|ts|, t requires 0 <= t < |ts| =>
          if t in who && t != MASTER && ts[t].pc.Waiting? then ts[t].(pc := Waiting(true)) else ts[t])
  }

  /** Account for the batch just worked on. */
  function Back(s: State, t: nat): State
    requires t < |s.threads|
  {
    var th := s.threads[t];
    var swap := th.local.Some? && s.result.None?;
    s.(result := if swap then th.local else s.result, nTodo := s.nTodo - |th.batch|,
       threads := s.threads[t :=
         th.(pc := Inside, batch := [], executed := [], local := if swap then None else th.local)],
       done := s.done + multiset(th.batch), ran := s.ran + multiset(th.executed))
  }

  /** The start of a critical section. A worker that finishes the last check notifies the master. */
  function CleanUp(s: State, t: nat): (r: State)
    requires t < |s.threads|
    ensures |r.threads| == |s.threads|
  {
    if s.threads[t].pc.Fresh? then
      s.(nTotal := s.nTotal + 1, threads := s.threads[t := s.threads[t].(pc := Inside)])
    else
      var b := Back(s, t);
      if b.nTodo == 0 && t != MASTER then b.(threads := Signal(b.threads, MASTER)) else b
  }

  /** The rest of it: return, wait, or take a batch from the back of the queue. */
  function Proceed(s: State, t: nat, nBatchSize: nat): (r: State)
    requires t < |s.threads|
    ensures |r.threads| == |s.threads|
  {
    var th := s.threads[t];
    if s.queue == [] then
      if t == MASTER && s.nTodo == 0 then
        s.(nTotal := s.nTotal - 1, result := None, threads := s.threads[t := th.(pc := Outside)],
           added := multiset{}, done := multiset{}, ran := multiset{},
           last := Some(Verdict(s.added, s.ran, s.result)))
      else
        s.(nIdle := s.nIdle + 1, threads := s.threads[t := th.(pc := Waiting(false))])
    else
      var n := |s.queue| - BatchSize(|s.queue|, s.nTotal, s.nIdle, nBatchSize);
      s.(queue := s.queue[..n],
         threads := s.threads[t := th.(pc := Working, batch := s.queue[n..], executed := [], doWork := s.result.None?)])
  }

  function Woken(s: State, t: nat): (r: State)
    requires t < |s.threads|
    ensures |r.threads| == |s.threads|
  {
    s.(nIdle := s.nIdle - 1, threads := s.threads[t := s.threads[t].(pc := Inside)])
  }

  function Next(s: State, step: Step, nBatchSize: nat): (r: State)
    requires Enabled(s, step)
    ensures |r.threads| == |s.threads|
  {
    match step
    case Add(checks, signals) =>
      s.(queue := s.queue + checks, nTodo := s.nTodo + |checks|, added := s.added + multiset(checks),
         threads := SignalAll(s.threads, signals))
    case Call => s.(threads := s.threads[MASTER := Thread(Fresh, [], false, None, [])])
    case Enter(t) => Proceed(CleanUp(s, t), t, nBatchSize)
    case Execute(t) =>
      var th := s.threads[t];
      s.(threads := s.threads[t := th.(pc := Ready,
           local := if th.doWork then Exec(th.batch).1 else th.local,
           executed := if th.doWork then Exec(th.batch).0 else [])])
    case Wake(t) => Proceed(Woken(s, t), t, nBatchSize)
  }

  // ---------------------------------------------------------------- what every step keeps

  function InFlight(ts: seq<Thread>): multiset<Check> {
    if ts == [] then multiset{} else multiset(ts[0].batch) + InFlight(ts[1..])
  }

  function IsWaiter(th: Thread): nat { if th.pc.Waiting? then 1 else 0 }

  function IsMember(th: Thread): nat { if th.pc.Outside? || th.pc.Fresh? then 0 else 1 }

  function Waiters(ts: seq<Thread>): nat { if ts == [] then 0 else IsWaiter(ts[0]) + Waiters(ts[1..]) }

  function Members(ts: seq<Thread>): nat { if ts == [] then 0 else IsMember(ts[0]) + Members(ts[1..]) }

  ghost predicate Passes(cs: multiset<Check>) { forall c :: c in cs ==> c.outcome.None? }

  ghost predicate Reports(cs: multiset<Check>, e: nat) { exists c :: c in cs && c.outcome == Some(e) }

  ghost predicate ThreadOk(th: Thread, result: Option<nat>) {
    match th.pc
    case Working => th.batch != [] && th.executed == [] && (th.doWork || result.Some?)
    case Ready =>
      && th.batch != []
      && (if th.doWork then th.executed == Exec(th.batch).0 && th.local == Exec(th.batch).1
          else th.executed == [] && result.Some?)
    case _ => th.batch == [] && th.executed == []
  }

  /** The checks of a round are queued, in flight or done, each once, and `nTodo` counts the first two. */
  ghost predicate Accounted(s: State) {
    && s.added == multiset(s.queue) + InFlight(s.threads) + s.done
    && s.nTodo == |s.queue| + |InFlight(s.threads)|
    && s.ran <= s.done
  }

  /** The shared result comes from a check called in this round; without one, everything done passed. */
  ghost predicate Honest(result: Option<nat>, done: multiset<Check>, ran: multiset<Check>) {
    match result
    case None => ran == done && Passes(done)
    case Some(e) => Reports(ran, e)
  }

  /** What `Complete` promises of its answer. */
  ghost predicate VerdictOk(v: Verdict) {
    && v.ran <= v.checks
    && (v.answer.None? <==> Passes(v.checks))
    && (v.answer.None? ==> v.ran == v.checks)
    && (v.answer.Some? ==> Reports(v.ran, v.answer.value))
  }

  ghost predicate ThreadsOk(ts: seq<Thread>, result: Option<nat>) {
    && |ts| > 0 && (forall t :: 0 < t < |ts| ==> !ts[t].pc.Outside?)
    && (forall t :: 0 <= t < |ts| ==> ThreadOk(ts[t], result))
  }

  ghost predicate Counted(s: State) { s.nIdle == Waiters(s.threads) && s.nTotal == Members(s.threads) }

  /** A master that waits without having been signalled still has something to wait for. */
  ghost predicate MasterOk(s: State) {
    |s.threads| > 0 && (s.threads[MASTER].pc == Waiting(false) ==> s.nTodo > 0 && s.queue == [])
  }

  ghost predicate Books(s: State) {
    && ThreadsOk(s.threads, s.result) && Counted(s) && Accounted(s)
    && Honest(s.result, s.done, s.ran) && (s.last.Some? ==> VerdictOk(s.last.value))
  }

  ghost predicate Inv(s: State) { Books(s) && MasterOk(s) }

  // ---------------------------------------------------------------- bookkeeping over the threads

  /** Replacing one thread. */
  lemma {:induction false} Replace(ts: seq<Thread>, t: nat, th: Thread)
    requires t < |ts|
    ensures InFlight(ts[t := th]) == InFlight(ts) - multiset(ts[t].batch) + multiset(th.batch)
    ensures multiset(ts[t].batch) <= InFlight(ts)
    ensures Waiters(ts[t := th]) == Waiters(ts) - IsWaiter(ts[t]) + IsWaiter(th)
    ensures Members(ts[t := th]) == Members(ts) - IsMember(ts[t]) + IsMember(th)
  {
    hide InFlight, Waiters, Members;
    ReplaceCounts(ts, t, th);
    ReplaceBatch(ts, t, th);
    var a, b, c, d := InFlight(ts[t := th]), InFlight(ts), multiset(ts[t].batch), multiset(th.batch);
    HasBatch(ts, t);
    assert forall x :: a[x] + c[x] == (a + c)[x] && (a + c)[x] == b[x] + d[x];
  }

  lemma {:induction false} ReplaceCounts(ts: seq<Thread>, t: nat, th: Thread)
    requires t < |ts|
    ensures Waiters(ts[t := th]) == Waiters(ts) - IsWaiter(ts[t]) + IsWaiter(th)
    ensures Members(ts[t := th]) == Members(ts) - IsMember(ts[t]) + IsMember(th)
  {
    hide IsWaiter, IsMember;
    var us := ts[t := th];
    if t == 0 {
      assert us[1..] == ts[1..];
    } else {
      assert us[1..] == ts[1..][t - 1 := th] && us[0] == ts[0];
      ReplaceCounts(ts[1..], t - 1, th);
    }
  }

  lemma {:induction false} ReplaceBatch(ts: seq<Thread>, t: nat, th: Thread)
    requires t < |ts|
    ensures InFlight(ts[t := th]) + multiset(ts[t].batch) == InFlight(ts) + multiset(th.batch)
  {
    var us := ts[t := th];
    if t == 0 {
      assert us[1..] == ts[1..];
    } else {
      assert us[1..] == ts[1..][t - 1 := th] && us[0] == ts[0];
      ReplaceBatch(ts[1..], t - 1, th);
      AddToBoth(multiset(ts[0].batch), InFlight(us[1..]), InFlight(ts[1..]), multiset(ts[t].batch), multiset(th.batch));
    }
  }

  lemma {:induction false} AddToBoth(x: multiset<Check>, a: multiset<Check>, b: multiset<Check>, c: multiset<Check>,
                                     d: multiset<Check>)
    requires a + c == b + d
    ensures (x + a) + c == (x + b) + d
  {
    assert (x + a) + c == x + (a + c) && (x + b) + d == x + (b + d);
  }

  lemma {:induction false} HasBatch(ts: seq<Thread>, t: nat)
    requires t < |ts|
    ensures multiset(ts[t].batch) <= InFlight(ts)
  {
    if t > 0 { HasBatch(ts[1..], t - 1); }
  }

  lemma {:induction false} SameBatch(ts: seq<Thread>, t: nat, th: Thread)
    requires t < |ts| && th.batch == ts[t].batch
    ensures InFlight(ts[t := th]) == InFlight(ts)
  {
    var us := ts[t := th];
    if t == 0 {
      assert us[1..] == ts[1..];
    } else {
      assert us[1..] == ts[1..][t - 1 := th] && us[0] == ts[0];
      SameBatch(ts[1..], t - 1, th);
    }
  }

  lemma {:induction false} SignalKeeps(ts: seq<Thread>, who: set<nat>)
    ensures var us := SignalAll(ts, who);
            InFlight(us) == InFlight(ts) && Waiters(us) == Waiters(ts) && Members(us) == Members(ts)
  {
    SameCounts(ts, SignalAll(ts, who));
  }

  lemma {:induction false} SameCounts(ts: seq<Thread>, us: seq<Thread>)
    requires |us| == |ts|
    requires forall i :: 0 <= i < |ts| ==> us[i] == ts[i] || (ts[i].pc.Waiting? && us[i] == ts[i].(pc := Waiting(true)))
    ensures InFlight(us) == InFlight(ts) && Waiters(us) == Waiters(ts) && Members(us) == Members(ts)
  {
    if ts != [] { SameCounts(ts[1..], us[1..]); }
  }

  lemma {:induction false} NoneInFlight(ts: seq<Thread>, t: nat)
    requires |InFlight(ts)| == 0 && t < |ts|
    ensures ts[t].batch == []
  {
    Replace(ts, t, ts[t]);
    assert |multiset(ts[t].batch)| == 0;
  }

  lemma {:induction false} SomeInFlight(ts: seq<Thread>) returns (t: nat)
    requires |InFlight(ts)| > 0
    ensures t < |ts| && ts[t].batch != []
  {
    if ts[0].batch != [] {
      t := 0;
    } else {
      t := SomeInFlight(ts[1..]);
      t := t + 1;
    }
  }

  lemma {:induction false} ExecFacts(batch: seq<Check>)
    ensures var (e, l) := Exec(batch);
            && multiset(e) <= multiset(batch)
            && (l.None? ==> e == batch && Passes(multiset(batch)))
            && (l.Some? ==> Reports(multiset(e), l.value))
  {
    if batch != [] {
      var rest := batch[1..];
      assert batch == [batch[0]] + rest;
      assert multiset(batch) == multiset{batch[0]} + multiset(rest);
      if batch[0].outcome.Some? {
        assert batch[0] in multiset([batch[0]]);
      } else {
        ExecFacts(rest);
        var (e, l) := Exec(rest);
        assert multiset([batch[0]] + e) == multiset{batch[0]} + multiset(e);
        if l.Some? {
          var c :| c in multiset(e) && c.outcome == Some(l.value);
          assert c in multiset([batch[0]] + e);
        }
      }
    }
  }

  // ---------------------------------------------------------------- every step keeps the invariant

  lemma {:induction false} ReplaceOk(ts: seq<Thread>, result: Option<nat>, result': Option<nat>, t: nat, th: Thread)
    requires ThreadsOk(ts, result) && t < |ts| && (result.Some? ==> result'.Some?) && ThreadOk(th, result')
    requires t != MASTER ==> !th.pc.Outside?
    ensures ThreadsOk(ts[t := th], result')
  {
  }

  lemma {:induction false} AddKeeps(s: State, checks: seq<Check>, signals: set<nat>, nBatchSize: nat)
    requires Inv(s) && Enabled(s, Add(checks, signals))
    ensures Inv(Next(s, Add(checks, signals), nBatchSize))
  {
    hide InFlight, Waiters, Members, Honest, VerdictOk;
    SignalKeeps(s.threads, signals);
    assert multiset(s.queue + checks) == multiset(s.queue) + multiset(checks);
  }

  lemma {:induction false} CallKeeps(s: State, nBatchSize: nat)
    requires Inv(s) && Enabled(s, Call)
    ensures Inv(Next(s, Call, nBatchSize))
  {
    hide InFlight, Waiters, Members, Honest, VerdictOk;
    Replace(s.threads, MASTER, Thread(Fresh, [], false, None, []));
  }

  lemma {:induction false} ExecuteKeeps(s: State, t: nat, nBatchSize: nat)
    requires Inv(s) && Enabled(s, Execute(t))
    ensures Inv(Next(s, Execute(t), nBatchSize))
  {
    hide InFlight, Waiters, Members, Honest, VerdictOk, Exec;
    var th := Next(s, Execute(t), nBatchSize).threads[t];
    ReplaceCounts(s.threads, t, th);
    SameBatch(s.threads, t, th);
    ReplaceOk(s.threads, s.result, s.result, t, th);
  }

  lemma {:induction false} WokenKeeps(s: State, t: nat)
    requires Inv(s) && t < |s.threads| && s.threads[t].pc.Waiting?
    ensures Inv(Woken(s, t))
  {
    hide InFlight, Waiters, Members, Honest, VerdictOk, Exec;
    Replace(s.threads, t, Woken(s, t).threads[t]);
  }

  /** Putting a batch back into the books: the result stays honest, whatever `local` was left over. */
  lemma {:induction false} BatchBack(result: Option<nat>, done: multiset<Check>, ran: multiset<Check>, th: Thread)
    requires Honest(result, done, ran) && ran <= done && th.pc.Ready? && ThreadOk(th, result)
    ensures Honest(if th.local.Some? && result.None? then th.local else result,
                   done + multiset(th.batch), ran + multiset(th.executed))
    ensures ran + multiset(th.executed) <= done + multiset(th.batch)
  {
    hide Exec;
    ExecFacts(th.batch);
    if result.Some? {
      var c :| c in ran && c.outcome == Some(result.value);
      assert c in ran + multiset(th.executed);
    } else if th.local.Some? {
      var c :| c in multiset(th.executed) && c.outcome == Some(th.local.value);
      assert c in ran + multiset(th.executed);
    }
  }

  lemma {:induction false} CleanUpFresh(s: State, t: nat)
    requires Inv(s) && t < |s.threads| && s.threads[t].pc.Fresh?
    ensures Inv(CleanUp(s, t)) && CleanUp(s, t).threads[t].pc.Inside?
  {
    hide InFlight, Waiters, Members, Honest, VerdictOk, Exec;
    Replace(s.threads, t, s.threads[t].(pc := Inside));
  }

  lemma {:induction false} BackKeeps(s: State, t: nat)
    requires Books(s) && t < |s.threads| && s.threads[t].pc.Ready?
    ensures Books(Back(s, t)) && Back(s, t).threads[t].pc.Inside?
  {
    hide InFlight, Waiters, Members, Honest, VerdictOk, Exec;
    var th, b := s.threads[t], Back(s, t);
    BatchBack(s.result, s.done, s.ran, th);
    Replace(s.threads, t, b.threads[t]);
    ReplaceOk(s.threads, s.result, b.result, t, b.threads[t]);
    BackAccounted(s, t);
  }

  lemma {:induction false} CleanUpReady(s: State, t: nat)
    requires Inv(s) && t < |s.threads| && s.threads[t].pc.Ready?
    ensures Inv(CleanUp(s, t)) && CleanUp(s, t).threads[t].pc.Inside?
  {
    hide InFlight, Waiters, Members, Honest, VerdictOk, ThreadsOk;
    BackKeeps(s, t);
    var b := Back(s, t);
    SignalMaster(b.threads, b.result);
    if b.nTodo != 0 || t == MASTER { BackMaster(s, t); }
  }

  lemma {:induction false} BackMaster(s: State, t: nat)
    requires Inv(s) && t < |s.threads| && s.threads[t].pc.Ready? && Books(Back(s, t))
    requires Back(s, t).nTodo != 0 || t == MASTER
    ensures MasterOk(Back(s, t))
  {
    hide InFlight, Waiters, Members, Honest, VerdictOk, ThreadsOk;
  }

  lemma {:induction false} BackAccounted(s: State, t: nat)
    requires Accounted(s) && t < |s.threads| && s.threads[t].pc.Ready?
      && multiset(s.threads[t].batch) <= InFlight(s.threads)
    ensures s.added == multiset(s.queue) + (InFlight(s.threads) - multiset(s.threads[t].batch))
      + (s.done + multiset(s.threads[t].batch))
    ensures s.nTodo - |s.threads[t].batch| == |s.queue| + |InFlight(s.threads) - multiset(s.threads[t].batch)|
  {
    hide InFlight;
  }

  lemma {:induction false} SignalMaster(ts: seq<Thread>, result: Option<nat>)
    requires ThreadsOk(ts, result)
    ensures var us := Signal(ts, MASTER);
            && InFlight(us) == InFlight(ts) && Waiters(us) == Waiters(ts) && Members(us) == Members(ts)
            && ThreadsOk(us, result) && us[MASTER].pc != Waiting(false)
  {
    SameCounts(ts, Signal(ts, MASTER));
  }

  lemma {:induction false} ReturnKeeps(s: State, nBatchSize: nat)
    requires Inv(s) && s.threads[MASTER].pc.Inside? && s.queue == [] && s.nTodo == 0
    ensures Inv(Proceed(s, MASTER, nBatchSize))
  {
    hide InFlight, Waiters, Members, Exec;
    var s' := Proceed(s, MASTER, nBatchSize);
    Replace(s.threads, MASTER, s'.threads[MASTER]);
    forall t | 0 <= t < |s.threads| ensures ThreadOk(s'.threads[t], None) { NoneInFlight(s.threads, t); }
    assert s.added == s.done;
    if s.result.Some? {
      var c :| c in s.ran && c.outcome == Some(s.result.value);
      assert c in s.added;
    }
  }

  lemma {:induction false} WaitKeeps(s: State, t: nat, nBatchSize: nat)
    requires Inv(s) && t < |s.threads| && s.threads[t].pc.Inside? && s.queue == [] && !(t == MASTER && s.nTodo == 0)
    ensures Inv(Proceed(s, t, nBatchSize))
  {
    hide InFlight, Waiters, Members, Honest, VerdictOk, Exec;
    var th := s.threads[t].(pc := Waiting(false));
    Replace(s.threads, t, th);
    ReplaceOk(s.threads, s.result, s.result, t, th);
  }

  lemma {:induction false} TakeKeeps(s: State, t: nat, nBatchSize: nat)
    requires Inv(s) && t < |s.threads| && s.threads[t].pc.Inside? && s.queue != []
    ensures Inv(Proceed(s, t, nBatchSize))
  {
    hide InFlight, Waiters, Members, Honest, VerdictOk, Exec, BatchSize;
    var s' := Proceed(s, t, nBatchSize);
    var n := |s.queue| - BatchSize(|s.queue|, s.nTotal, s.nIdle, nBatchSize);
    Replace(s.threads, t, s'.threads[t]);
    ReplaceOk(s.threads, s.result, s.result, t, s'.threads[t]);
    hide ThreadOk;
    assert s.queue == s.queue[..n] + s.queue[n..];
    assert multiset(s.queue) == multiset(s.queue[..n]) + multiset(s.queue[n..]);
  }

  lemma {:induction false} ProceedKeeps(s: State, t: nat, nBatchSize: nat)
    requires Inv(s) && t < |s.threads| && s.threads[t].pc.Inside?
    ensures Inv(Proceed(s, t, nBatchSize))
  {
    hide Proceed;
    if s.queue != [] {
      TakeKeeps(s, t, nBatchSize);
    } else if t == MASTER && s.nTodo == 0 {
      ReturnKeeps(s, nBatchSize);
    } else {
      WaitKeeps(s, t, nBatchSize);
    }
  }

  lemma {:induction false} NextKeeps(s: State, step: Step, nBatchSize: nat)
    requires Inv(s) && Enabled(s, step)
    ensures Inv(Next(s, step, nBatchSize))
  {
    hide Inv, Proceed, CleanUp, Woken;
    match step {
      case Add(checks, signals) => AddKeeps(s, checks, signals, nBatchSize);
      case Call => CallKeeps(s, nBatchSize);
      case Execute(t) => ExecuteKeeps(s, t, nBatchSize);
      case Enter(t) =>
        if s.threads[t].pc.Fresh? { CleanUpFresh(s, t); } else { CleanUpReady(s, t); }
        EntersInside(s, t);
        ProceedKeeps(CleanUp(s, t), t, nBatchSize);
      case Wake(t) =>
        WokenKeeps(s, t);
        EntersInside(s, t);
        ProceedKeeps(Woken(s, t), t, nBatchSize);
    }
  }

  lemma {:induction false} EntersInside(s: State, t: nat)
    requires t < |s.threads|
    ensures |CleanUp(s, t).threads| == |s.threads| == |Woken(s, t).threads| && Woken(s, t).threads[t].pc.Inside?
  {
  }

  // ---------------------------------------------------------------- every run

  /** No thread is inside a critical section between steps. */
  ghost predicate AtRest(s: State) { forall t :: 0 <= t < |s.threads| ==> !s.threads[t].pc.Inside? }

  /** A new queue: the master outside, the workers about to enter their loop. */
  ghost predicate Init(s: State) {
    && |s.threads| > 0 && s.threads[MASTER] == Thread(Outside, [], false, None, [])
    && (forall t :: 0 < t < |s.threads| ==> s.threads[t] == Thread(Fresh, [], false, None, []))
    && s.queue == [] && s.nIdle == 0 && s.nTotal == 0 && s.result.None? && s.nTodo == 0
    && s.added == multiset{} && s.done == multiset{} && s.ran == multiset{} && s.last.None?
  }

  lemma {:induction false} InitCounts(ts: seq<Thread>)
    requires forall t :: 0 <= t < |ts| ==> (ts[t].pc.Outside? || ts[t].pc.Fresh?) && ts[t].batch == []
    ensures InFlight(ts) == multiset{} && Waiters(ts) == 0 && Members(ts) == 0
  {
    if ts != [] { InitCounts(ts[1..]); }
  }

  lemma {:induction false} InitInv(s: State)
    requires Init(s)
    ensures Inv(s) && AtRest(s)
  {
    InitCounts(s.threads);
  }

  /** What the thread holding the mutex leaves of another thread. */
  lemma {:induction false} CleanUpOthers(s: State, t: nat, u: nat)
    requires t < |s.threads| && u < |s.threads| && u != t
    ensures var th := CleanUp(s, t).threads[u];
            th == s.threads[u] || (u == MASTER && s.threads[u].pc.Waiting? && th == s.threads[u].(pc := Waiting(true)))
  {
  }

  lemma {:induction false} ProceedOthers(s: State, t: nat, u: nat, nBatchSize: nat)
    requires t < |s.threads| && u < |s.threads|
    ensures u != t ==> Proceed(s, t, nBatchSize).threads[u] == s.threads[u]
    ensures var pc := Proceed(s, t, nBatchSize).threads[t].pc; pc.Outside? || pc.Waiting? || pc.Working?
  {
    hide BatchSize;
  }

  lemma {:induction false} NextAtRest(s: State, step: Step, nBatchSize: nat)
    requires AtRest(s) && Enabled(s, step)
    ensures AtRest(Next(s, step, nBatchSize))
  {
    hide Exec, CleanUp, Proceed;
    match step {
      case Enter(t) =>
        forall u | 0 <= u < |s.threads| ensures !Next(s, step, nBatchSize).threads[u].pc.Inside? {
          ProceedOthers(CleanUp(s, t), t, u, nBatchSize);
          if u != t { CleanUpOthers(s, t, u); }
        }
      case Wake(t) =>
        forall u | 0 <= u < |s.threads| ensures !Next(s, step, nBatchSize).threads[u].pc.Inside? {
          ProceedOthers(Woken(s, t), t, u, nBatchSize);
        }
      case _ =>
    }
  }

  /** A run: any interleaving of steps. */
  ghost predicate Run(states: seq<State>, steps: seq<Step>, nBatchSize: nat) {
    |states| == |steps| + 1 &&
    forall i :: 0 <= i < |steps| ==>
      Enabled(states[i], steps[i]) && states[i + 1] == Next(states[i], steps[i], nBatchSize)
  }

  lemma {:induction false} RunKeeps(states: seq<State>, steps: seq<Step>, nBatchSize: nat, i: nat)
    requires Run(states, steps, nBatchSize) && Inv(states[0]) && AtRest(states[0]) && i < |states|
    ensures Inv(states[i]) && AtRest(states[i])
  {
    hide Inv, AtRest, Next;
    if i > 0 {
      RunKeeps(states, steps, nBatchSize, i - 1);
      assert states[i - 1 + 1] == Next(states[i - 1], steps[i - 1], nBatchSize);
      NextKeeps(states[i - 1], steps[i - 1], nBatchSize);
      NextAtRest(states[i - 1], steps[i - 1], nBatchSize);
    }
  }

  /** In every interleaving: checks are accounted for, and whatever `Complete` last returned is right. */
  lemma {:induction false} EveryRun(states: seq<State>, steps: seq<Step>, nBatchSize: nat, i: nat)
    requires Run(states, steps, nBatchSize) && Init(states[0]) && i < |states|
    ensures Accounted(states[i]) && Counted(states[i])
    ensures states[i].last.Some? ==> VerdictOk(states[i].last.value)
  {
    InitInv(states[0]);
    RunKeeps(states, steps, nBatchSize, i);
  }

  /** When the master comes back from `Complete`, its verdict is about exactly the checks added since
      the round began, and the next round starts from nothing. */
  lemma {:induction false} Returns(s: State, step: Step, nBatchSize: nat)
    requires Inv(s) && Enabled(s, step) && !s.threads[MASTER].pc.Outside?
    requires Next(s, step, nBatchSize).threads[MASTER].pc.Outside?
    ensures var s' := Next(s, step, nBatchSize);
            && s'.last.Some? && s'.last.value.checks == s.added && VerdictOk(s'.last.value)
            && s'.queue == [] && s'.nTodo == 0 && s'.result.None? && s'.added == multiset{}
  {
    hide Inv, CleanUp, Proceed, VerdictOk;
    NextKeeps(s, step, nBatchSize);
    BooksOf(Next(s, step, nBatchSize));
    match step {
      case Enter(t) => ReturnsFrom(CleanUp(s, t), t, nBatchSize); CleanUpRound(s, t);
      case Wake(t) => ReturnsFrom(Woken(s, t), t, nBatchSize);
      case _ =>
    }
  }

  lemma {:induction false} CleanUpRound(s: State, t: nat)
    requires t < |s.threads| && (s.threads[t].pc.Fresh? || s.threads[t].pc.Ready?)
    ensures CleanUp(s, t).added == s.added
    ensures CleanUp(s, t).threads[MASTER].pc.Outside? ==> s.threads[MASTER].pc.Outside?
  {
  }

  lemma {:induction false} ReturnsFrom(s: State, t: nat, nBatchSize: nat)
    requires t < |s.threads|
    ensures var s' := Proceed(s, t, nBatchSize);
            s'.threads[MASTER].pc.Outside? && !s.threads[MASTER].pc.Outside? ==>
              && s'.last == Some(Verdict(s.added, s.ran, s.result))
              && s'.queue == [] && s'.nTodo == 0 && s'.result.None? && s'.added == multiset{}
  {
    hide BatchSize;
  }

  lemma {:induction false} BooksOf(s: State)
    requires Inv(s)
    ensures s.last.Some? ==> VerdictOk(s.last.value)
  {
  }

  // ---------------------------------------------------------------- Complete returns

  /** A step the scheduler owes: not a spurious wake-up, and not the master's own choice to add or call. */
  predicate Owed(s: State, step: Step) {
    Enabled(s, step) && (step.Enter? || step.Execute? || (step.Wake? && s.threads[step.t].pc == Waiting(true)))
  }

  /** While the master is in `Complete`, some step is owed: no wake-up is ever lost. */
  lemma {:induction false} NeverStuck(s: State) returns (step: Step)
    requires Inv(s) && AtRest(s) && !s.threads[MASTER].pc.Outside?
    ensures Owed(s, step)
  {
    hide InFlight, Waiters, Members, Honest, VerdictOk, Exec;
    var pc := s.threads[MASTER].pc;
    if pc.Fresh? || pc.Ready? {
      step := Enter(MASTER);
    } else if pc.Working? {
      step := Execute(MASTER);
    } else if pc == Waiting(true) {
      step := Wake(MASTER);
    } else {
      var t := SomeInFlight(s.threads);
      step := if s.threads[t].pc.Working? then Execute(t) else Enter(t);
    }
  }

  function Weight(pc: Pc): nat {
    match pc
    case Working => 3
    case Ready => 2
    case Fresh => 1
    case Waiting(signalled) => if signalled then 1 else 0
    case _ => 0
  }

  function Weights(ts: seq<Thread>): nat {
    if ts == [] then 0 else Weight(ts[0].pc) + Weights(ts[1..])
  }

  /** A bound on the owed steps still to come. */
  function Rank(s: State): nat { 4 * |s.queue| + Weights(s.threads) }

  lemma {:induction false} ReplaceWeight(ts: seq<Thread>, t: nat, th: Thread)
    requires t < |ts|
    ensures Weights(ts[t := th]) == Weights(ts) - Weight(ts[t].pc) + Weight(th.pc)
  {
    var us := ts[t := th];
    if t == 0 {
      assert us[1..] == ts[1..];
    } else {
      assert us[1..] == ts[1..][t - 1 := th] && us[0] == ts[0];
      ReplaceWeight(ts[1..], t - 1, th);
    }
  }

  lemma {:induction false} ProceedRank(s: State, t: nat, nBatchSize: nat)
    requires t < |s.threads| && s.threads[t].pc.Inside?
    ensures Rank(Proceed(s, t, nBatchSize)) <= Rank(s)
  {
    hide Weights, BatchSize;
    ReplaceWeight(s.threads, t, Proceed(s, t, nBatchSize).threads[t]);
  }

  lemma {:induction false} BackRank(s: State, t: nat)
    requires t < |s.threads| && s.threads[t].pc.Ready?
    ensures Rank(CleanUp(s, t)) < Rank(s)
  {
    hide Weights;
    var b := Back(s, t);
    ReplaceWeight(s.threads, t, b.threads[t]);
    ReplaceWeight(b.threads, MASTER, b.threads[MASTER].(pc := Waiting(true)));
  }

  lemma {:induction false} OwedRank(s: State, step: Step, nBatchSize: nat)
    requires Inv(s) && Owed(s, step)
    ensures Rank(Next(s, step, nBatchSize)) < Rank(s)
  {
    hide Inv, Weights, CleanUp, Proceed, Exec;
    match step {
      case Enter(t) =>
        if s.threads[t].pc.Fresh? { FreshRank(s, t); } else { BackRank(s, t); }
        InsideNow(s, t);
        ProceedRank(CleanUp(s, t), t, nBatchSize);
      case Execute(t) => ReplaceWeight(s.threads, t, Next(s, step, nBatchSize).threads[t]);
      case Wake(t) =>
        ReplaceWeight(s.threads, t, Woken(s, t).threads[t]);
        ProceedRank(Woken(s, t), t, nBatchSize);
    }
  }

  lemma {:induction false} FreshRank(s: State, t: nat)
    requires t < |s.threads| && s.threads[t].pc.Fresh?
    ensures Rank(CleanUp(s, t)) < Rank(s)
  {
    hide Weights;
    ReplaceWeight(s.threads, t, CleanUp(s, t).threads[t]);
  }

  lemma {:induction false} InsideNow(s: State, t: nat)
    requires t < |s.threads| && (s.threads[t].pc.Fresh? || s.threads[t].pc.Ready?)
    ensures CleanUp(s, t).threads[t].pc.Inside?
  {
  }

  /** A spurious wake-up makes no progress and undoes none. */
  lemma {:induction false} SpuriousRank(s: State, t: nat, nBatchSize: nat)
    requires Enabled(s, Wake(t))
    ensures Rank(Next(s, Wake(t), nBatchSize)) <= Rank(s)
  {
    hide Weights, Proceed;
    ReplaceWeight(s.threads, t, Woken(s, t).threads[t]);
    ProceedRank(Woken(s, t), t, nBatchSize);
  }

  /** What the master does of its own accord; it does neither while it is in `Complete`. */
  predicate Chosen(step: Step) { step.Add? || step.Call? }

  lemma {:induction false} NothingChosen(s: State, step: Step)
    requires Enabled(s, step) && !s.threads[MASTER].pc.Outside?
    ensures !Chosen(step)
  {
  }

  /** How many of the first `n` steps were owed. */
  ghost function OwedCount(states: seq<State>, steps: seq<Step>, n: nat): (c: nat)
    requires n <= |steps| && n <= |states|
    ensures c <= n
  {
    if n == 0 then 0 else OwedCount(states, steps, n - 1) + if Owed(states[n - 1], steps[n - 1]) then 1 else 0
  }

  /** Under any scheduling, with any number of spurious wake-ups in between, at most `Rank` owed steps
      happen before the master adds or calls again; when none is left, `Complete` has returned. */
  lemma {:induction false} CompleteReturns(states: seq<State>, steps: seq<Step>, nBatchSize: nat)
    requires Run(states, steps, nBatchSize) && Inv(states[0]) && AtRest(states[0])
    requires forall i :: 0 <= i < |steps| ==> !Chosen(steps[i])
    ensures OwedCount(states, steps, |steps|) + Rank(states[|steps|]) <= Rank(states[0])
    ensures (forall step :: !Owed(states[|steps|], step)) ==>
              states[|steps|].threads != [] && states[|steps|].threads[MASTER].pc.Outside?
  {
    hide Inv, AtRest, Next, Rank, Enabled;
    var n := |steps|;
    RankFalls(states, steps, nBatchSize, n);
    RunKeeps(states, steps, nBatchSize, n);
    HasMaster(states[n]);
    if !states[n].threads[MASTER].pc.Outside? { var step := NeverStuck(states[n]); }
  }

  lemma {:induction false} HasMaster(s: State)
    requires Inv(s)
    ensures s.threads != []
  {
  }

  lemma {:induction false} RankFalls(states: seq<State>, steps: seq<Step>, nBatchSize: nat, n: nat)
    requires Run(states, steps, nBatchSize) && Inv(states[0]) && AtRest(states[0]) && n <= |steps|
    requires forall i :: 0 <= i < |steps| ==> !Chosen(steps[i])
    ensures OwedCount(states, steps, n) + Rank(states[n]) <= Rank(states[0])
  {
    hide Inv, AtRest, Next, Rank;
    if n > 0 {
      var s, step := states[n - 1], steps[n - 1];
      RankFalls(states, steps, nBatchSize, n - 1);
      RunKeeps(states, steps, nBatchSize, n - 1);
      assert states[n - 1 + 1] == Next(s, step, nBatchSize);
      if Owed(s, step) { OwedRank(s, step, nBatchSize); } else { SpuriousRank(s, step.t, nBatchSize); }
    }
  }
}
