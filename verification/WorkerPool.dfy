/** The in-memory worker pool: 24-hour duplicate suppression with eviction, and the retry loop. */
module WorkerPool {

  type Key = string
  const SECOND: int := 1_000_000_000
  const DAY: int := 86_400 * SECOND
  const SWEEP_ABOVE: nat := 1000

  /** The readings of the clock one Enqueue makes, in the order it makes them. */
  datatype Readings = Readings(check: int, stamp: int, sweep: int) {
    predicate Ordered() { check <= stamp <= sweep }
  }

  datatype Job = Job(id: string, kind: string, key: Key, retries: int, timeout: int)

  function Normalized(job: Job): Job {
    job.(key := if job.key == "" then job.id + ":" + job.kind else job.key,
         timeout := if job.timeout == 0 then 30 * SECOND else job.timeout,
         retries := if job.retries == 0 then 3 else job.retries)
  }

  /**
   * Jobs without a key of their own get different keys if their ids or kinds differ, as long as no id holds a colon
   * (the pool's callers use UUIDs). With colons they may collide, and then one job suppresses the other.
   */
  lemma DefaultKeysDiffer(a: Job, b: Job)
    requires a.key == "" && b.key == "" && ':' !in a.id && ':' !in b.id
    ensures Normalized(a).key == Normalized(b).key <==> a.id == b.id && a.kind == b.kind
  {
    var k, l := a.id + ":" + a.kind, b.id + ":" + b.kind;
    FirstColon(a.id, a.kind);
    FirstColon(b.id, b.kind);
    assert a.id == k[..|a.id|] && b.id == l[..|b.id|] && a.kind == k[|a.id| + 1..] && b.kind == l[|b.id| + 1..];
  }

  lemma FirstColon(id: string, kind: string)
    requires ':' !in id
    ensures var k := id + ":" + kind; k[|id|] == ':' && forall i :: 0 <= i < |id| ==> k[i] != ':'
  {
    forall i | 0 <= i < |id| ensures (id + ":" + kind)[i] != ':' { assert id[i] in id; }
  }

  lemma DefaultKeysMayCollide()
    ensures var a, b := Job("a:b", "c", "", 0, 0), Job("a", "b:c", "", 0, 0);
      a != b && Normalized(a).key == Normalized(b).key
  {
    assert "a:b" + ":" + "c" == "a" + ":" + "b:c";
  }

  // ----- the duplicate check with and without eviction

  predicate IsDuplicate(m: map<Key, int>, k: Key, now: int) { k in m && now < m[k] }

  function Swept(m: map<Key, int>, now: int): map<Key, int> {
    if |m| > SWEEP_ABOVE then map k | k in m && now <= m[k] :: m[k] else m
  }

  /** The map after a call, as the pool keeps it. */
  function Remembered(m: map<Key, int>, k: Key, r: Readings): map<Key, int> {
    if IsDuplicate(m, k, r.check) then m else Swept(m[k := r.stamp + DAY], r.sweep)
  }

  /** The map after a call if nothing were ever evicted. */
  function History(m: map<Key, int>, k: Key, r: Readings): map<Key, int> {
    if IsDuplicate(m, k, r.check) then m else m[k := r.stamp + DAY]
  }

  datatype Outcome = Enqueued | Deduplicated | DroppedQueueFull

  class Pool {
    var idem: map<Key, int>
    var queue: seq<Job>
    const capacity: nat

    constructor (size: nat)
      ensures idem == map[] && queue == [] && capacity == 4 * size
    {
      idem, queue, capacity := map[], [], 4 * size;
    }

    /** Deletes the entries whose window is over at `now`, one key after the other. */
    method Sweep(now: int)
      modifies this`idem
      ensures idem == map k | k in old(idem) && now <= old(idem)[k] :: old(idem)[k]
    {
      var rest := idem.Keys;
      while rest != {}
        invariant rest <= old(idem).Keys
        invariant idem == map k | k in old(idem) && (k in rest || now <= old(idem)[k]) :: old(idem)[k]
        decreases |rest|
      {
        var k :| k in rest;
        rest := rest - {k};
        if now > idem[k] { idem := idem - {k}; }
      }
    }

    method Enqueue(job0: Job, r: Readings) returns (o: Outcome)
      modifies this
      ensures var job := Normalized(job0);
        && idem == Remembered(old(idem), job.key, r)
        && (o == Deduplicated <==> IsDuplicate(old(idem), job.key, r.check))
        && queue == (if o == Enqueued then old(queue) + [job] else old(queue))
        && (o == DroppedQueueFull ==> |queue| >= capacity) && (o == Enqueued ==> |old(queue)| < capacity)
      ensures o == Enqueued ==>
        var job := queue[|queue| - 1];
        && job.id == job0.id && job.kind == job0.kind
        && job.key == (if job0.key == "" then job0.id + ":" + job0.kind else job0.key)
        && job.timeout == (if job0.timeout == 0 then 30_000_000_000 else job0.timeout)
        && job.retries == (if job0.retries == 0 then 3 else job0.retries)
      ensures o == Deduplicated ==> idem == old(idem)
      ensures o != Deduplicated ==>
        var stamped := old(idem)[(if job0.key == "" then job0.id + ":" + job0.kind else job0.key) := r.stamp + 86_400_000_000_000];
        idem == if |stamped| <= 1000 then stamped else map k | k in stamped && r.sweep <= stamped[k] :: stamped[k]
    {
      var job := job0;
      if job.key == "" { job := job.(key := job.id + ":" + job.kind); }
      if job.timeout == 0 { job := job.(timeout := 30 * SECOND); }
      if job.retries == 0 { job := job.(retries := 3); }
      assert job == Normalized(job0);
      if job.key in idem && r.check < idem[job.key] { return Deduplicated; }
      idem := idem[job.key := r.stamp + DAY];
      if |idem| > SWEEP_ABOVE { Sweep(r.sweep); }
      if |queue| < capacity {
        queue := queue + [job];
        o := Enqueued;
      } else {
        o := DroppedQueueFull;
      }
    }
  }

  // ----- runs

  datatype Call = Call(key: Key, r: Readings)

  /** The clock never goes back, within a call and from one call to the next. */
  ghost predicate Timed(calls: seq<Call>) {
    && (forall i :: 0 <= i < |calls| ==> calls[i].r.Ordered())
    && (forall i, j :: 0 <= i < j < |calls| ==> calls[i].r.sweep <= calls[j].r.check)
  }

  function PoolAfter(calls: seq<Call>): map<Key, int> {
    if calls == [] then map[]
    else var c := calls[|calls| - 1]; Remembered(PoolAfter(calls[..|calls| - 1]), c.key, c.r)
  }

  function HistoryAfter(calls: seq<Call>): map<Key, int> {
    if calls == [] then map[]
    else var c := calls[|calls| - 1]; History(HistoryAfter(calls[..|calls| - 1]), c.key, c.r)
  }

  /** Whether the pool accepts call `i`. */
  predicate Accepted(calls: seq<Call>, i: nat)
    requires i < |calls|
  {
    !IsDuplicate(PoolAfter(calls[..i]), calls[i].key, calls[i].r.check)
  }

  /** The pool forgets only entries that were over before its last sweep. */
  ghost predicate ForgetsOnlyExpired(m: map<Key, int>, h: map<Key, int>, calls: seq<Call>) {
    && (forall k :: k in m ==> k in h && h[k] == m[k])
    && (forall k :: k in h && k !in m ==> calls != [] && h[k] < calls[|calls| - 1].r.sweep)
  }

  lemma {:induction false} PoolRefinesHistory(calls: seq<Call>)
    requires Timed(calls)
    ensures ForgetsOnlyExpired(PoolAfter(calls), HistoryAfter(calls), calls)
  {
    if calls != [] {
      var n := |calls| - 1;
      PoolRefinesHistory(calls[..n]);
      SameVerdict(calls, n);
    }
  }

  lemma {:induction false} SameVerdict(calls: seq<Call>, i: nat)
    requires Timed(calls) && i < |calls|
    requires ForgetsOnlyExpired(PoolAfter(calls[..i]), HistoryAfter(calls[..i]), calls[..i])
    ensures Accepted(calls, i) <==> !IsDuplicate(HistoryAfter(calls[..i]), calls[i].key, calls[i].r.check)
  {
    var m, h, c := PoolAfter(calls[..i]), HistoryAfter(calls[..i]), calls[i];
    if c.key in h && c.key !in m {
      assert calls[..i][|calls[..i]| - 1] == calls[i - 1];
    }
  }

  /** Eviction is invisible: every accept or duplicate decision is the one an unbounded history makes. */
  lemma EvictionIsInvisible(calls: seq<Call>, i: nat)
    requires Timed(calls) && i < |calls|
    ensures Accepted(calls, i) <==> !IsDuplicate(HistoryAfter(calls[..i]), calls[i].key, calls[i].r.check)
  {
    PoolRefinesHistory(calls[..i]);
    SameVerdict(calls, i);
  }

  /** Call `i` was accepted for key `k` and opened the window that ends at `end`. */
  predicate Opens(calls: seq<Call>, i: nat, k: Key, end: int) {
    i < |calls| && calls[i].key == k && Accepted(calls, i) && calls[i].r.stamp + DAY == end
  }

  lemma OpensInPrefix(calls: seq<Call>, n: nat, i: nat, k: Key, end: int)
    requires i < n <= |calls|
    ensures Opens(calls[..n], i, k, end) <==> Opens(calls, i, k, end)
  {
    assert calls[..n][..i] == calls[..i];
  }

  lemma HistoryStep(calls: seq<Call>, k: Key)
    requires Timed(calls) && calls != []
    ensures var n := |calls| - 1; var was, now := HistoryAfter(calls[..n]), HistoryAfter(calls);
      if calls[n].key == k && Accepted(calls, n)
      then k in now && now[k] == calls[n].r.stamp + DAY && (k in was ==> was[k] <= calls[n].r.check)
      else (k in now <==> k in was) && (k in now ==> now[k] == was[k])
  {
    EvictionIsInvisible(calls, |calls| - 1);
  }

  /** The history holds, for every key, the end of the window its last accepted call opened. */
  lemma {:induction false} HistoryIsLastAccepted(calls: seq<Call>, k: Key)
    requires Timed(calls)
    ensures k in HistoryAfter(calls) ==> exists i :: Opens(calls, i, k, HistoryAfter(calls)[k])
    ensures forall i, end :: Opens(calls, i, k, end) ==> k in HistoryAfter(calls) && end <= HistoryAfter(calls)[k]
  {
    if calls != [] {
      var n := |calls| - 1;
      var before := calls[..n];
      HistoryIsLastAccepted(before, k);
      HistoryStep(calls, k);
      hide HistoryAfter, Accepted;
      if k in HistoryAfter(calls) {
        if calls[n].key == k && Accepted(calls, n) {
          assert Opens(calls, n, k, HistoryAfter(calls)[k]);
        } else {
          var i :| Opens(before, i, k, HistoryAfter(before)[k]);
          OpensInPrefix(calls, n, i, k, HistoryAfter(before)[k]);
        }
      }
      forall i: nat, end | Opens(calls, i, k, end) ensures k in HistoryAfter(calls) && end <= HistoryAfter(calls)[k] {
        if i < n { OpensInPrefix(calls, n, i, k, end); }
      }
    }
  }

  /**
   * A call is turned away exactly when an earlier call with its key was accepted and the 24 hours that one
   * opened are not over; so two accepted calls with one key are at least 24 hours apart.
   */
  lemma DeduplicatedIff(calls: seq<Call>, j: nat)
    requires Timed(calls) && j < |calls|
    ensures !Accepted(calls, j) <==>
      exists i :: 0 <= i < j && calls[i].key == calls[j].key && Accepted(calls, i) && calls[j].r.check < calls[i].r.stamp + DAY
  {
    var before := calls[..j];
    HistoryIsLastAccepted(before, calls[j].key);
    EvictionIsInvisible(calls, j);
    hide Accepted, HistoryAfter;
    var k := calls[j].key;
    forall i: nat, end | i < j ensures Opens(before, i, k, end) <==> Opens(calls, i, k, end) {
      OpensInPrefix(calls, j, i, k, end);
    }
    if !Accepted(calls, j) {
      var i :| Opens(before, i, k, HistoryAfter(before)[k]);
      assert Opens(calls, i, k, HistoryAfter(before)[k]);
    }
    forall i | 0 <= i < j && calls[i].key == k && Accepted(calls, i) && calls[j].r.check < calls[i].r.stamp + DAY
      ensures !Accepted(calls, j)
    {
      assert Opens(calls, i, k, calls[i].r.stamp + DAY);
    }
  }

  // ----- the retry loop

  function Pow2(n: nat): nat { if n == 0 then 1 else 2 * Pow2(n - 1) }

  /** A value in a 64-bit signed integer. */
  function Wrap64(x: int): int {
    var m := x % 0x1_0000_0000_0000_0000;
    if m >= 0x8000_0000_0000_0000 then m - 0x1_0000_0000_0000_0000 else m
  }

  function Backoff(attempt: nat): int {
    var d := Wrap64(Wrap64(Pow2(attempt)) * SECOND);
    if d > 30 * SECOND then 30 * SECOND else d
  }

  /** How often a job with `retries` retries is run, counted from attempt `n` on. */
  function RunsFrom(retries: int, ok: nat -> bool, done: nat -> bool, n: nat): nat
    decreases retries + 1 - n
  {
    if n > retries then 0
    else if ok(n) || done(n) then 1
    else 1 + RunsFrom(retries, ok, done, n + 1)
  }

  /**
   * Runs a dequeued job that has a handler. `ok(n)` says whether attempt n succeeds and `done(n)` whether the
   * pool's context has ended when attempt n returns; a break inside a select leaves only the select, so a
   * context that ends before an attempt or during a wait does not by itself stop the loop.
   */
  method RunJob(retries: int, ok: nat -> bool, done: nat -> bool) returns (runs: nat, waits: seq<int>, succeeded: bool)
    ensures runs == RunsFrom(retries, ok, done, 0)
    ensures runs > 0 <==> retries >= 0
    ensures runs <= retries + 1 || runs == 0
    ensures forall n :: 0 <= n < runs - 1 ==> !ok(n) && !done(n)
    ensures 0 < runs <= retries ==> ok(runs - 1) || done(runs - 1)
    ensures succeeded <==> runs > 0 && ok(runs - 1)
    ensures |waits| == (if runs == 0 then 0 else runs - 1) && forall n :: 0 <= n < |waits| ==> waits[n] == Backoff(n)
  {
    runs, waits, succeeded := 0, [], false;
    var attempt := 0;
    while attempt <= retries
      invariant runs == attempt && !succeeded
      invariant RunsFrom(retries, ok, done, 0) == attempt + RunsFrom(retries, ok, done, attempt)
      invariant 0 <= attempt && (attempt == 0 || attempt <= retries + 1)
      invariant forall n :: 0 <= n < attempt ==> !ok(n) && !done(n)
      invariant |waits| == if attempt <= retries then attempt else if attempt == 0 then 0 else attempt - 1
      invariant forall n :: 0 <= n < |waits| ==> waits[n] == Backoff(n)
      decreases retries + 1 - attempt
    {
      runs := runs + 1;
      if ok(attempt) { succeeded := true; return; }
      if done(attempt) { return; }
      if attempt < retries { waits := waits + [Backoff(attempt)]; }
      attempt := attempt + 1;
    }
  }

  /** `n` attempts were made, none of which ended the loop but perhaps the last. */
  ghost predicate StopsAfter(retries: int, ok: nat -> bool, done: nat -> bool, n: nat) {
    && (n > 0 <==> retries >= 0) && (n > 0 ==> n <= retries + 1)
    && (forall i: nat :: i + 1 < n ==> !ok(i) && !done(i))
    && (0 < n <= retries ==> ok(n - 1) || done(n - 1))
  }

  lemma {:induction false} RunsFromStops(retries: int, ok: nat -> bool, done: nat -> bool, n: nat)
    requires n <= retries && forall i: nat :: i < n ==> !ok(i) && !done(i)
    ensures RunsFrom(retries, ok, done, n) > 0 && StopsAfter(retries, ok, done, n + RunsFrom(retries, ok, done, n))
    decreases retries - n
  {
    if !ok(n) && !done(n) && n < retries { RunsFromStops(retries, ok, done, n + 1); }
  }

  /**
   * What becomes of a job from Enqueue to its last attempt: it is run at least once exactly when its retry count is
   * not negative; zero counts as three; the attempts stop as StopsAfter says.
   */
  lemma QueuedJobRunsIff(job: Job, ok: nat -> bool, done: nat -> bool)
    ensures var runs := RunsFrom(Normalized(job).retries, ok, done, 0);
      && (runs > 0 <==> job.retries >= 0)
      && runs <= (if job.retries == 0 then 4 else if job.retries < 0 then 0 else job.retries + 1)
      && ((forall n: nat :: !ok(n) && !done(n)) ==>
            runs == if job.retries == 0 then 4 else if job.retries < 0 then 0 else job.retries + 1)
      && StopsAfter(Normalized(job).retries, ok, done, runs)
  {
    var retries := Normalized(job).retries;
    if retries >= 0 { RunsFromStops(retries, ok, done, 0); }
  }

  lemma {:induction false} Pow2Grows(a: nat, b: nat)
    requires a <= b
    ensures 1 <= Pow2(a) <= Pow2(b)
    decreases b
  {
    if a < b { Pow2Grows(a, b - 1); } else if a > 0 { Pow2Grows(a - 1, a - 1); }
  }

  lemma Pow2Of33()
    ensures Pow2(10) == 1024 && Pow2(33) == 0x2_0000_0000
  {
    assert Pow2(10) == 1024;
    assert Pow2(20) == 1024 * 1024;
    assert Pow2(30) == 1024 * 1024 * 1024;
  }

  lemma WrapFits(x: int)
    requires 0 <= x < 0x8000_0000_0000_0000
    ensures Wrap64(x) == x
  {
  }

  /** Up to attempt 33 the wait is the doubling number of seconds, at least one and at most thirty. */
  lemma BackoffInBounds(attempt: nat)
    requires attempt <= 33
    ensures Backoff(attempt) == (if Pow2(attempt) <= 30 then Pow2(attempt) * SECOND else 30 * SECOND)
    ensures SECOND <= Backoff(attempt) <= 30 * SECOND
  {
    hide Pow2, Wrap64;
    Pow2Grows(attempt, 33);
    Pow2Of33();
    WrapFits(Pow2(attempt));
    WrapFits(Pow2(attempt) * SECOND);
  }

  lemma {:induction false} Pow2Adds(a: nat, b: nat)
    ensures Pow2(a + b) == Pow2(a) * Pow2(b)
  {
    if b > 0 { Pow2Adds(a, b - 1); }
  }

  lemma Pow2Table()
    ensures Pow2(34) == 0x4_0000_0000 && Pow2(55) == 0x80_0000_0000_0000
  {
    Pow2Of33();
    Pow2Adds(34, 10); Pow2Adds(44, 10);
  }

  lemma WrapShifts(x: int, k: int)
    ensures Wrap64(x + k * 0x1_0000_0000_0000_0000) == Wrap64(x)
  {
  }

  /** From attempt 55 on the product overflows to nothing: the retries follow each other without a wait. */
  lemma LateRetriesDoNotWait(attempt: nat)
    requires attempt >= 55
    ensures Backoff(attempt) == 0
  {
    Pow2Adds(55, attempt - 55);
    Pow2Table();
    var p, q := Pow2(attempt), Pow2(attempt - 55);
    var w := Wrap64(p);
    var k := p / 0x1_0000_0000_0000_0000 + (if p % 0x1_0000_0000_0000_0000 >= 0x8000_0000_0000_0000 then 1 else 0);
    assert p == w + k * 0x1_0000_0000_0000_0000;
    var m := q * 1_953_125 - k * SECOND;
    assert w * SECOND == m * 0x1_0000_0000_0000_0000;
    WrapShifts(0, m);
  }

  /** The attempts from 34 on whose product wraps around to something above thirty seconds, and so is cut to it. */
  const LUCKY: set<nat> := {37, 41, 42, 45, 47, 50, 51, 53}

  /** The wrapped product of attempt 33, doubled `n` times with every overflow wrapped. */
  function Doubled(n: nat): int {
    if n == 0 then 8_589_934_592 * SECOND else Wrap64(2 * Doubled(n - 1))
  }

  /** Doubling before or after wrapping makes no difference. */
  lemma WrapDoubles(x: int)
    ensures Wrap64(2 * Wrap64(x)) == Wrap64(2 * x)
  {
    var m := 0x1_0000_0000_0000_0000;
    var k := x / m + (if x % m >= 0x8000_0000_0000_0000 then 1 else 0);
    assert x == Wrap64(x) + k * m;
    WrapShifts(2 * Wrap64(x), 2 * k);
  }

  lemma {:induction false} ProductIsDoubled(n: nat)
    requires n <= 21
    ensures Pow2(33 + n) <= 0x40_0000_0000_0000
    ensures Wrap64(Wrap64(Pow2(33 + n)) * SECOND) == Doubled(n)
  {
    if n == 0 {
      Pow2Of33();
    } else {
      ProductIsDoubled(n - 1);
      Pow2Grows(33 + n, 54);
      Pow2Of54();
      var p := Pow2(33 + n - 1);
      assert Pow2(33 + n) == 2 * p;
      hide Pow2, Wrap64;
      WrapFits(p);
      WrapFits(2 * p);
      WrapDoubles(p * SECOND);
      assert 2 * p * SECOND == 2 * (p * SECOND);
    }
  }

  lemma Pow2Of54()
    ensures Pow2(54) == 0x40_0000_0000_0000
  {
    Pow2Of33();
    Pow2Adds(33, 10); Pow2Adds(43, 10);
  }

  lemma DoubledTable()
    ensures forall n: nat :: 1 <= n <= 21 ==>
      if 33 + n in LUCKY then Doubled(n) > 30 * SECOND else Doubled(n) <= 0
  {
    assert Doubled(1) == -1_266_874_889_709_551_616;
    assert Doubled(2) == -2_533_749_779_419_103_232;
    assert Doubled(3) == -5_067_499_558_838_206_464;
    assert Doubled(4) == 8_311_744_956_033_138_688;
    assert Doubled(5) == -1_823_254_161_643_274_240;
    assert Doubled(6) == -3_646_508_323_286_548_480;
    assert Doubled(7) == -7_293_016_646_573_096_960;
    assert Doubled(8) == 3_860_710_780_563_357_696;
    assert Doubled(9) == 7_721_421_561_126_715_392;
    assert Doubled(10) == -3_003_900_951_456_120_832;
    assert Doubled(11) == -6_007_801_902_912_241_664;
    assert Doubled(12) == 6_431_140_267_885_068_288;
    assert Doubled(13) == -5_584_463_537_939_415_040;
    assert Doubled(14) == 7_277_816_997_830_721_536;
    assert Doubled(15) == -3_891_110_078_048_108_544;
    assert Doubled(16) == -7_782_220_156_096_217_088;
    assert Doubled(17) == 2_882_303_761_517_117_440;
    assert Doubled(18) == 5_764_607_523_034_234_880;
    assert Doubled(19) == -6_917_529_027_641_081_856;
    assert Doubled(20) == 4_611_686_018_427_387_904;
    assert Doubled(21) == -9_223_372_036_854_775_808;
  }

  /**
   * The wait before the next attempt lies between one and thirty seconds exactly up to attempt 33 and on eight later
   * attempts. On all others the 64-bit product has wrapped around to zero or less, and the timer does not wait.
   */
  lemma BackoffInBoundsIff(attempt: nat)
    ensures SECOND <= Backoff(attempt) <= 30 * SECOND <==> attempt <= 33 || attempt in LUCKY
    ensures attempt > 33 ==> if attempt in LUCKY then Backoff(attempt) == 30 * SECOND else Backoff(attempt) <= 0
  {
    hide Pow2, Wrap64;
    if attempt <= 33 {
      BackoffInBounds(attempt);
    } else if attempt >= 55 {
      LateRetriesDoNotWait(attempt);
    } else {
      ProductIsDoubled(attempt - 33);
      DoubledTable();
    }
  }

  /** So all waits of a job that keeps failing are in bounds exactly when it has at most 34 retries. */
  lemma AllWaitsInBoundsIff(retries: int)
    ensures (forall n: nat :: n < retries ==> SECOND <= Backoff(n) <= 30 * SECOND) <==> retries <= 34
  {
    hide Backoff;
    forall n: nat ensures SECOND <= Backoff(n) <= 30 * SECOND <==> n <= 33 || n in LUCKY { BackoffInBoundsIff(n); }
    assert !(SECOND <= Backoff(34) <= 30 * SECOND);
  }
}
