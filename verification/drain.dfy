/** The shutdown drain budget (internal/discovery/pipeline.go,
    shutdownDrainBudget) against the makespan of the pool it is meant to cover. */
module Drain {
  import opened Order

  // ----- the budget

  const SECOND := 1000000000
  const NO_DEADLINE_BUDGET := 180 * SECOND
  const GRACE := 15 * SECOND

  /** timeout is in nanoseconds, rate in starts per second. */
  datatype Config = Config(timeout: int, concurrency: int, rate: real, burst: int)

  function ShutdownDrainBudget(cfg: Config, submitted: nat): int {
    if cfg.timeout <= 0 then NO_DEADLINE_BUDGET
    else
      var c := if cfg.concurrency < 1 then 1 else cfg.concurrency;
      var waves := (submitted + c - 1) / c;
      var budget := waves * cfg.timeout;
      var burst := if cfg.burst < 1 then 1 else cfg.burst;
      var extra := submitted - burst;
      (if cfg.rate > 0.0 && extra > 0 then budget + (SECOND as real * extra as real / cfg.rate).Floor else budget) + GRACE
  }

  // ----- the pool

  // Jobs are listed in the order in which they start, whatever the order in which
  // they were submitted or taken: a free worker takes any job, and its waiters may
  // overtake each other at the bucket. Only no token is withheld: once all jobs are
  // submitted and some worker is free, the next one starts as soon as a token is
  // there. Times are real numbers of nanoseconds from the creation of the pool, when
  // the bucket is full.

  /** A start: by which worker, when, and how long the job then runs. */
  datatype Grant = Grant(worker: nat, start: real, length: real)

  /** A token bucket: rate is per nanosecond. */
  datatype Limit = Unlimited | Bucket(rate: real, burst: real)

  predicate ValidLimit(limit: Limit) {
    limit.Bucket? ==> limit.rate > 0.0 && limit.burst >= 1.0
  }

  function MaxR(a: real, b: real): real { if a < b then b else a }
  function MinR(a: real, b: real): real { if a < b then a else b }

  /** The bucket's level at time t, its last take having left level at last. */
  function LevelAt(limit: Limit, level: real, last: real, t: real): real
    requires limit.Bucket?
  {
    MinR(level + (t - last) * limit.rate, limit.burst)
  }

  /** One worker per entry of free: when it is free, and the last job it ran
      (negative while it ran none). starts are the jobs' start times; level and last
      are the bucket after the latest start. */
  datatype Pool = Pool(free: seq<real>, owner: seq<int>, starts: seq<real>, level: real, last: real)

  /** The first worker that is free earliest. */
  function Earliest(free: seq<real>): (w: nat)
    requires free != []
    ensures w < |free| && forall x :: 0 <= x < |free| ==> free[w] <= free[x]
  {
    if |free| == 1 then 0
    else
      var w := Earliest(free[..|free| - 1]);
      if free[|free| - 1] < free[w] then |free| - 1 else w
  }

  function Init(c: nat, limit: Limit): Pool {
    Pool(seq(c, i => 0.0), seq(c, i => -1 - i), [], if limit.Bucket? then limit.burst else 0.0, 0.0)
  }

  /** When a token is there for a job that waits from time t on. */
  function TokenTime(limit: Limit, level: real, last: real, t: real): real
    requires ValidLimit(limit)
  {
    if limit.Unlimited? || LevelAt(limit, level, last, t) >= 1.0 then t
    else t + (1.0 - LevelAt(limit, level, last, t)) / limit.rate
  }

  /** The level that a start at time t leaves. */
  function LevelLeft(limit: Limit, level: real, last: real, t: real): real {
    if limit.Unlimited? then level else LevelAt(limit, level, last, t) - 1.0
  }

  /** From when on the next job waits at the latest: a worker is free, all jobs are
      submitted, and those before it have started. */
  function WaitsFrom(p: Pool, until: real): real
    requires p.free != []
  {
    MaxR(MaxR(p.free[Earliest(p.free)], p.last), until)
  }

  /** The worker is free, the token is there, and it was not withheld. */
  predicate Fair(p: Pool, limit: Limit, until: real, g: Grant)
    requires ValidLimit(limit) && p.free != []
  {
    && g.worker < |p.free| && p.free[g.worker] <= g.start && p.last <= g.start
    && (limit.Bucket? ==> LevelAt(limit, p.level, p.last, g.start) >= 1.0)
    && g.start <= TokenTime(limit, p.level, p.last, WaitsFrom(p, until))
  }

  function Begin(p: Pool, limit: Limit, g: Grant): Pool
    requires g.worker < |p.free| && |p.owner| == |p.free|
  {
    Pool(p.free[g.worker := g.start + g.length], p.owner[g.worker := |p.starts|], p.starts + [g.start],
         LevelLeft(limit, p.level, p.last, g.start), g.start)
  }

  predicate ByWorkers(c: nat, gs: seq<Grant>) {
    forall i :: 0 <= i < |gs| ==> gs[i].worker < c
  }

  function Begun(c: nat, limit: Limit, gs: seq<Grant>): (p: Pool)
    requires c > 0 && ByWorkers(c, gs)
    ensures |p.free| == c == |p.owner| && |p.starts| == |gs|
  {
    if gs == [] then Init(c, limit)
    else Begin(Begun(c, limit, gs[..|gs| - 1]), limit, gs[|gs| - 1])
  }

  /** Jobs that run within the timeout, all submitted by some time, and started
      without withholding a token. */
  ghost predicate Scheduled(c: nat, limit: Limit, timeout: real, until: real, gs: seq<Grant>)
    requires c > 0 && ValidLimit(limit)
  {
    && ByWorkers(c, gs)
    && (gs == [] || (Scheduled(c, limit, timeout, until, gs[..|gs| - 1])
                     && Fair(Begun(c, limit, gs[..|gs| - 1]), limit, until, gs[|gs| - 1])
                     && gs[|gs| - 1].length <= timeout))
  }

  function Finish(g: Grant): real {
    g.start + g.length
  }

  // ----- the invariant

  /** How long k more tokens take when x are needed beyond the bucket. */
  function Excess(limit: Limit, x: real): real
    requires ValidLimit(limit)
  {
    if limit.Unlimited? then 0.0 else MaxR(0.0, x) / limit.rate
  }

  /** The jobs that fit before job i, c at a time. */
  function Wave(c: nat, timeout: real, i: nat): real
    requires c > 0
  {
    (i / c) as real * timeout
  }

  /** Job i's share of the bound, for k tokens after its own. */
  function Bound(c: nat, limit: Limit, timeout: real, until: real, i: nat, k: nat): real
    requires c > 0 && ValidLimit(limit)
  {
    until + Wave(c, timeout, i) + Excess(limit, (i + 1 + k) as real - (if limit.Bucket? then limit.burst else 0.0))
  }

  ghost predicate Workers(c: nat, timeout: real, until: real, p: Pool) {
    && |p.free| == c == |p.owner|
    && (forall w :: 0 <= w < c ==> p.owner[w] < |p.starts|)
    && (forall w, x :: 0 <= w < x < c ==> p.owner[w] != p.owner[x])
    && (forall w :: 0 <= w < c ==> p.free[w] <= (if p.owner[w] < 0 then until else p.starts[p.owner[w]] + timeout))
  }

  /** Every start is within its bound; the latest with k tokens to spare. */
  ghost predicate Timely(c: nat, limit: Limit, timeout: real, until: real, p: Pool)
    requires c > 0 && ValidLimit(limit)
  {
    && p.last >= 0.0
    && (limit.Bucket? ==> p.level <= limit.burst)
    && (forall i :: 0 <= i < |p.starts| ==> p.starts[i] <= Bound(c, limit, timeout, until, i, 0))
    && (p.starts == [] ==> p.last == 0.0 && (limit.Bucket? ==> p.level == limit.burst))
    && (p.starts != [] ==> AlwaysInTime(c, limit, timeout, until, p.last, p.level, |p.starts| - 1))
  }

  ghost predicate AlwaysInTime(c: nat, limit: Limit, timeout: real, until: real, last: real, level: real, i: nat)
    requires c > 0 && ValidLimit(limit)
  {
    forall k: nat :: InTime(c, limit, timeout, until, last, level, i, k)
  }

  /** With k tokens to come after job i, which left the bucket at level. */
  ghost predicate InTime(c: nat, limit: Limit, timeout: real, until: real, last: real, level: real, i: nat, k: nat)
    requires c > 0 && ValidLimit(limit)
  {
    last + Excess(limit, k as real - level) <= Bound(c, limit, timeout, until, i, k)
  }

  // ----- pigeonhole

  lemma {:induction false} RangeSize(S: set<int>, lo: int, hi: int)
    requires forall x :: x in S ==> lo <= x < hi
    requires lo <= hi
    ensures |S| <= hi - lo
    decreases hi - lo
  {
    if lo < hi {
      var T := S - {lo};
      RangeSize(T, lo + 1, hi);
      assert S <= T + {lo};
      assert |S| <= |T + {lo}| <= |T| + 1 by { SetSizes(S, T + {lo}); }
    } else {
      assert S == {};
    }
  }

  lemma {:induction false} DistinctSize(s: seq<int>)
    requires Distinct(s)
    ensures |Elements(s)| == |s|
  {
    if s != [] {
      DistinctSize(s[1..]);
      assert s[0] !in s[1..];
      assert Elements(s) == {s[0]} + Elements(s[1..]);
    }
  }

  /** Of c workers some last took a job at least c before the next one. */
  lemma SomeWorkerIsOld(owner: seq<int>, n: nat) returns (w: nat)
    requires owner != [] && Distinct(owner) && forall x :: x in owner ==> x < n
    ensures w < |owner| && owner[w] <= n - |owner|
  {
    if forall x :: 0 <= x < |owner| ==> owner[x] > n - |owner| {
      DistinctSize(owner);
      RangeSize(Elements(owner), n - |owner| + 1, n);
      assert false;
    }
    w :| 0 <= w < |owner| && owner[w] <= n - |owner|;
  }

  // ----- one job

  lemma DivAdd(a: real, b: real, r: real)
    requires r > 0.0
    ensures a / r + b / r == (a + b) / r
  {
  }

  lemma DivMonotone(a: real, b: real, r: real)
    requires r > 0.0 && a <= b
    ensures a / r <= b / r
  {
  }

  lemma MulDiv(x: real, r: real)
    requires r > 0.0
    ensures (x * r) / r == x
  {
  }

  lemma ExcessMonotone(limit: Limit, x: real, y: real)
    requires ValidLimit(limit) && x <= y
    ensures 0.0 <= Excess(limit, x) <= Excess(limit, y)
  {
    if limit.Bucket? {
      DivMonotone(0.0, MaxR(0.0, x), limit.rate);
      DivMonotone(MaxR(0.0, x), MaxR(0.0, y), limit.rate);
    }
  }

  /** Two shares of the burst cost no more than one. */
  lemma ExcessSplit(limit: Limit, x: real, y: real, z: real)
    requires limit.Bucket? && ValidLimit(limit) && x <= z && y <= z && x + y <= z
    ensures Excess(limit, x) + Excess(limit, y) <= Excess(limit, z)
  {
    DivAdd(MaxR(0.0, x), MaxR(0.0, y), limit.rate);
    DivMonotone(MaxR(0.0, x) + MaxR(0.0, y), MaxR(0.0, z), limit.rate);
  }

  /** When the k-th token after the next may be there, if the next is taken at t. */
  function Horizon(limit: Limit, level: real, last: real, t: real, k: nat): real
    requires limit.Bucket? && ValidLimit(limit)
  {
    t + Excess(limit, (k + 1) as real - LevelAt(limit, level, last, t))
  }

  /** Taking it sooner costs nothing later. */
  lemma HorizonGrows(limit: Limit, level: real, last: real, s: real, t: real, k: nat)
    requires limit.Bucket? && ValidLimit(limit) && s <= t
    ensures Horizon(limit, level, last, s, k) <= Horizon(limit, level, last, t, k)
  {
    var r := limit.rate;
    var x, y := LevelAt(limit, level, last, s), LevelAt(limit, level, last, t);
    var gained := (t - s) * r;
    Spread(t, s, r);
    Spread(t, last, r);
    Spread(s, last, r);
    ScaleMonotone(0.0, t - s, r);
    assert y <= x + gained;
    MulDiv(t - s, r);
    DivAdd(MaxR(0.0, (k + 1) as real - y), gained, r);
    DivMonotone(MaxR(0.0, (k + 1) as real - x), MaxR(0.0, (k + 1) as real - y) + gained, r);
  }

  /** Nor does waiting for the token. */
  lemma HorizonAtToken(limit: Limit, level: real, last: real, t: real, k: nat)
    requires limit.Bucket? && ValidLimit(limit)
    ensures Horizon(limit, level, last, TokenTime(limit, level, last, t), k) == Horizon(limit, level, last, t, k)
  {
    var m := LevelAt(limit, level, last, t);
    if m < 1.0 {
      LevelAtToken(limit, level, last, t);
      DivAdd(1.0 - m, k as real, limit.rate);
    }
  }

  lemma LevelAtToken(limit: Limit, level: real, last: real, t: real)
    requires limit.Bucket? && ValidLimit(limit) && LevelAt(limit, level, last, t) < 1.0
    ensures LevelAt(limit, level, last, TokenTime(limit, level, last, t)) == 1.0
  {
    var wait := (1.0 - LevelAt(limit, level, last, t)) / limit.rate;
    assert wait * limit.rate == 1.0 - LevelAt(limit, level, last, t);
    Spread(t + wait, last, limit.rate);
    Spread(t, last, limit.rate);
    assert (t + wait) * limit.rate == t * limit.rate + wait * limit.rate;
  }

  /** While the bucket is not full, waiting for a worker costs no tokens. */
  lemma RefillWhileWaiting(limit: Limit, level: real, last: real, t: real, k: nat)
    requires limit.Bucket? && ValidLimit(limit) && last <= t && level + (t - last) * limit.rate < limit.burst
    requires (k + 1) as real >= level + (t - last) * limit.rate
    ensures t + Excess(limit, (k + 1) as real - LevelAt(limit, level, last, t)) == last + Excess(limit, (k + 1) as real - level)
  {
    var r := limit.rate;
    var gained := (t - last) * r;
    assert gained >= 0.0;
    MulDiv(t - last, r);
    DivAdd((k + 1) as real - level - gained, gained, r);
  }

  lemma NextWave(i: nat, j: nat, c: nat, timeout: real)
    requires c > 0 && j + c <= i && timeout >= 0.0
    ensures Wave(c, timeout, j) + timeout <= Wave(c, timeout, i)
  {
    DivStep(j, c);
    DivOrder(j + c, i, c);
    ScaleMonotone((j / c) as real + 1.0, (i / c) as real, timeout);
  }

  lemma WavesGrow(i: nat, j: nat, c: nat, timeout: real)
    requires c > 0 && i <= j && timeout >= 0.0
    ensures 0.0 <= Wave(c, timeout, i) <= Wave(c, timeout, j)
  {
    DivOrder(i, j, c);
    ScaleMonotone(0.0, (i / c) as real, timeout);
    ScaleMonotone((i / c) as real, (j / c) as real, timeout);
  }

  lemma ScaleMonotone(x: real, y: real, t: real)
    requires x <= y && t >= 0.0
    ensures x * t <= y * t
  {
  }

  lemma DivStep(j: nat, c: nat)
    requires c > 0
    ensures (j + c) / c == j / c + 1
  {
    Quotient(j + c, c, j / c + 1, j % c);
  }

  lemma MulStrict(c: nat, x: int, y: int)
    requires c > 0 && x < y
    ensures c * x + c <= c * y
    decreases y - x
  {
    if x + 1 < y {
      MulStrict(c, x, y - 1);
    }
    assert c * y == c * (y - 1) + c;
  }

  lemma Quotient(n: nat, c: nat, q: nat, m: nat)
    requires c > 0 && n == c * q + m && m < c
    ensures n / c == q
  {
    if n / c < q {
      MulStrict(c, n / c, q);
    } else if n / c > q {
      MulStrict(c, q, n / c);
    }
  }

  lemma DivOrder(a: nat, b: nat, c: nat)
    requires c > 0 && a <= b
    ensures a / c <= b / c
  {
    if a / c > b / c {
      MulStrict(c, b / c, a / c);
    }
  }

  // ----- every job

  /** The worker that is free first is free after a job at least c before. */
  lemma NextWorker(c: nat, limit: Limit, timeout: real, until: real, p: Pool) returns (j: int)
    requires c > 0 && ValidLimit(limit) && timeout >= 0.0 && until >= 0.0 && Workers(c, timeout, until, p)
    ensures j < |p.starts| && j + c <= |p.starts|
    ensures p.free[Earliest(p.free)] <= (if j < 0 then until else p.starts[j] + timeout)
  {
    var w := SomeWorkerIsOld(p.owner, |p.starts|);
    j := p.owner[w];
  }

  /** With job n started by when a token is there for one that waits from time t on,
      k tokens to spare: the latest start so far and the worker's last job both leave
      room. */
  lemma StartInTime(c: nat, limit: Limit, timeout: real, until: real, p: Pool, j: int, t: real, s: real, k: nat)
    requires c > 0 && ValidLimit(limit) && timeout >= 0.0 && until >= 0.0 && Timely(c, limit, timeout, until, p)
    requires j < |p.starts| && j + c <= |p.starts|
    requires p.last <= t && (t == p.last || t <= until || (j >= 0 && t <= p.starts[j] + timeout))
    requires s <= TokenTime(limit, p.level, p.last, t)
    ensures InTime(c, limit, timeout, until, s, LevelLeft(limit, p.level, p.last, s), |p.starts|, k)
  {
    var n := |p.starts|;
    WavesGrow(0, n, c, timeout);
    if limit.Unlimited? {
      UnlimitedStart(c, limit, timeout, until, p, j, t);
    } else {
      HorizonGrows(limit, p.level, p.last, s, TokenTime(limit, p.level, p.last, t), k);
      HorizonAtToken(limit, p.level, p.last, t, k);
      if n == 0 {
        FullAtFirst(limit, p.level, p.last, t);
      } else {
        WavesGrow(n - 1, n, c, timeout);
        BucketStart(c, limit, timeout, until, p, j, t, k);
      }
      assert Horizon(limit, p.level, p.last, s, k) <= Bound(c, limit, timeout, until, n, k);
    }
  }

  /** Nothing was taken yet, so the bucket is still full. */
  lemma FullAtFirst(limit: Limit, level: real, last: real, t: real)
    requires limit.Bucket? && ValidLimit(limit) && level == limit.burst && last == 0.0 && t >= last
    ensures LevelAt(limit, level, last, t) == limit.burst
  {
    assert (t - last) * limit.rate >= 0.0;
  }

  lemma UnlimitedStart(c: nat, limit: Limit, timeout: real, until: real, p: Pool, j: int, t: real)
    requires c > 0 && limit.Unlimited? && timeout >= 0.0 && until >= 0.0 && Timely(c, limit, timeout, until, p)
    requires j < |p.starts| && j + c <= |p.starts|
    requires p.last <= t && (t == p.last || t <= until || (j >= 0 && t <= p.starts[j] + timeout))
    ensures t <= until + Wave(c, timeout, |p.starts|)
  {
    var n := |p.starts|;
    WavesGrow(0, n, c, timeout);
    if t == p.last {
      if n > 0 {
        WavesGrow(n - 1, n, c, timeout);
        assert InTime(c, limit, timeout, until, p.last, p.level, n - 1, 0);
      }
    } else if t > until {
      NextWave(n, j, c, timeout);
      assert p.starts[j] <= Bound(c, limit, timeout, until, j, 0);
    }
  }

  lemma BucketStart(c: nat, limit: Limit, timeout: real, until: real, p: Pool, j: int, t: real, k: nat)
    requires c > 0 && limit.Bucket? && ValidLimit(limit) && timeout >= 0.0 && until >= 0.0 && Timely(c, limit, timeout, until, p) && p.starts != []
    requires j < |p.starts| && j + c <= |p.starts| && Wave(c, timeout, |p.starts| - 1) <= Wave(c, timeout, |p.starts|)
    requires p.last <= t && (t == p.last || t <= until || (j >= 0 && t <= p.starts[j] + timeout))
    ensures t + Excess(limit, (k + 1) as real - LevelAt(limit, p.level, p.last, t)) <= Bound(c, limit, timeout, until, |p.starts|, k)
  {
    if Refilling(limit, p.level, p.last, t, k) || t == p.last {
      SinceLastStart(limit, p.level, p.last, t, k);
      BoundShift(c, limit, timeout, until, p, k);
    } else {
      WorkerStart(c, limit, timeout, until, p, j, t, k);
      TokensEnough(limit, p.level, p.last, t, k);
    }
  }

  lemma SinceLastStart(limit: Limit, level: real, last: real, t: real, k: nat)
    requires limit.Bucket? && ValidLimit(limit) && last <= t && level <= limit.burst
    requires Refilling(limit, level, last, t, k) || t == last
    ensures t + Excess(limit, (k + 1) as real - LevelAt(limit, level, last, t)) == last + Excess(limit, (k + 1) as real - level)
  {
    if Refilling(limit, level, last, t, k) {
      RefillWhileWaiting(limit, level, last, t, k);
    } else {
      StillLevel(limit, level, last, t, k);
    }
  }

  lemma BoundShift(c: nat, limit: Limit, timeout: real, until: real, p: Pool, k: nat)
    requires c > 0 && limit.Bucket? && ValidLimit(limit) && Timely(c, limit, timeout, until, p) && p.starts != []
    requires Wave(c, timeout, |p.starts| - 1) <= Wave(c, timeout, |p.starts|)
    ensures p.last + Excess(limit, (k + 1) as real - p.level) <= Bound(c, limit, timeout, until, |p.starts|, k)
  {
    assert InTime(c, limit, timeout, until, p.last, p.level, |p.starts| - 1, k + 1);
  }

  /** At time t the bucket is not full and k + 1 tokens are not in it yet. */
  predicate Refilling(limit: Limit, level: real, last: real, t: real, k: nat)
    requires limit.Bucket?
  {
    level + (t - last) * limit.rate < limit.burst && (k + 1) as real >= level + (t - last) * limit.rate
  }

  lemma StillLevel(limit: Limit, level: real, last: real, t: real, k: nat)
    requires limit.Bucket? && ValidLimit(limit) && t == last && level <= limit.burst
    ensures t + Excess(limit, (k + 1) as real - LevelAt(limit, level, last, t)) == last + Excess(limit, (k + 1) as real - level)
  {
    assert (t - last) * limit.rate == 0.0;
  }

  lemma TokensEnough(limit: Limit, level: real, last: real, t: real, k: nat)
    requires limit.Bucket? && ValidLimit(limit) && !Refilling(limit, level, last, t, k)
    ensures Excess(limit, (k + 1) as real - LevelAt(limit, level, last, t)) <= Excess(limit, (k + 1) as real - limit.burst)
  {
    var gained := (t - last) * limit.rate;
    if level + gained < limit.burst {
      ExcessMonotone(limit, (k + 1) as real - limit.burst, (k + 1) as real - limit.burst);
    }
  }

  /** The bucket is full or has tokens enough: only the worker matters. */
  lemma WorkerStart(c: nat, limit: Limit, timeout: real, until: real, p: Pool, j: int, t: real, k: nat)
    requires c > 0 && limit.Bucket? && ValidLimit(limit) && timeout >= 0.0 && until >= 0.0 && Timely(c, limit, timeout, until, p) && p.starts != []
    requires j < |p.starts| && j + c <= |p.starts|
    requires t <= until || (j >= 0 && t <= p.starts[j] + timeout)
    ensures t + Excess(limit, (k + 1) as real - limit.burst) <= Bound(c, limit, timeout, until, |p.starts|, k)
  {
    var n := |p.starts|;
    var spare, total := (k + 1) as real - limit.burst, (n + 1 + k) as real - limit.burst;
    if t <= until {
      WavesGrow(0, n, c, timeout);
      ExcessMonotone(limit, spare, total);
    } else {
      NextWave(n, j, c, timeout);
      assert p.starts[j] <= Bound(c, limit, timeout, until, j, 0);
      ExcessSplit(limit, (j + 1) as real - limit.burst, spare, total);
    }
  }

  lemma JobKeepsWorkers(c: nat, limit: Limit, timeout: real, until: real, p: Pool, g: Grant)
    requires c > 0 && Workers(c, timeout, until, p) && g.worker < c && g.length <= timeout
    ensures Workers(c, timeout, until, Begin(p, limit, g))
  {
    var q := Begin(p, limit, g);
    forall x | 0 <= x < c ensures q.free[x] <= (if q.owner[x] < 0 then until else q.starts[q.owner[x]] + timeout) {
      if x != g.worker {
        assert q.owner[x] == p.owner[x] && q.free[x] == p.free[x];
      }
    }
  }

  /** The next job to start does so within its share, and leaves tokens enough to those
      after it. */
  lemma JobKeepsTimely(c: nat, limit: Limit, timeout: real, until: real, p: Pool, g: Grant)
    requires c > 0 && ValidLimit(limit) && timeout >= 0.0 && until >= 0.0 && Workers(c, timeout, until, p) && Timely(c, limit, timeout, until, p)
    requires Fair(p, limit, until, g)
    ensures Timely(c, limit, timeout, until, Begin(p, limit, g))
  {
    var q, n := Begin(p, limit, g), |p.starts|;
    var j := NextWorker(c, limit, timeout, until, p);
    var t := WaitsFrom(p, until);
    forall k: nat ensures InTime(c, limit, timeout, until, q.last, q.level, n, k) {
      StartInTime(c, limit, timeout, until, p, j, t, g.start, k);
    }
    assert InTime(c, limit, timeout, until, q.last, q.level, n, 0);
    ExcessMonotone(limit, 0.0 - q.level, 0.0 - q.level);
    forall i | 0 <= i < |q.starts| ensures q.starts[i] <= Bound(c, limit, timeout, until, i, 0) {
      if i < n {
        assert q.starts[i] == p.starts[i];
      }
    }
  }

  lemma {:induction false} EveryStartTimely(c: nat, limit: Limit, timeout: real, until: real, gs: seq<Grant>)
    requires c > 0 && ValidLimit(limit) && timeout >= 0.0 && until >= 0.0 && Scheduled(c, limit, timeout, until, gs)
    ensures Workers(c, timeout, until, Begun(c, limit, gs)) && Timely(c, limit, timeout, until, Begun(c, limit, gs))
  {
    if gs != [] {
      var n := |gs| - 1;
      var p := Begun(c, limit, gs[..n]);
      EveryStartTimely(c, limit, timeout, until, gs[..n]);
      JobKeepsWorkers(c, limit, timeout, until, p, gs[n]);
      JobKeepsTimely(c, limit, timeout, until, p, gs[n]);
    }
  }

  lemma {:induction false} StartsListed(c: nat, limit: Limit, gs: seq<Grant>, i: nat)
    requires c > 0 && ByWorkers(c, gs) && i < |gs|
    ensures Begun(c, limit, gs).starts[i] == gs[i].start
  {
    var n := |gs| - 1;
    if i < n {
      StartsListed(c, limit, gs[..n], i);
    }
  }

  lemma {:induction false} LengthsBounded(c: nat, limit: Limit, timeout: real, until: real, gs: seq<Grant>, i: nat)
    requires c > 0 && ValidLimit(limit) && Scheduled(c, limit, timeout, until, gs) && i < |gs|
    ensures gs[i].length <= timeout
  {
    var n := |gs| - 1;
    if i < n {
      LengthsBounded(c, limit, timeout, until, gs[..n], i);
    }
  }

  // ----- the main results

  function Waves(n: nat, c: nat): nat
    requires c > 0
  {
    (n + c - 1) / c
  }

  /** ceil(n / c) timeouts. */
  function Total(c: nat, timeout: real, n: nat): real
    requires c > 0
  {
    Waves(n, c) as real * timeout
  }

  lemma WaveCount(n: nat, c: nat, i: nat, timeout: real)
    requires c > 0 && i < n && timeout >= 0.0
    ensures Wave(c, timeout, i) + timeout <= Total(c, timeout, n)
  {
    DivStep(i, c);
    DivOrder(i + c, n + c - 1, c);
    ScaleMonotone((i / c) as real + 1.0, Waves(n, c) as real, timeout);
  }

  /** However long each of n jobs submitted by some time runs within the timeout, and
      in whatever order they are taken and get their tokens, every one finishes by
      ceil(n / c) timeouts after that time, plus the time the tokens beyond the burst
      take. */
  lemma EveryJobFinishes(c: nat, limit: Limit, timeout: real, until: real, gs: seq<Grant>, i: nat)
    requires c > 0 && ValidLimit(limit) && timeout >= 0.0 && until >= 0.0 && i < |gs| && Scheduled(c, limit, timeout, until, gs)
    ensures Finish(gs[i]) <= until + Total(c, timeout, |gs|) + Over(limit, |gs|)
  {
    JobStarts(c, limit, timeout, until, gs, i);
    LengthsBounded(c, limit, timeout, until, gs, i);
    WaveCount(|gs|, c, i, timeout);
    Beyond(limit, i + 1, |gs|);
    Chain(gs[i].start, until + Wave(c, timeout, i), Over(limit, i + 1), gs[i].length, timeout,
      until + Total(c, timeout, |gs|), Over(limit, |gs|));
  }

  lemma Chain(start: real, wave: real, wait: real, length: real, timeout: real, waves: real, waits: real)
    requires start <= wave + wait && length <= timeout && wave + timeout <= waves && wait <= waits
    ensures start + length <= waves + waits
  {
  }

  /** How long the tokens beyond the burst take, of n in all. */
  function Over(limit: Limit, n: nat): real
    requires ValidLimit(limit)
  {
    Excess(limit, n as real - (if limit.Bucket? then limit.burst else 0.0))
  }

  lemma Beyond(limit: Limit, m: nat, n: nat)
    requires ValidLimit(limit) && m <= n
    ensures Over(limit, m) <= Over(limit, n)
  {
    var b := if limit.Bucket? then limit.burst else 0.0;
    ExcessMonotone(limit, m as real - b, n as real - b);
  }

  lemma JobStarts(c: nat, limit: Limit, timeout: real, until: real, gs: seq<Grant>, i: nat)
    requires c > 0 && ValidLimit(limit) && timeout >= 0.0 && until >= 0.0 && i < |gs| && Scheduled(c, limit, timeout, until, gs)
    ensures gs[i].start <= until + Wave(c, timeout, i) + Over(limit, i + 1)
  {
    EveryStartTimely(c, limit, timeout, until, gs);
    StartsListed(c, limit, gs, i);
    assert Begun(c, limit, gs).starts[i] <= Bound(c, limit, timeout, until, i, 0);
  }

  /** The pool of a discovery run. */
  function Workforce(cfg: Config): nat { if cfg.concurrency < 1 then 1 else cfg.concurrency }

  function LimitOf(cfg: Config): (l: Limit)
    ensures ValidLimit(l)
  {
    if cfg.rate > 0.0 then Bucket(cfg.rate / SECOND as real, (if cfg.burst < 1 then 1 else cfg.burst) as real) else Unlimited
  }

  lemma RateInNanoseconds(x: real, rate: real)
    requires rate > 0.0
    ensures x / (rate / SECOND as real) == SECOND as real * x / rate
  {
    var s := SECOND as real;
    assert (rate / s) * s == rate;
  }

  /** What the budget amounts to, the grace period aside. */
  lemma BudgetIsBound(cfg: Config, n: nat)
    requires cfg.timeout > 0
    ensures ShutdownDrainBudget(cfg, n) as real
      >= (Waves(n, Workforce(cfg)) * cfg.timeout) as real + Over(LimitOf(cfg), n)
  {
    if cfg.rate > 0.0 {
      var burst := if cfg.burst < 1 then 1 else cfg.burst;
      RateInNanoseconds(MaxR(0.0, n as real - burst as real), cfg.rate);
      if n - burst <= 0 {
        NoExcess(cfg.rate);
      }
    }
  }

  lemma NoExcess(rate: real)
    requires rate > 0.0
    ensures SECOND as real * 0.0 / rate == 0.0
  {
  }

  /** The budget covers every clean completion: when Shutdown is called at the time
      until, whatever is then running, queued or spent of the burst, no job with a
      deadline is still running when the drain would be forced. */
  lemma BudgetCoversDrain(cfg: Config, until: real, gs: seq<Grant>, i: nat)
    requires cfg.timeout > 0 && until >= 0.0 && i < |gs|
    requires Scheduled(Workforce(cfg), LimitOf(cfg), cfg.timeout as real, until, gs)
    ensures Finish(gs[i]) <= until + ShutdownDrainBudget(cfg, |gs|) as real
  {
    EveryJobFinishes(Workforce(cfg), LimitOf(cfg), cfg.timeout as real, until, gs, i);
    TotalIsWhole(Workforce(cfg), cfg.timeout, |gs|);
    BudgetIsBound(cfg, |gs|);
  }

  lemma TotalIsWhole(c: nat, timeout: nat, n: nat)
    requires c > 0
    ensures Total(c, timeout as real, n) == (Waves(n, c) * timeout) as real
  {
    ProductAsReal(Waves(n, c), timeout);
  }

  lemma ProductAsReal(x: int, y: int)
    ensures (x * y) as real == x as real * y as real
  {
  }

  /** Without a deadline the drain waits three minutes. */
  lemma NoDeadlineWindow(cfg: Config, n: nat)
    requires cfg.timeout <= 0
    ensures ShutdownDrainBudget(cfg, n) == 180000000000
  {
  }

  /** With one it is the bound and fifteen seconds of grace, in whole nanoseconds. */
  lemma BudgetIsNoMore(cfg: Config, n: nat)
    requires cfg.timeout > 0
    ensures var bound := Total(Workforce(cfg), cfg.timeout as real, n) + Over(LimitOf(cfg), n) + 15000000000.0;
      bound - 1.0 < ShutdownDrainBudget(cfg, n) as real <= bound
  {
    TotalIsWhole(Workforce(cfg), cfg.timeout, n);
    if cfg.rate > 0.0 {
      var burst := if cfg.burst < 1 then 1 else cfg.burst;
      RateInNanoseconds(MaxR(0.0, n as real - burst as real), cfg.rate);
      NoExcess(cfg.rate);
    }
  }

  // ----- the bound is attained

  lemma OneMoreScheduled(c: nat, limit: Limit, timeout: real, until: real, gs: seq<Grant>, g: Grant)
    requires c > 0 && ValidLimit(limit) && Scheduled(c, limit, timeout, until, gs)
    requires g.worker < c && g.length <= timeout && Fair(Begun(c, limit, gs), limit, until, g)
    ensures ByWorkers(c, gs + [g]) && Scheduled(c, limit, timeout, until, gs + [g])
    ensures Begun(c, limit, gs + [g]) == Begin(Begun(c, limit, gs), limit, g)
  {
    assert (gs + [g])[..|gs|] == gs;
  }

  /** Job i goes to worker i modulo c, as soon as its turn has come. */
  function Turn(c: nat, timeout: real, until: real, i: nat): (g: Grant)
    requires c > 0
    ensures g.worker < c
  {
    Grant(i % c, until + Wave(c, timeout, i), timeout)
  }

  function RoundRobin(c: nat, timeout: real, until: real, n: nat): (gs: seq<Grant>)
    requires c > 0
    ensures |gs| == n && ByWorkers(c, gs)
  {
    if n == 0 then [] else RoundRobin(c, timeout, until, n - 1) + [Turn(c, timeout, until, n - 1)]
  }

  /** q rounds are over and m workers have begun the next. */
  ghost predicate InRound(c: nat, timeout: real, until: real, p: Pool, q: nat, m: nat) {
    && |p.free| == c == |p.owner| && m < c && p.last <= until + q as real * timeout
    && (forall w :: 0 <= w < m ==> p.free[w] == until + (q + 1) as real * timeout)
    && (forall w :: m <= w < c ==> p.free[w] == (if q == 0 then 0.0 else until + q as real * timeout))
  }

  lemma RoundIsFair(c: nat, timeout: real, until: real, p: Pool, q: nat, m: nat)
    requires timeout >= 0.0 && until >= 0.0 && InRound(c, timeout, until, p, q, m)
    ensures Fair(p, Unlimited, until, Grant(m, until + q as real * timeout, timeout))
  {
    ScaleMonotone(0.0, q as real, timeout);
    ScaleMonotone(q as real, (q + 1) as real, timeout);
    assert q == 0 ==> until + q as real * timeout == until;
  }

  lemma RoundGoesOn(c: nat, timeout: real, until: real, p: Pool, q: nat, m: nat)
    requires timeout >= 0.0 && until >= 0.0 && InRound(c, timeout, until, p, q, m)
    ensures var p' := Begin(p, Unlimited, Grant(m, until + q as real * timeout, timeout));
      if m + 1 < c then InRound(c, timeout, until, p', q, m + 1) else InRound(c, timeout, until, p', q + 1, 0)
  {
    ScaleMonotone(q as real, (q + 1) as real, timeout);
    assert (q + 1) as real * timeout == q as real * timeout + timeout;
  }

  /** n jobs have begun in turn. */
  ghost predicate AfterTurns(c: nat, timeout: real, until: real, p: Pool, n: nat)
    requires c > 0
  {
    InRound(c, timeout, until, p, n / c, n % c)
  }

  lemma TurnIsFair(c: nat, timeout: real, until: real, p: Pool, n: nat)
    requires c > 0 && timeout >= 0.0 && until >= 0.0 && AfterTurns(c, timeout, until, p, n)
    ensures var g := Turn(c, timeout, until, n);
      Fair(p, Unlimited, until, g) && AfterTurns(c, timeout, until, Begin(p, Unlimited, g), n + 1)
  {
    var q, m, g := n / c, n % c, Turn(c, timeout, until, n);
    TurnIs(c, timeout, until, n, q, m);
    RoundIsFair(c, timeout, until, p, q, m);
    RoundGoesOn(c, timeout, until, p, q, m);
    NextTurn(c, timeout, until, Begin(p, Unlimited, g), n, q, m);
  }

  lemma TurnIs(c: nat, timeout: real, until: real, n: nat, q: nat, m: nat)
    requires c > 0 && q == n / c && m == n % c
    ensures Turn(c, timeout, until, n) == Grant(m, until + q as real * timeout, timeout)
  {
  }

  lemma NextTurn(c: nat, timeout: real, until: real, p: Pool, n: nat, q: nat, m: nat)
    requires c > 0 && q == n / c && m == n % c
    requires if m + 1 < c then InRound(c, timeout, until, p, q, m + 1) else InRound(c, timeout, until, p, q + 1, 0)
    ensures AfterTurns(c, timeout, until, p, n + 1)
  {
    NextPlace(n, c);
  }

  lemma NoTurns(c: nat, timeout: real, until: real)
    requires c > 0 && until >= 0.0
    ensures AfterTurns(c, timeout, until, Init(c, Unlimited), 0)
  {
    Quotient(0, c, 0, 0);
    assert until + 0 as real * timeout == until;
  }

  lemma {:induction false} TurnsScheduled(c: nat, timeout: real, until: real, n: nat)
    requires c > 0 && timeout >= 0.0 && until >= 0.0
    ensures var gs := RoundRobin(c, timeout, until, n);
      Scheduled(c, Unlimited, timeout, until, gs) && AfterTurns(c, timeout, until, Begun(c, Unlimited, gs), n)
  {
    if n > 0 {
      var gs := RoundRobin(c, timeout, until, n - 1);
      TurnsScheduled(c, timeout, until, n - 1);
      TurnIsFair(c, timeout, until, Begun(c, Unlimited, gs), n - 1);
      OneMoreScheduled(c, Unlimited, timeout, until, gs, Turn(c, timeout, until, n - 1));
    } else {
      NoTurns(c, timeout, until);
    }
  }

  lemma NextPlace(n: nat, c: nat)
    requires c > 0
    ensures if n % c + 1 < c then (n + 1) / c == n / c && (n + 1) % c == n % c + 1 else (n + 1) / c == n / c + 1 && (n + 1) % c == 0
  {
    if n % c + 1 < c {
      Quotient(n + 1, c, n / c, n % c + 1);
    } else {
      Quotient(n + 1, c, n / c + 1, 0);
    }
  }

  /** Without a rate limit some schedule takes all of its ceil(n / c) timeouts. */
  lemma WavesAttained(c: nat, timeout: real, until: real, n: nat) returns (gs: seq<Grant>)
    requires c > 0 && timeout >= 0.0 && until >= 0.0 && n > 0
    ensures |gs| == n && Scheduled(c, Unlimited, timeout, until, gs)
    ensures Finish(gs[n - 1]) == until + Total(c, timeout, n) + Over(Unlimited, n)
  {
    gs := RoundRobin(c, timeout, until, n);
    TurnsScheduled(c, timeout, until, n);
    LastWave(c, timeout, n);
  }

  lemma LastWave(c: nat, timeout: real, n: nat)
    requires c > 0 && n > 0
    ensures Wave(c, timeout, n - 1) + timeout == Total(c, timeout, n)
  {
    DivStep(n - 1, c);
    OneMoreTimes((n - 1) / c, timeout);
  }

  lemma OneMoreTimes(q: nat, timeout: real)
    ensures q as real * timeout + timeout == (q + 1) as real * timeout
  {
  }

  /** Job i on a worker of its own, as soon as its token is there. */
  function OwnGrant(limit: Limit, timeout: real, until: real, i: nat): (g: Grant)
    requires ValidLimit(limit)
    ensures g.worker == i
  {
    Grant(i, until + Over(limit, i + 1), timeout)
  }

  function OneEach(c: nat, limit: Limit, timeout: real, until: real, n: nat): (gs: seq<Grant>)
    requires ValidLimit(limit) && n <= c
    ensures |gs| == n && ByWorkers(c, gs)
  {
    if n == 0 then [] else OneEach(c, limit, timeout, until, n - 1) + [OwnGrant(limit, timeout, until, n - 1)]
  }

  /** n jobs have begun; the bucket was full at first. */
  ghost predicate Emptying(c: nat, limit: Limit, until: real, p: Pool, n: nat)
    requires limit.Bucket? && ValidLimit(limit)
  {
    && |p.free| == c == |p.owner| && (forall w :: n <= w < c ==> p.free[w] == 0.0)
    && p.last == (if n == 0 then 0.0 else until + Over(limit, n)) && p.level == MaxR(limit.burst - n as real, 0.0)
  }

  /** How the next token comes. */
  lemma NextToken(limit: Limit, until: real, n: nat)
    requires limit.Bucket? && ValidLimit(limit) && n > 0
    ensures var level, gained := MaxR(limit.burst - n as real, 0.0), Over(limit, n + 1) - Over(limit, n);
      && gained >= 0.0 && level + gained * limit.rate == MaxR(limit.burst - n as real, 1.0)
      && (level < 1.0 ==> gained == (1.0 - level) / limit.rate) && (level >= 1.0 ==> gained == 0.0)
  {
    var x, y := MaxR(0.0, n as real - limit.burst), MaxR(0.0, (n + 1) as real - limit.burst);
    DivAdd(x, y - x, limit.rate);
    assert ((y - x) / limit.rate) * limit.rate == y - x;
    DivMonotone(0.0, y - x, limit.rate);
  }

  lemma FirstToken(limit: Limit, until: real)
    requires limit.Bucket? && ValidLimit(limit) && until >= 0.0
    ensures Over(limit, 1) == 0.0 && LevelAt(limit, limit.burst, 0.0, until) == limit.burst
  {
    ScaleMonotone(0.0, until - 0.0, limit.rate);
    DivMonotone(0.0, 0.0, limit.rate);
  }

  lemma TokensAreFair(c: nat, limit: Limit, timeout: real, until: real, p: Pool, n: nat)
    requires limit.Bucket? && ValidLimit(limit) && timeout >= 0.0 && until >= 0.0 && n < c && Emptying(c, limit, until, p, n)
    ensures var g := OwnGrant(limit, timeout, until, n);
      Fair(p, limit, until, g) && Emptying(c, limit, until, Begin(p, limit, g), n + 1)
  {
    Beyond(limit, 0, n);
    Beyond(limit, n, n + 1);
    if n == 0 {
      FirstToken(limit, until);
    } else {
      LaterIsFair(c, limit, timeout, until, p, n);
    }
  }

  lemma LaterIsFair(c: nat, limit: Limit, timeout: real, until: real, p: Pool, n: nat)
    requires limit.Bucket? && ValidLimit(limit) && timeout >= 0.0 && until >= 0.0 && 0 < n < c && Emptying(c, limit, until, p, n)
    ensures var g := OwnGrant(limit, timeout, until, n);
      Fair(p, limit, until, g) && Emptying(c, limit, until, Begin(p, limit, g), n + 1)
  {
    var start, gained := until + Over(limit, n + 1), Over(limit, n + 1) - Over(limit, n);
    Beyond(limit, 0, n);
    NextToken(limit, until, n);
    TokenComes(limit, p.level, p.last, gained);
    assert p.last + gained == start;
    OnTime(limit, until, p, OwnGrant(limit, timeout, until, n));
  }

  /** A start at the very moment its token is there. */
  lemma OnTime(limit: Limit, until: real, p: Pool, g: Grant)
    requires limit.Bucket? && ValidLimit(limit) && p.free != [] && until <= p.last <= g.start
    requires g.worker < |p.free| && p.free[g.worker] <= 0.0 <= p.last
    requires LevelAt(limit, p.level, p.last, g.start) >= 1.0 && TokenTime(limit, p.level, p.last, p.last) == g.start
    ensures Fair(p, limit, until, g)
  {
    assert WaitsFrom(p, until) == p.last;
  }

  /** After the time gained from a start on. */
  lemma TokenComes(limit: Limit, level: real, last: real, gained: real)
    requires limit.Bucket? && ValidLimit(limit) && gained >= 0.0 && level <= limit.burst && level + gained * limit.rate <= limit.burst
    requires (level < 1.0 ==> gained == (1.0 - level) / limit.rate) && (level >= 1.0 ==> gained == 0.0)
    ensures LevelAt(limit, level, last, last + gained) == level + gained * limit.rate
    ensures TokenTime(limit, level, last, last) == last + gained
  {
    assert (last + gained - last) * limit.rate == gained * limit.rate;
    assert (last - last) * limit.rate == 0.0;
  }

  lemma {:induction false} TokensScheduled(c: nat, limit: Limit, timeout: real, until: real, n: nat)
    requires limit.Bucket? && ValidLimit(limit) && timeout >= 0.0 && until >= 0.0 && 0 < c && n <= c
    ensures var gs := OneEach(c, limit, timeout, until, n);
      Scheduled(c, limit, timeout, until, gs) && Emptying(c, limit, until, Begun(c, limit, gs), n)
  {
    if n > 0 {
      var gs := OneEach(c, limit, timeout, until, n - 1);
      TokensScheduled(c, limit, timeout, until, n - 1);
      TokensNext(c, limit, timeout, until, n - 1, gs);
    } else {
      NoneBegun(c, limit, until);
    }
  }

  lemma NoneBegun(c: nat, limit: Limit, until: real)
    requires limit.Bucket? && ValidLimit(limit)
    ensures Emptying(c, limit, until, Init(c, limit), 0)
  {
  }

  lemma TokensNext(c: nat, limit: Limit, timeout: real, until: real, n: nat, gs: seq<Grant>)
    requires limit.Bucket? && ValidLimit(limit) && timeout >= 0.0 && until >= 0.0 && n < c
    requires Scheduled(c, limit, timeout, until, gs) && Emptying(c, limit, until, Begun(c, limit, gs), n)
    ensures var more := gs + [OwnGrant(limit, timeout, until, n)];
      Scheduled(c, limit, timeout, until, more) && Emptying(c, limit, until, Begun(c, limit, more), n + 1)
  {
    TokensAreFair(c, limit, timeout, until, Begun(c, limit, gs), n);
    OneMoreScheduled(c, limit, timeout, until, gs, OwnGrant(limit, timeout, until, n));
  }

  /** With a worker for each job some schedule takes all the time of the tokens beyond
      the burst, and a timeout. */
  lemma TokensAttained(c: nat, limit: Limit, timeout: real, until: real, n: nat) returns (gs: seq<Grant>)
    requires limit.Bucket? && ValidLimit(limit) && timeout >= 0.0 && until >= 0.0 && 0 < n <= c
    ensures |gs| == n && Scheduled(c, limit, timeout, until, gs)
    ensures Finish(gs[n - 1]) == until + Total(c, timeout, n) + Over(limit, n)
  {
    gs := OneEach(c, limit, timeout, until, n);
    TokensScheduled(c, limit, timeout, until, n);
    OneWave(c, timeout, n);
  }

  lemma OneWave(c: nat, timeout: real, n: nat)
    requires 0 < n <= c
    ensures Total(c, timeout, n) == timeout
  {
    Quotient(n + c - 1, c, 1, n - 1);
  }

  // ----- the bucket is a bucket

  ghost predicate WithinRate(limit: Limit, p: Pool)
    requires limit.Bucket?
  {
    && (forall i :: 0 <= i < |p.starts| ==> (i + 1) as real <= limit.burst + p.starts[i] * limit.rate)
    && p.level <= limit.burst + p.last * limit.rate - |p.starts| as real
  }

  lemma JobWithinRate(limit: Limit, p: Pool, g: Grant)
    requires limit.Bucket? && ValidLimit(limit) && g.worker < |p.free| && |p.owner| == |p.free| && WithinRate(limit, p)
    requires LevelAt(limit, p.level, p.last, g.start) >= 1.0
    ensures WithinRate(limit, Begin(p, limit, g))
  {
    Spread(g.start, p.last, limit.rate);
    OneTaken(limit.burst, |p.starts|, p.level, p.last * limit.rate, LevelLeft(limit, p.level, p.last, g.start), g.start * limit.rate);
    OneMoreWithinRate(limit, p, Begin(p, limit, g));
  }

  lemma OneMoreWithinRate(limit: Limit, p: Pool, q: Pool)
    requires limit.Bucket? && WithinRate(limit, p) && q.starts == p.starts + [q.last]
    requires q.level <= limit.burst + q.last * limit.rate - (|p.starts| + 1) as real
    requires (|p.starts| + 1) as real <= limit.burst + q.last * limit.rate
    ensures WithinRate(limit, q)
  {
    forall i | 0 <= i < |q.starts| ensures (i + 1) as real <= limit.burst + q.starts[i] * limit.rate {
      if i < |p.starts| {
        assert q.starts[i] == p.starts[i];
      }
    }
  }

  lemma OneTaken(burst: real, n: nat, before: real, gained: real, after: real, gains: real)
    requires before <= burst + gained - n as real && after <= before + (gains - gained) - 1.0 && after >= 0.0
    ensures after <= burst + gains - (n + 1) as real && (n + 1) as real <= burst + gains
  {
  }

  lemma Spread(x: real, y: real, r: real)
    ensures (x - y) * r == x * r - y * r
  {
  }

  /** Starts never outrun the rate: by the start of job i at most burst plus the
      refill since the beginning have begun. */
  lemma {:induction false} NeverOversold(c: nat, limit: Limit, timeout: real, until: real, gs: seq<Grant>)
    requires c > 0 && limit.Bucket? && ValidLimit(limit) && Scheduled(c, limit, timeout, until, gs)
    ensures WithinRate(limit, Begun(c, limit, gs))
  {
    if gs != [] {
      var n := |gs| - 1;
      NeverOversold(c, limit, timeout, until, gs[..n]);
      JobWithinRate(limit, Begun(c, limit, gs[..n]), gs[n]);
    } else {
      Spread(0.0, 0.0, limit.rate);
    }
  }

  // ----- first come, first served

  /** A job: when it is submitted, and how long it runs once it has its token. */
  datatype Job = Job(arrival: real, length: real)

  /** The first worker that is free takes the next job and waits for a token. */
  function InTurn(p: Pool, limit: Limit, job: Job): Grant
    requires ValidLimit(limit) && p.free != []
  {
    Grant(Earliest(p.free), TokenTime(limit, p.level, p.last, WaitsFrom(p, job.arrival)), job.length)
  }

  function Queue(c: nat, limit: Limit, jobs: seq<Job>): (gs: seq<Grant>)
    requires c > 0 && ValidLimit(limit)
    ensures |gs| == |jobs| && ByWorkers(c, gs)
  {
    if jobs == [] then []
    else
      var gs := Queue(c, limit, jobs[..|jobs| - 1]);
      gs + [InTurn(Begun(c, limit, gs), limit, jobs[|jobs| - 1])]
  }

  lemma TokenThere(limit: Limit, level: real, last: real, t: real)
    requires limit.Bucket? && ValidLimit(limit)
    ensures TokenTime(limit, level, last, t) >= t && LevelAt(limit, level, last, TokenTime(limit, level, last, t)) >= 1.0
  {
    if LevelAt(limit, level, last, t) < 1.0 {
      LevelAtToken(limit, level, last, t);
      DivMonotone(0.0, 1.0 - LevelAt(limit, level, last, t), limit.rate);
    }
  }

  lemma TokenTimeGrows(limit: Limit, level: real, last: real, s: real, t: real)
    requires ValidLimit(limit) && s <= t
    ensures TokenTime(limit, level, last, s) <= TokenTime(limit, level, last, t)
  {
    if limit.Bucket? && LevelAt(limit, level, last, s) < 1.0 {
      HorizonGrows(limit, level, last, s, t, 0);
      if LevelAt(limit, level, last, t) >= 1.0 {
        assert Excess(limit, 1.0 - LevelAt(limit, level, last, t)) == 0.0;
      }
    }
  }

  lemma InTurnIsFair(limit: Limit, until: real, p: Pool, job: Job)
    requires ValidLimit(limit) && p.free != [] && job.arrival <= until
    ensures Fair(p, limit, until, InTurn(p, limit, job))
  {
    if limit.Bucket? {
      TokenThere(limit, p.level, p.last, WaitsFrom(p, job.arrival));
    }
    TokenTimeGrows(limit, p.level, p.last, WaitsFrom(p, job.arrival), WaitsFrom(p, until));
  }

  /** Whenever the jobs are submitted, one after another is such a schedule. */
  lemma {:induction false} QueueIsScheduled(c: nat, limit: Limit, timeout: real, until: real, jobs: seq<Job>)
    requires c > 0 && ValidLimit(limit) && forall i :: 0 <= i < |jobs| ==> jobs[i].arrival <= until && jobs[i].length <= timeout
    ensures Scheduled(c, limit, timeout, until, Queue(c, limit, jobs))
  {
    if jobs != [] {
      var n := |jobs| - 1;
      QueueIsScheduled(c, limit, timeout, until, jobs[..n]);
      var gs := Queue(c, limit, jobs[..n]);
      InTurnIsFair(limit, until, Begun(c, limit, gs), jobs[n]);
      assert Queue(c, limit, jobs)[..n] == gs;
    }
  }
}
