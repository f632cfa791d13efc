/** The fixed-window rate limiter: one bucket a key, refilled lazily, with stale buckets cleaned up.
    The clock is a parameter, in milliseconds. */
module RateLimiting {

  datatype Config = Config(maxAllowed: int, interval: int, minDeleteInterval: int)

  datatype Bucket = Bucket(available: int, start: int)

  type Buckets = map<string, Bucket>

  // ---------------------------------------------------------------- one call

  function Seconds(ms: nat): nat { ms / 1000 }

  function Refilled(cfg: Config, b: Bucket, now: int): Bucket {
    if now - b.start >= cfg.interval then Bucket(cfg.maxAllowed, now) else b
  }

  function Consumed(cfg: Config, b: Bucket, now: int): (Bucket, bool) {
    var r := Refilled(cfg, b, now);
    if r.available > 0 then (r.(available := r.available - 1), true) else (r, false)
  }

  function BucketOf(m: Buckets, key: string): Bucket {
    if key in m then m[key] else Bucket(0, 0)
  }

  function Allow(cfg: Config, m: Buckets, key: string, ms: nat): (Buckets, bool) {
    var (b, ok) := Consumed(cfg, BucketOf(m, key), Seconds(ms));
    (m[key := b], ok)
  }

  predicate Limited(cfg: Config, m: Buckets, key: string, ms: nat) {
    key in m && m[key].available <= 0 && (ms as real) / 1000.0 - m[key].start as real < cfg.interval as real
  }

  predicate Expired(cfg: Config, b: Bucket, now: int) { now - (b.start + cfg.interval) > cfg.minDeleteInterval }

  function Clean(cfg: Config, m: Buckets, ms: nat): Buckets {
    map key | key in m && !Expired(cfg, m[key], Seconds(ms)) :: m[key]
  }

  // ---------------------------------------------------------------- the program

  class RateClient {
    const cfg: Config
    var available: int
    var start: int

    function View(): Bucket
      reads this
    {
      Bucket(available, start)
    }

    constructor (cfg: Config)
      ensures this.cfg == cfg && View() == Bucket(0, 0)
    {
      this.cfg := cfg;
      available, start := 0, 0;
    }

    predicate HasExpired(relativeNow: int, minElapsed: int)
      reads this
    {
      relativeNow - (start + cfg.interval) > minElapsed
    }

    method Consume(ms: nat) returns (ok: bool)
      modifies this
      ensures (View(), ok) == Consumed(cfg, old(View()), Seconds(ms))
    {
      var now := ms / 1000;
      if now - start >= cfg.interval {
        available := cfg.maxAllowed;
        start := now;
      }
      if available > 0 {
        available := available - 1;
        return true;
      }
      return false;
    }
  }

  class RateLimiter {
    const cfg: Config
    var clients: map<string, RateClient>
    var totalDeleted: nat

    /** The clients are distinct objects that share the limiter's configuration. */
    ghost predicate Valid()
      reads this
    {
      && (forall key :: key in clients ==> clients[key].cfg == cfg)
      && (forall j, k :: j in clients && k in clients && j != k ==> clients[j] != clients[k])
    }

    function View(): Buckets
      reads this, clients.Values
    {
      map key | key in clients :: clients[key].View()
    }

    constructor (maxAllowed: int, interval: int, minDeleteInterval: int)
      ensures Valid() && cfg == Config(maxAllowed, interval, minDeleteInterval) && View() == map[]
    {
      cfg := Config(maxAllowed, interval, minDeleteInterval);
      clients, totalDeleted := map[], 0;
    }

    method IsAllowed(key: string, ms: nat) returns (ok: bool)
      requires Valid()
      modifies this, clients.Values
      ensures Valid() && (View(), ok) == Allow(cfg, old(View()), key, ms)
      ensures fresh(clients.Values - old(clients.Values))
    {
      ghost var before := View();
      if key !in clients {
        var client := new RateClient(cfg);
        clients := clients[key := client];
      }
      assert clients[key].View() == BucketOf(before, key);
      ok := clients[key].Consume(ms);
      assert View() == before[key := clients[key].View()];
    }

    method IsLimited(key: string, ms: nat) returns (limited: bool)
      ensures limited == Limited(cfg, View(), key, ms)
    {
      if key !in clients { return false; }
      var client := clients[key];
      limited := client.available <= 0 && (ms as real) / 1000.0 - client.start as real < cfg.interval as real;
    }

    method DeleteExpired(now: nat)
      modifies this
      ensures forall key :: key in clients <==>
        key in old(clients) && !old(clients[key].HasExpired(now, cfg.minDeleteInterval))
      ensures forall key :: key in clients ==> clients[key] == old(clients[key])
    {
      var pending := clients.Keys;
      while pending != {}
        invariant pending <= old(clients).Keys
        invariant forall key :: key in clients <==>
          key in old(clients) && (key in pending || !old(clients[key].HasExpired(now, cfg.minDeleteInterval)))
        invariant forall key :: key in clients ==> clients[key] == old(clients[key])
        decreases |pending|
      {
        var key :| key in pending;
        pending := pending - {key};
        if clients[key].HasExpired(now, cfg.minDeleteInterval) {
          clients := clients - {key};
          totalDeleted := totalDeleted + 1;
        }
      }
    }

    /** Deletes the expired clients; after 300 deletions the map is rebuilt with the same entries. */
    method CleanUp(ms: nat)
      requires Valid()
      modifies this
      ensures Valid() && View() == Clean(cfg, old(View()), ms)
    {
      DeleteExpired(ms / 1000);
      Rebuild();
    }

    method Rebuild()
      modifies this
      ensures clients == old(clients)
    {
      if totalDeleted >= 300 {
        clients := map key | key in clients :: clients[key];
        totalDeleted := 0;
      }
    }
  }

  // ---------------------------------------------------------------- runs

  datatype Op = AllowOp(key: string, ms: nat) | LimitedOp(key: string, ms: nat) | CleanOp(ms: nat)

  function Apply(cfg: Config, m: Buckets, op: Op): Buckets {
    match op
    case AllowOp(key, ms) => Allow(cfg, m, key, ms).0
    case LimitedOp(_, _) => m
    case CleanOp(ms) => Clean(cfg, m, ms)
  }

  /** The clock does not run backwards, from `t` on. */
  predicate Ordered(ops: seq<Op>, t: nat) {
    ops == [] || (t <= ops[0].ms && Ordered(ops[1..], ops[0].ms))
  }

  /** The admissions of one key in the seconds `lo` to `hi`, both included. */
  function Admissions(cfg: Config, m: Buckets, ops: seq<Op>, key: string, lo: int, hi: int): nat
    decreases |ops|
  {
    if ops == [] then 0 else
      var op := ops[0];
      (if op.AllowOp? && op.key == key && lo <= Seconds(op.ms) <= hi && Allow(cfg, m, key, op.ms).1 then 1 else 0)
      + Admissions(cfg, Apply(cfg, m, op), ops[1..], key, lo, hi)
  }

  /** The answers given to the queries of a run. */
  function Answers(cfg: Config, m: Buckets, ops: seq<Op>): seq<bool>
    decreases |ops|
  {
    if ops == [] then [] else Answer(cfg, m, ops[0]) + Answers(cfg, Apply(cfg, m, ops[0]), ops[1..])
  }

  function Answer(cfg: Config, m: Buckets, op: Op): seq<bool> {
    match op
    case AllowOp(key, ms) => [Allow(cfg, m, key, ms).1]
    case LimitedOp(key, ms) => [Limited(cfg, m, key, ms)]
    case CleanOp(_) => []
  }

  // ---------------------------------------------------------------- keys do not disturb each other

  /** The operations of a run that are queries of this key or cleanups. */
  function Only(ops: seq<Op>, key: string): seq<Op> {
    if ops == [] then []
    else (if ops[0].CleanOp? || ops[0].key == key then [ops[0]] else []) + Only(ops[1..], key)
  }

  /** The answers that a run gives to the queries of one key. */
  function AnswersTo(cfg: Config, m: Buckets, ops: seq<Op>, key: string): seq<bool>
    decreases |ops|
  {
    if ops == [] then [] else
      (if !ops[0].CleanOp? && ops[0].key == key then Answer(cfg, m, ops[0]) else [])
      + AnswersTo(cfg, Apply(cfg, m, ops[0]), ops[1..], key)
  }

  ghost predicate SameAt(m: Buckets, n: Buckets, key: string) {
    (key in m <==> key in n) && (key in m ==> m[key] == n[key])
  }

  /** The answers to a key are those of a run without any query of another key. */
  lemma {:induction false} KeysAreIndependent(cfg: Config, m: Buckets, n: Buckets, ops: seq<Op>, key: string)
    requires SameAt(m, n, key)
    ensures AnswersTo(cfg, m, ops, key) == Answers(cfg, n, Only(ops, key))
    decreases |ops|
  {
    if ops == [] {
    } else {
      var op, rest := ops[0], ops[1..];
      hide Consumed;
      if op.CleanOp? || op.key == key {
        KeysAreIndependent(cfg, Apply(cfg, m, op), Apply(cfg, n, op), rest, key);
        assert ([op] + Only(rest, key))[1..] == Only(rest, key);
      } else {
        KeysAreIndependent(cfg, Apply(cfg, m, op), n, rest, key);
        assert [] + Only(rest, key) == Only(rest, key);
      }
    }
  }

  // ---------------------------------------------------------------- the number of admissions

  /** The most refills that fit in the seconds `from` to `hi`, `interval` apart. */
  function Refills(from: int, hi: int, interval: int): (r: nat)
    requires interval >= 1
    decreases hi - from
  {
    if from > hi then 0 else 1 + Refills(from + interval, hi, interval)
  }

  lemma {:induction false} LaterFewerRefills(a: int, b: int, hi: int, interval: int)
    requires interval >= 1 && a <= b
    ensures Refills(b, hi, interval) <= Refills(a, hi, interval)
    decreases hi - a
  {
    if b <= hi {
      LaterFewerRefills(a + interval, b + interval, hi, interval);
    }
  }

  lemma {:induction false} RefillsInSpan(lo: int, l: nat, interval: int)
    requires interval >= 1 && l >= 1
    ensures Refills(lo, lo + l - 1, interval) == (l - 1) / interval + 1
    decreases l
  {
    if l - 1 >= interval {
      RefillsInSpan(lo + interval, l - interval, interval);
      OneMoreInterval(l - 1, interval);
    } else {
      assert (l - 1) / interval == 0;
    }
  }

  lemma OneMoreInterval(x: int, interval: int)
    requires interval >= 1 && x >= interval
    ensures x / interval == (x - interval) / interval + 1
  {
    var q, p := x / interval, (x - interval) / interval;
    assert (p + 1) * interval == p * interval + interval;
    if q > p + 1 { AtLeastOneMore(p + 1, q, interval); }
    if q < p + 1 { AtLeastOneMore(q, p + 1, interval); }
  }

  lemma AtLeastOneMore(a: int, b: int, d: int)
    requires a < b && d >= 1
    ensures b * d >= a * d + d
    decreases b - a
  {
    if b - 1 > a {
      AtLeastOneMore(a, b - 1, d);
    }
    assert b * d == (b - 1) * d + d;
  }

  lemma Times(m: nat, a: nat, b: nat)
    requires a <= b
    ensures m * a <= m * b && m * (1 + a) == m + m * a
  {
  }

  ghost predicate Sane(cfg: Config, m: Buckets) {
    forall k :: k in m ==> m[k].start >= 0 && m[k].available <= if cfg.maxAllowed >= 1 then cfg.maxAllowed - 1 else 0
  }

  lemma ApplyKeepsSane(cfg: Config, m: Buckets, op: Op)
    requires Sane(cfg, m)
    ensures Sane(cfg, Apply(cfg, m, op))
  {
  }

  /** What is left in the bucket of `key` while its window lasts. */
  function Left(cfg: Config, m: Buckets, key: string, t: int): nat {
    if key in m && m[key].available > 0 && m[key].start + cfg.interval > t then m[key].available else 0
  }

  /** The earliest second from `t` on at which the bucket of `key` can be refilled. */
  function NextRefill(cfg: Config, m: Buckets, key: string, t: int): int {
    if key in m && m[key].start + cfg.interval > t then m[key].start + cfg.interval else t
  }

  lemma {:induction false} NoAdmissionsAfter(cfg: Config, m: Buckets, ops: seq<Op>, key: string, lo: int, hi: int,
                                             t: nat)
    requires Ordered(ops, t) && Seconds(t) > hi
    ensures Admissions(cfg, m, ops, key, lo, hi) == 0
    decreases |ops|
  {
    if ops == [] {
    } else {
      NoAdmissionsAfter(cfg, Apply(cfg, m, ops[0]), ops[1..], key, lo, hi, ops[0].ms);
    }
  }

  /** Full buckets for all the refills that fit. */
  function Budget(cfg: Config, from: int, hi: int): int
    requires cfg.interval >= 1
  {
    cfg.maxAllowed * Refills(from, hi, cfg.interval)
  }

  /** A bucket refilled at `now` uses up one refill. */
  lemma RefillStep(cfg: Config, from: int, now: int, hi: int)
    requires cfg.interval >= 1 && cfg.maxAllowed >= 1 && from <= now <= hi
    ensures cfg.maxAllowed + Budget(cfg, now + cfg.interval, hi) <= Budget(cfg, from, hi)
  {
    KeepStep(cfg, from, now, hi);
    var r := Refills(now + cfg.interval, hi, cfg.interval);
    Times(cfg.maxAllowed, r, r);
  }

  lemma BudgetSign(cfg: Config, from: int, hi: int)
    requires cfg.interval >= 1 && cfg.maxAllowed >= 1
    ensures Budget(cfg, from, hi) >= 0
  {
  }

  /** A later first refill leaves no more. */
  lemma KeepStep(cfg: Config, from: int, from': int, hi: int)
    requires cfg.interval >= 1 && cfg.maxAllowed >= 1 && from <= from'
    ensures Budget(cfg, from', hi) <= Budget(cfg, from, hi)
  {
    LaterFewerRefills(from, from', hi, cfg.interval);
    Times(cfg.maxAllowed, Refills(from', hi, cfg.interval), Refills(from, hi, cfg.interval));
  }

  predicate Refilling(cfg: Config, m: Buckets, op: Op, key: string) {
    op.AllowOp? && op.key == key && Seconds(op.ms) - BucketOf(m, key).start >= cfg.interval
  }

  predicate Admits(cfg: Config, m: Buckets, op: Op, key: string) {
    op.AllowOp? && op.key == key && Allow(cfg, m, key, op.ms).1
  }

  /** How a step changes what is left in a bucket, and when it can next be refilled. */
  lemma StepChanges(cfg: Config, m: Buckets, op: Op, key: string, t: nat)
    requires cfg.interval >= 1 && cfg.minDeleteInterval >= -1 && cfg.maxAllowed >= 1
    requires Sane(cfg, m) && t <= op.ms
    ensures var m', now := Apply(cfg, m, op), Seconds(op.ms);
      && (Refilling(cfg, m, op, key) ==>
        && Left(cfg, m', key, now) == cfg.maxAllowed - 1 && NextRefill(cfg, m', key, now) == now + cfg.interval
        && NextRefill(cfg, m, key, Seconds(t)) <= now)
      && (!Refilling(cfg, m, op, key) ==>
        && (if Admits(cfg, m, op, key) then 1 else 0) + Left(cfg, m', key, now) <= Left(cfg, m, key, Seconds(t))
        && NextRefill(cfg, m, key, Seconds(t)) <= NextRefill(cfg, m', key, now))
  {
  }

  /** From second `lo` on: what is left in the bucket, and a full bucket for every refill that fits. */
  lemma {:induction false} AdmissionsFrom(cfg: Config, m: Buckets, ops: seq<Op>, key: string, lo: int, hi: int, t: nat)
    requires cfg.interval >= 1 && cfg.minDeleteInterval >= -1 && cfg.maxAllowed >= 1
    requires Sane(cfg, m) && Ordered(ops, t) && lo <= Seconds(t)
    ensures Admissions(cfg, m, ops, key, lo, hi)
         <= Left(cfg, m, key, Seconds(t)) + Budget(cfg, NextRefill(cfg, m, key, Seconds(t)), hi)
    decreases |ops|
  {
    BudgetSign(cfg, NextRefill(cfg, m, key, Seconds(t)), hi);
    hide Budget;
    if ops == [] {
    } else {
      var op := ops[0];
      var m', now := Apply(cfg, m, op), Seconds(op.ms);
      if now > hi {
        NoAdmissionsAfter(cfg, m, ops, key, lo, hi, op.ms);
      } else {
        ApplyKeepsSane(cfg, m, op);
        AdmissionsFrom(cfg, m', ops[1..], key, lo, hi, op.ms);
        StepChanges(cfg, m, op, key, t);
        hide Apply, Left, NextRefill, Sane;
        if Refilling(cfg, m, op, key) {
          RefillStep(cfg, NextRefill(cfg, m, key, Seconds(t)), now, hi);
        } else {
          KeepStep(cfg, NextRefill(cfg, m, key, Seconds(t)), NextRefill(cfg, m', key, now), hi);
        }
      }
    }
  }

  /** The most admissions of a key in a span: a full bucket for every refill that fits from the first second
      on; or what a window that began before the span still had, and a full bucket for every refill that
      fits after that. */
  function MostFrom(cfg: Config, lo: int, hi: int): int
    requires cfg.interval >= 1
  {
    var full, carried := Budget(cfg, lo, hi), cfg.maxAllowed - 1 + Budget(cfg, lo + 1, hi);
    if cfg.interval >= 2 && carried > full then carried else full
  }

  lemma {:induction false} AdmissionsInSpan(cfg: Config, m: Buckets, ops: seq<Op>, key: string, lo: int, hi: int,
                                            t: nat)
    requires cfg.interval >= 1 && cfg.minDeleteInterval >= -1 && cfg.maxAllowed >= 1
    requires Sane(cfg, m) && Ordered(ops, t)
    requires key in m ==> m[key].start <= Seconds(t) < lo
    ensures Admissions(cfg, m, ops, key, lo, hi) <= MostFrom(cfg, lo, hi)
    decreases |ops|
  {
    BudgetSign(cfg, lo, hi);
    hide Budget;
    if ops == [] {
    } else {
      var op := ops[0];
      var now := Seconds(op.ms);
      if lo <= now {
        AdmissionsFrom(cfg, m, ops, key, lo, hi, op.ms);
        if Left(cfg, m, key, now) > 0 {
          KeepStep(cfg, lo + 1, NextRefill(cfg, m, key, now), hi);
        } else {
          KeepStep(cfg, lo, NextRefill(cfg, m, key, now), hi);
        }
      } else {
        ApplyKeepsSane(cfg, m, op);
        AdmissionsInSpan(cfg, Apply(cfg, m, op), ops[1..], key, lo, hi, op.ms);
      }
    }
  }

  /** The most admissions in `l` consecutive seconds: a full bucket for the first second and for every whole
      interval after it, and one admission less than a bucket more when a part of an interval is left. */
  function MostAdmissions(cfg: Config, l: nat): int
    requires cfg.interval >= 1 && l >= 1
  {
    cfg.maxAllowed * ((l - 1) / cfg.interval + 1) + if (l - 1) % cfg.interval == 0 then 0 else cfg.maxAllowed - 1
  }

  lemma OneLess(x: nat, d: nat)
    requires x >= 1 && d >= 1
    ensures (x - 1) / d == if x % d == 0 then x / d - 1 else x / d
  {
    var q, r := x / d, x % d;
    assert x == q * d + r;
    if r == 0 {
      assert x - 1 == (q - 1) * d + (d - 1);
      QuotientIs(x - 1, d, q - 1, d - 1);
    } else {
      QuotientIs(x - 1, d, q, r - 1);
    }
  }

  lemma QuotientIs(x: int, d: int, q: int, r: int)
    requires d >= 1 && x == q * d + r && 0 <= r < d
    ensures x / d == q
  {
    var p := x / d;
    assert p * d <= x < p * d + d;
    if p < q { AtLeastOneMore(p, q, d); }
    if q < p { AtLeastOneMore(q, p, d); }
  }

  lemma MostFromIsMost(cfg: Config, lo: int, l: nat)
    requires cfg.interval >= 1 && cfg.maxAllowed >= 1 && l >= 1
    ensures MostFrom(cfg, lo, lo + l - 1) == MostAdmissions(cfg, l)
  {
    RefillsInSpan(lo, l, cfg.interval);
    var n := (l - 1) / cfg.interval;
    Times(cfg.maxAllowed, n, n);
    if l >= 2 {
      RefillsInSpan(lo + 1, l - 1, cfg.interval);
      OneLess(l - 1, cfg.interval);
      assert Refills(lo + 1, lo + l - 1, cfg.interval) == (l - 2) / cfg.interval + 1;
      assert cfg.maxAllowed * (n + 1) == cfg.maxAllowed * n + cfg.maxAllowed;
    } else {
      assert Budget(cfg, lo + 1, lo) == cfg.maxAllowed * 0 == 0 && n == 0;
    }
  }

  /** With a clock that does not run backwards, whatever the requests, the cleanups and the other keys, a key
      gets in any `l` consecutive seconds at most `MostAdmissions` admissions, which is less than
      `maxAllowed * (floor((l - 1) / interval) + 2)`. */
  lemma {:induction false} AdmissionBound(cfg: Config, ops: seq<Op>, key: string, lo: int, l: nat)
    requires cfg.interval >= 1 && cfg.minDeleteInterval >= -1 && cfg.maxAllowed >= 1 && l >= 1
    requires Ordered(ops, 0)
    ensures Admissions(cfg, map[], ops, key, lo, lo + l - 1) <= MostAdmissions(cfg, l)
    ensures MostAdmissions(cfg, l) < cfg.maxAllowed * ((l - 1) / cfg.interval + 2)
  {
    AdmissionsInSpan(cfg, map[], ops, key, lo, lo + l - 1, 0);
    MostFromIsMost(cfg, lo, l);
    var r := (l - 1) / cfg.interval + 1;
    Times(cfg.maxAllowed, r, r);
    assert 1 + r == (l - 1) / cfg.interval + 2;
  }

  // ---------------------------------------------------------------- the bound is exact

  lemma {:induction false} AdmissionsConcat(cfg: Config, m: Buckets, a: seq<Op>, b: seq<Op>, key: string, lo: int,
                                            hi: int)
    ensures Admissions(cfg, m, a + b, key, lo, hi)
         == Admissions(cfg, m, a, key, lo, hi) + Admissions(cfg, AfterAll(cfg, m, a), b, key, lo, hi)
    decreases |a|
  {
    hide Apply, Allow;
    if a == [] {
      assert a + b == b;
    } else {
      assert (a + b)[1..] == a[1..] + b;
      AdmissionsConcat(cfg, Apply(cfg, m, a[0]), a[1..], b, key, lo, hi);
    }
  }

  lemma {:induction false} BurstOrdered(n: nat, ms: nat, rest: seq<Op>, t: nat)
    requires t <= ms && Ordered(rest, ms)
    ensures Ordered(Burst(n, ms) + rest, t)
  {
    if n == 0 {
      assert Burst(0, ms) + rest == rest;
    } else {
      BurstOrdered(n - 1, ms, rest, ms);
      assert Burst(n, ms) + rest == [AllowOp("k", ms)] + (Burst(n - 1, ms) + rest);
    }
  }

  /** Within a window, each request of a burst takes one admission while any are left. */
  lemma {:induction false} BurstDrains(cfg: Config, m: Buckets, n: nat, ms: nat, lo: int, hi: int)
    requires "k" in m && m["k"].available >= n && Seconds(ms) - m["k"].start < cfg.interval && lo <= Seconds(ms) <= hi
    ensures Admissions(cfg, m, Burst(n, ms), "k", lo, hi) == n
    ensures AfterAll(cfg, m, Burst(n, ms)) == m["k" := Bucket(m["k"].available - n, m["k"].start)]
    decreases n
  {
    if n == 0 {
      assert m == m["k" := m["k"]];
    } else {
      var op := AllowOp("k", ms);
      var m' := m["k" := Bucket(m["k"].available - 1, m["k"].start)];
      assert Apply(cfg, m, op) == m' && Allow(cfg, m, "k", ms).1;
      BurstDrains(cfg, m', n - 1, ms, lo, hi);
      assert Burst(n, ms)[0] == op && Burst(n, ms)[1..] == Burst(n - 1, ms);
    }
  }

  /** A full burst at a refill. */
  lemma BurstAtRefill(cfg: Config, m: Buckets, ms: nat, lo: int, hi: int)
    requires cfg.interval >= 1 && cfg.maxAllowed >= 1
    requires Seconds(ms) - BucketOf(m, "k").start >= cfg.interval && lo <= Seconds(ms) <= hi
    ensures Admissions(cfg, m, Burst(cfg.maxAllowed, ms), "k", lo, hi) == cfg.maxAllowed
    ensures AfterAll(cfg, m, Burst(cfg.maxAllowed, ms)) == m["k" := Bucket(0, Seconds(ms))]
  {
    var op, n := AllowOp("k", ms), cfg.maxAllowed - 1;
    var m' := m["k" := Bucket(n, Seconds(ms))];
    assert Apply(cfg, m, op) == m' && Allow(cfg, m, "k", ms).1;
    BurstDrains(cfg, m', n, ms, lo, hi);
    assert Burst(cfg.maxAllowed, ms)[0] == op && Burst(cfg.maxAllowed, ms)[1..] == Burst(n, ms);
  }

  /** `n` full bursts, an interval apart. */
  function Volleys(cfg: Config, from: nat, n: nat): seq<Op>
    requires cfg.interval >= 1 && cfg.maxAllowed >= 1
    decreases n
  {
    if n == 0 then [] else Burst(cfg.maxAllowed, 1000 * from) + Volleys(cfg, from + cfg.interval, n - 1)
  }

  lemma {:induction false} VolleysAdmitted(cfg: Config, m: Buckets, from: nat, n: nat, lo: int, hi: int)
    requires cfg.interval >= 1 && cfg.maxAllowed >= 1
    requires from - BucketOf(m, "k").start >= cfg.interval && lo <= from
      && (n > 0 ==> from + (n - 1) * cfg.interval <= hi)
    ensures Admissions(cfg, m, Volleys(cfg, from, n), "k", lo, hi) == cfg.maxAllowed * n
    ensures Ordered(Volleys(cfg, from, n), 1000 * from)
    decreases n
  {
    hide Burst, BucketOf, Admissions, Ordered, AfterAll;
    if n == 0 {
      NoVolleys(cfg, m, from, lo, hi);
    } else {
      var ms, rest := 1000 * from, Volleys(cfg, from + cfg.interval, n - 1);
      VolleySpan(cfg, from, n, hi);
      BurstAtRefill(cfg, m, ms, lo, hi);
      var m' := m["k" := Bucket(0, from)];
      BucketSet(m, Bucket(0, from));
      VolleysAdmitted(cfg, m', from + cfg.interval, n - 1, lo, hi);
      AdmissionsConcat(cfg, m, Burst(cfg.maxAllowed, ms), rest, "k", lo, hi);
      LaterOrdered(rest, 1000 * (from + cfg.interval), ms);
      BurstOrdered(cfg.maxAllowed, ms, rest, ms);
    }
  }

  lemma NoVolleys(cfg: Config, m: Buckets, from: nat, lo: int, hi: int)
    requires cfg.interval >= 1 && cfg.maxAllowed >= 1
    ensures Admissions(cfg, m, Volleys(cfg, from, 0), "k", lo, hi) == 0 == cfg.maxAllowed * 0
    ensures Ordered(Volleys(cfg, from, 0), 1000 * from)
  {
  }

  lemma VolleySpan(cfg: Config, from: nat, n: nat, hi: int)
    requires cfg.interval >= 1 && n > 0 && from + (n - 1) * cfg.interval <= hi
    ensures from <= hi && (n > 1 ==> from + cfg.interval + (n - 2) * cfg.interval <= hi)
    ensures cfg.maxAllowed * n == cfg.maxAllowed + cfg.maxAllowed * (n - 1)
  {
    assert (n - 1) * cfg.interval == (n - 2) * cfg.interval + cfg.interval;
    assert (n - 1) * cfg.interval >= 0;
  }

  lemma BucketSet(m: Buckets, b: Bucket)
    ensures BucketOf(m["k" := b], "k") == b
  {
  }

  lemma LaterOrdered(ops: seq<Op>, t: nat, earlier: nat)
    requires Ordered(ops, t) && earlier <= t
    ensures Ordered(ops, earlier)
  {
  }

  /** For every configuration and length some run reaches the bound in some span of that length. */
  lemma {:induction false} MostAdmissionsReached(cfg: Config, l: nat) returns (ops: seq<Op>, lo: nat)
    requires cfg.interval >= 1 && cfg.maxAllowed >= 1 && l >= 1
    ensures Ordered(ops, 0) && Admissions(cfg, map[], ops, "k", lo, lo + l - 1) == MostAdmissions(cfg, l)
  {
    hide Admissions, Ordered, Volleys;
    var n := (l - 1) / cfg.interval;
    assert l - 1 == n * cfg.interval + (l - 1) % cfg.interval;
    if (l - 1) % cfg.interval == 0 {
      lo := cfg.interval;
      ops := Volleys(cfg, lo, n + 1);
      VolleysAdmitted(cfg, map[], lo, n + 1, lo, lo + l - 1);
      LaterOrdered(ops, 1000 * lo, 0);
    } else {
      lo := 2 * cfg.interval - 1;
      ops := CarriedOver(cfg, n);
      CarriedOverAdmitted(cfg, n, lo + l - 1);
    }
  }

  /** One request in the second in which a window starts, the rest of the bucket in its last second, and full
      bursts from the next second on. */
  function CarriedOver(cfg: Config, n: nat): seq<Op>
    requires cfg.interval >= 1 && cfg.maxAllowed >= 1
  {
    [AllowOp("k", 1000 * cfg.interval)]
    + (Burst(cfg.maxAllowed - 1, 1000 * (2 * cfg.interval - 1)) + Volleys(cfg, 2 * cfg.interval, n + 1))
  }

  lemma CarriedOverAdmitted(cfg: Config, n: nat, hi: int)
    requires cfg.interval >= 2 && cfg.maxAllowed >= 1 && 2 * cfg.interval + n * cfg.interval <= hi
    ensures Admissions(cfg, map[], CarriedOver(cfg, n), "k", 2 * cfg.interval - 1, hi) ==
      cfg.maxAllowed * (n + 1) + cfg.maxAllowed - 1
    ensures Ordered(CarriedOver(cfg, n), 0)
  {
    hide Burst, Volleys;
    var lo, first := 2 * cfg.interval - 1, AllowOp("k", 1000 * cfg.interval);
    var burst, volleys := Burst(cfg.maxAllowed - 1, 1000 * lo), Volleys(cfg, lo + 1, n + 1);
    assert n * cfg.interval >= 0;
    var m: Buckets := map["k" := Bucket(cfg.maxAllowed - 1, cfg.interval)];
    assert Apply(cfg, map[], first) == m;
    BurstDrains(cfg, m, cfg.maxAllowed - 1, 1000 * lo, lo, hi);
    var m' := m["k" := Bucket(0, cfg.interval)];
    VolleysAdmitted(cfg, m', lo + 1, n + 1, lo, hi);
    AdmissionsConcat(cfg, m, burst, volleys, "k", lo, hi);
    LaterOrdered(volleys, 1000 * (lo + 1), 1000 * lo);
    BurstOrdered(cfg.maxAllowed - 1, 1000 * lo, volleys, 1000 * cfg.interval);
    assert CarriedOver(cfg, n)[0] == first && CarriedOver(cfg, n)[1..] == burst + volleys;
  }

  // ---------------------------------------------------------------- isLimited and isAllowed

  /** For an existing client the millisecond test of `isLimited` says what the second-based `isAllowed`
      would refuse at that instant, except for an expired window of a limiter that allows nothing. */
  lemma {:induction false} LimitedIsRefusal(cfg: Config, m: Buckets, key: string, ms: nat)
    requires key in m
    ensures var refuses := !Allow(cfg, m, key, ms).1;
      Limited(cfg, m, key, ms) == (refuses && (cfg.maxAllowed >= 1 || Seconds(ms) - m[key].start < cfg.interval))
  {
    var end := m[key].start + cfg.interval;
    assert (ms as real) / 1000.0 < end as real <==> ms < 1000 * end;
    assert ms < 1000 * end <==> Seconds(ms) < end;
  }

  // ---------------------------------------------------------------- cleaning is invisible

  predicate IsQuery(op: Op) { !op.CleanOp? }

  function Queries(ops: seq<Op>): seq<Op> {
    if ops == [] then [] else (if IsQuery(ops[0]) then [ops[0]] else []) + Queries(ops[1..])
  }

  /** The cleaned limiter lacks only buckets whose window is over. */
  ghost predicate Similar(cfg: Config, cleaned: Buckets, full: Buckets, t: nat) {
    && (forall k :: k in full ==> 0 <= full[k].start <= Seconds(t))
    && (forall k :: k in cleaned ==> k in full && cleaned[k] == full[k])
    && (forall k :: k in full && k !in cleaned ==> Seconds(t) >= full[k].start + cfg.interval)
  }

  predicate CleansOnlyExpired(cfg: Config) { cfg.minDeleteInterval >= -1 || cfg.interval <= 0 }

  lemma SimilarQuery(cfg: Config, cleaned: Buckets, full: Buckets, op: Op, t: nat)
    requires Similar(cfg, cleaned, full, t) && t <= op.ms && IsQuery(op)
    ensures Similar(cfg, Apply(cfg, cleaned, op), Apply(cfg, full, op), op.ms)
    ensures Answer(cfg, cleaned, op) == Answer(cfg, full, op)
  {
    if op.LimitedOp? && op.key in full {
      LimitedIsRefusal(cfg, full, op.key, op.ms);
    }
  }

  lemma SimilarClean(cfg: Config, cleaned: Buckets, full: Buckets, ms: nat, t: nat)
    requires CleansOnlyExpired(cfg) && Similar(cfg, cleaned, full, t) && t <= ms
    ensures Similar(cfg, Clean(cfg, cleaned, ms), full, ms)
  {
  }

  lemma {:induction false} SimilarAnswers(cfg: Config, cleaned: Buckets, full: Buckets, ops: seq<Op>, t: nat)
    requires CleansOnlyExpired(cfg) && Similar(cfg, cleaned, full, t) && Ordered(ops, t)
    ensures Answers(cfg, cleaned, ops) == Answers(cfg, full, Queries(ops))
    decreases |ops|
  {
    if ops == [] {
    } else {
      var op := ops[0];
      if op.CleanOp? {
        SimilarClean(cfg, cleaned, full, op.ms, t);
        SimilarAnswers(cfg, Clean(cfg, cleaned, op.ms), full, ops[1..], op.ms);
        assert [] + Queries(ops[1..]) == Queries(ops[1..]);
      } else {
        SimilarQuery(cfg, cleaned, full, op, t);
        SimilarAnswers(cfg, Apply(cfg, cleaned, op), Apply(cfg, full, op), ops[1..], op.ms);
        assert ([op] + Queries(ops[1..]))[1..] == Queries(ops[1..]);
      }
    }
  }

  /** Cleaning never changes an answer: the limiter answers like one that is never cleaned. */
  ghost predicate CleaningIsInvisible(cfg: Config) {
    forall ops :: Ordered(ops, 0) ==> Answers(cfg, map[], ops) == Answers(cfg, map[], Queries(ops))
  }

  function AfterAll(cfg: Config, m: Buckets, ops: seq<Op>): Buckets
    decreases |ops|
  {
    if ops == [] then m else AfterAll(cfg, Apply(cfg, m, ops[0]), ops[1..])
  }

  lemma {:induction false} AnswersConcat(cfg: Config, m: Buckets, a: seq<Op>, b: seq<Op>)
    ensures Answers(cfg, m, a + b) == Answers(cfg, m, a) + Answers(cfg, AfterAll(cfg, m, a), b)
    ensures Queries(a + b) == Queries(a) + Queries(b)
    decreases |a|
  {
    hide Apply, Answer, IsQuery;
    if a == [] {
      assert a + b == b;
      assert [] + Answers(cfg, m, b) == Answers(cfg, m, b) && [] + Queries(b) == Queries(b);
    } else {
      var m', rest := Apply(cfg, m, a[0]), a[1..];
      assert (a + b)[0] == a[0] && (a + b)[1..] == rest + b;
      AnswersConcat(cfg, m', rest, b);
      var first, query := Answer(cfg, m, a[0]), if IsQuery(a[0]) then [a[0]] else [];
      var after := Answers(cfg, AfterAll(cfg, m', rest), b);
      assert first + (Answers(cfg, m', rest) + after) == first + Answers(cfg, m', rest) + after;
      assert query + (Queries(rest) + Queries(b)) == query + Queries(rest) + Queries(b);
    }
  }

  function Burst(n: nat, ms: nat): seq<Op> {
    if n == 0 then [] else [AllowOp("k", ms)] + Burst(n - 1, ms)
  }

  lemma {:induction false} BurstEmpties(cfg: Config, m: Buckets, n: nat, ms: nat, rest: seq<Op>)
    requires cfg.interval >= 1 && "k" in m && m["k"].start == Seconds(ms) && m["k"].available <= n
    requires Ordered(rest, ms)
    ensures var m1 := AfterAll(cfg, m, Burst(n, ms));
      "k" in m1 && m1["k"].available <= 0 && m1["k"].start == Seconds(ms)
    ensures Ordered(Burst(n, ms) + rest, ms) && Queries(Burst(n, ms)) == Burst(n, ms)
    decreases n
  {
    BurstOrdered(n, ms, rest, ms);
    hide Ordered;
    if n == 0 {
    } else {
      var op := AllowOp("k", ms);
      assert Burst(n, ms)[0] == op && Burst(n, ms)[1..] == Burst(n - 1, ms);
      BurstEmpties(cfg, Apply(cfg, m, op), n - 1, ms, rest);
    }
  }

  /** An exhausted bucket whose window is about to end, cleaned too early: the next query tells. */
  lemma TailAnswers(cfg: Config, m: Buckets, late: nat)
    requires "k" in m && m["k"].available <= 0 && !CleansOnlyExpired(cfg)
    requires Seconds(late) == m["k"].start + cfg.interval - 1
    ensures var tail := [CleanOp(late), LimitedOp("k", late)];
      && Answers(cfg, m, tail) == [false] && Queries(tail) == [LimitedOp("k", late)]
      && Answers(cfg, m, [LimitedOp("k", late)]) == [true]
  {
    var clean, query := CleanOp(late), LimitedOp("k", late);
    assert [clean, query][1..] == [query] && [query][1..] == [];
    LimitedIsRefusal(cfg, m, "k", late);
    assert Answers(cfg, m, [query]) == Answer(cfg, m, query) + [];
    var m' := Clean(cfg, m, late);
    assert "k" !in m';
    assert Answers(cfg, m', [query]) == Answer(cfg, m', query) + [];
    assert Answers(cfg, m, [clean, query]) == [] + Answers(cfg, m', [query]);
    assert Queries([query]) == [query] + [];
    assert Queries([clean, query]) == [] + Queries([query]);
  }

  function Exhaust(cfg: Config, ms: nat): seq<Op> {
    [AllowOp("k", ms)] + Burst(if cfg.maxAllowed >= 1 then cfg.maxAllowed - 1 else 0, ms)
  }

  lemma ExhaustEmpties(cfg: Config, ms: nat, tail: seq<Op>)
    requires cfg.interval >= 1 && Seconds(ms) >= cfg.interval && Ordered(tail, ms)
    ensures var m := AfterAll(cfg, map[], Exhaust(cfg, ms));
      "k" in m && m["k"].available <= 0 && m["k"].start == Seconds(ms)
    ensures Ordered(Exhaust(cfg, ms) + tail, 0) && Queries(Exhaust(cfg, ms)) == Exhaust(cfg, ms)
  {
    var first, n := AllowOp("k", ms), if cfg.maxAllowed >= 1 then cfg.maxAllowed - 1 else 0;
    BurstEmpties(cfg, Apply(cfg, map[], first), n, ms, tail);
    assert Exhaust(cfg, ms)[1..] == Burst(n, ms) && (Exhaust(cfg, ms) + tail)[1..] == Burst(n, ms) + tail;
  }

  lemma EarlyCleaningShows(cfg: Config)
    requires !CleansOnlyExpired(cfg)
    ensures !CleaningIsInvisible(cfg)
  {
    var ms := 1000 * cfg.interval;
    var late := ms + 1000 * (cfg.interval - 1);
    var tail := [CleanOp(late), LimitedOp("k", late)];
    assert tail[1..] == [LimitedOp("k", late)] && Ordered([LimitedOp("k", late)], late);
    ExhaustEmpties(cfg, ms, tail);
    var burst := Exhaust(cfg, ms);
    TailAnswers(cfg, AfterAll(cfg, map[], burst), late);
    hide Answers, Limited, Clean, Apply, Exhaust, AfterAll, Ordered, Queries;
    AnswersConcat(cfg, map[], burst, tail);
    AnswersConcat(cfg, map[], burst, Queries(tail));
    assert (Answers(cfg, map[], burst) + [false])[|Answers(cfg, map[], burst)|] == false;
    assert (Answers(cfg, map[], burst) + [true])[|Answers(cfg, map[], burst)|] == true;
  }

  /** Cleaning is invisible exactly when a bucket is deleted only once its window is over. */
  lemma {:induction false} CleaningInvisibleExactlyWhen(cfg: Config)
    ensures CleaningIsInvisible(cfg) <==> cfg.minDeleteInterval >= -1 || cfg.interval <= 0
  {
    if CleansOnlyExpired(cfg) {
      forall ops | Ordered(ops, 0) ensures Answers(cfg, map[], ops) == Answers(cfg, map[], Queries(ops)) {
        SimilarAnswers(cfg, map[], map[], ops, 0);
      }
    } else {
      EarlyCleaningShows(cfg);
    }
  }
}
