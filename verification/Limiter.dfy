/** The per-subject token bucket of the gateway, with its bounded table of principals. */
module Limiter {
  import opened Basics

  /** What one subject has left, and when that was last brought up to date. */
  datatype Bucket = Bucket(tokens: real, at: real)

  type Table = map<string, Bucket>

  datatype Params = Params(rate: real, burst: real, maximum: nat) {
    predicate Valid() {
      rate > 0.0 && burst > 0.0 && maximum > 0
    }

    /** How long a bucket must idle before the sweep may drop it. */
    function Ttl(): real
      requires Valid()
    {
      MaxReal(60.0, burst / rate)
    }
  }

  datatype Answer = Admitted | Wait(seconds: int) | TableFull

  /** The number returned to the gateway: zero admits, anything else is a Retry-After. */
  function Code(a: Answer): int {
    match a
    case Admitted => 0
    case Wait(k) => k
    case TableFull => 60
  }

  function Live(p: Params, t: Table, now: real): Table
    requires p.Valid()
  {
    map k | k in t && now - t[k].at < p.Ttl() :: t[k]
  }

  predicate MustSweep(p: Params, t: Table, subject: string) {
    subject !in t && |t| >= p.maximum
  }

  /** The table against which a request is served: swept only when a newcomer meets a full table. */
  function Swept(p: Params, t: Table, subject: string, now: real): Table
    requires p.Valid()
  {
    if MustSweep(p, t, subject) then Live(p, t, now) else t
  }

  predicate Refused(p: Params, t: Table, subject: string, now: real)
    requires p.Valid()
  {
    MustSweep(p, t, subject) && |Live(p, t, now)| >= p.maximum
  }

  /** Tokens that accrue in so many seconds. */
  function Gained(p: Params, seconds: real): real {
    seconds * p.rate
  }

  function Refill(p: Params, b: Bucket, now: real): real {
    MinReal(p.burst, b.tokens + Gained(p, MaxReal(now - b.at, 0.0)))
  }

  /** Tokens the subject can draw on at `now`; an unknown subject starts with a full bucket. */
  function Level(p: Params, t: Table, subject: string, now: real): real {
    if subject in t then Refill(p, t[subject], now) else p.burst
  }

  /** Seconds until a bucket holding `tokens` holds a whole one. */
  function Shortfall(p: Params, tokens: real): real
    requires p.Valid()
  {
    (1.0 - tokens) / p.rate
  }

  function RetryAfter(p: Params, tokens: real): int
    requires p.Valid()
  {
    MaxInt(1, Ceiling(Shortfall(p, tokens)))
  }

  /** One token-bucket decision on a table without a size bound. */
  function Serve(p: Params, t: Table, subject: string, now: real): (Table, Answer)
    requires p.Valid()
  {
    var tokens := Level(p, t, subject, now);
    if tokens >= 1.0
    then (t[subject := Bucket(tokens - 1.0, now)], Admitted)
    else (t[subject := Bucket(tokens, now)], Wait(RetryAfter(p, tokens)))
  }

  function AdmitStep(p: Params, t: Table, subject: string, now: real): (Table, Answer)
    requires p.Valid()
  {
    if Refused(p, t, subject, now)
    then (Live(p, t, now), TableFull)
    else Serve(p, Swept(p, t, subject, now), subject, now)
  }

  class PrincipalLimiter {
    const params: Params
    var buckets: Table

    constructor (perMinute: real, burst: real, maxPrincipals: nat)
      requires perMinute > 0.0 && burst > 0.0 && maxPrincipals > 0
      ensures params == Params(perMinute / 60.0, burst, maxPrincipals) && params.Valid()
      ensures buckets == map[]
    {
      params := Params(perMinute / 60.0, burst, maxPrincipals);
      buckets := map[];
    }

    /** Non-positive limits are refused before an object exists. */
    static method Create(perMinute: real, burst: real, maxPrincipals: int)
      returns (r: Result<PrincipalLimiter, string>)
      ensures r.Ok? <==> perMinute > 0.0 && burst > 0.0 && maxPrincipals > 0
      ensures r.Ok? ==> fresh(r.value) && r.value.params == Params(perMinute / 60.0, burst, maxPrincipals)
                        && r.value.params.Valid() && r.value.buckets == map[]
    {
      if perMinute <= 0.0 || burst <= 0.0 || maxPrincipals <= 0 {
        return Err("principal limits must be positive");
      }
      var limiter := new PrincipalLimiter(perMinute, burst, maxPrincipals);
      return Ok(limiter);
    }

    method Admit(subject: string, now: real) returns (retry: int)
      requires params.Valid()
      modifies this
      ensures (buckets, retry) ==
              (var (table, answer) := AdmitStep(params, old(buckets), subject, now); (table, Code(answer)))
      ensures Inv(params, old(buckets), now) ==>
                (var level := Level(params, old(buckets), subject, now);
                 Level(params, buckets, subject, now) == if retry == 0 then level - 1.0 else level)
    {
      hide Inv;
      NumberTellsLevel(params, buckets, Request(subject, now));
      if subject !in buckets && |buckets| >= params.maximum {
        var ttl := MaxReal(60.0, params.burst / params.rate);
        buckets := map k | k in buckets && now - buckets[k].at < ttl :: buckets[k];
        if |buckets| >= params.maximum {
          return 60;
        }
      }
      var held := if subject in buckets then buckets[subject] else Bucket(params.burst, now);
      var tokens := MinReal(params.burst, held.tokens + MaxReal(now - held.at, 0.0) * params.rate);
      var accepted := tokens >= 1.0;
      buckets := buckets[subject := Bucket(if accepted then tokens - 1.0 else tokens, now)];
      if accepted {
        return 0;
      }
      return MaxInt(1, Ceiling((1.0 - tokens) / params.rate));
    }
  }

  // ---- Runs -------------------------------------------------------------------------------

  datatype Request = Request(subject: string, time: real)

  /** The clock never steps back, starting from `clock`. */
  predicate Ordered(clock: real, reqs: seq<Request>)
    decreases |reqs|
  {
    reqs == [] || (clock <= reqs[0].time && Ordered(reqs[0].time, reqs[1..]))
  }

  function Next(p: Params, t: Table, r: Request): Table
    requires p.Valid()
  {
    AdmitStep(p, t, r.subject, r.time).0
  }

  function Reply(p: Params, t: Table, r: Request): Answer
    requires p.Valid()
  {
    AdmitStep(p, t, r.subject, r.time).1
  }

  /** The number a request is answered with. */
  function Number(p: Params, t: Table, r: Request): int
    requires p.Valid()
  {
    Code(Reply(p, t, r))
  }

  function Run(p: Params, t: Table, reqs: seq<Request>): Table
    requires p.Valid()
    decreases |reqs|
  {
    if reqs == [] then t else Run(p, Next(p, t, reqs[0]), reqs[1..])
  }

  ghost predicate Inv(p: Params, t: Table, clock: real) {
    && |t| <= p.maximum
    && forall k :: k in t ==> 0.0 <= t[k].tokens <= p.burst && t[k].at <= clock
  }

  /** Dropping entries of a finite map cannot enlarge it. */
  lemma LiveIsSmaller(p: Params, t: Table, now: real)
    requires p.Valid()
    ensures |Live(p, t, now)| <= |t|
    ensures Live(p, t, now).Keys <= t.Keys
  {
    assert Live(p, t, now).Keys <= t.Keys;
    SubsetSize(Live(p, t, now).Keys, t.Keys);
  }

  // The only reasoning about products and quotients. Every other proof hides them.

  lemma GainedOrder(p: Params, s0: real, s1: real)
    requires p.Valid() && s0 <= s1
    ensures Gained(p, s0) <= Gained(p, s1)
    ensures Gained(p, 0.0) == 0.0
  {
    ProductOrder(s0, s1, p.rate);
  }

  lemma GainedSum(p: Params, s0: real, s1: real)
    ensures Gained(p, s0 + s1) == Gained(p, s0) + Gained(p, s1)
  {
    Distribute(s0, s1, p.rate);
  }

  /** Idling for the time-to-live gains at least a full burst. */
  lemma GainedInTtl(p: Params, idle: real)
    requires p.Valid() && idle >= p.Ttl()
    ensures idle >= 0.0 && Gained(p, idle) >= p.burst
  {
    Quotient(p.burst, p.rate);
    ProductOrder(p.burst / p.rate, idle, p.rate);
  }

  /** The shortfall is exactly the time in which the missing part of a token accrues. */
  lemma ShortfallIsExact(p: Params, tokens: real, idle: real)
    requires p.Valid()
    ensures tokens + Gained(p, idle) >= 1.0 <==> idle >= Shortfall(p, tokens)
    ensures Shortfall(p, tokens + Gained(p, idle)) == Shortfall(p, tokens) - idle
    ensures tokens < 1.0 ==> Shortfall(p, tokens) > 0.0
  {
    var need := Shortfall(p, tokens);
    Quotient(1.0 - tokens, p.rate);
    ProductOrder(need, idle, p.rate);
    Distribute(need, idle, p.rate);
    QuotientUnique(1.0 - (tokens + idle * p.rate), p.rate, need - idle);
  }

  /** With room for a whole token, a wait never lasts until the sweep could drop the bucket. */
  lemma ShortfallWithinTtl(p: Params, tokens: real)
    requires p.Valid() && p.burst >= 1.0 && 0.0 <= tokens
    ensures Shortfall(p, tokens) <= p.Ttl()
  {
    QuotientOrder(1.0 - tokens, p.burst, p.rate);
  }

  lemma RefillBounds(p: Params, t: Table, subject: string, now: real)
    requires p.Valid()
    requires subject in t ==> 0.0 <= t[subject].tokens <= p.burst
    ensures 0.0 <= Level(p, t, subject, now) <= p.burst
  {
    hide Gained;
    if subject in t {
      GainedOrder(p, 0.0, MaxReal(now - t[subject].at, 0.0));
    }
  }

  lemma SweptKeepsInv(p: Params, t: Table, subject: string, now: real)
    requires p.Valid() && Inv(p, t, now)
    ensures Inv(p, Live(p, t, now), now) && Inv(p, Swept(p, t, subject, now), now)
    ensures var s := Swept(p, t, subject, now);
            !Refused(p, t, subject, now) ==> subject in s || |s| < p.maximum
  {
    hide Gained, Params.Ttl;
    LiveIsSmaller(p, t, now);
  }

  lemma ServeKeepsInv(p: Params, s: Table, subject: string, now: real)
    requires p.Valid() && Inv(p, s, now) && (subject in s || |s| < p.maximum)
    ensures Inv(p, Serve(p, s, subject, now).0, now)
  {
    hide Gained, Params.Ttl, Shortfall, Level;
    RefillBounds(p, s, subject, now);
    var n := Serve(p, s, subject, now).0;
    assert n.Keys == s.Keys + {subject};
  }

  /** Every decision keeps the table within its bound and each bucket between empty and full. */
  lemma AdmitKeepsInv(p: Params, t: Table, r: Request, clock: real)
    requires p.Valid() && Inv(p, t, clock) && clock <= r.time
    ensures Inv(p, Next(p, t, r), r.time)
  {
    hide Gained, Params.Ttl, Shortfall, Level, Serve, Live;
    SweptKeepsInv(p, t, r.subject, r.time);
    if !Refused(p, t, r.subject, r.time) {
      ServeKeepsInv(p, Swept(p, t, r.subject, r.time), r.subject, r.time);
    }
  }

  // ---- Eviction is unobservable -----------------------------------------------------------

  /** A bucket idle for the eviction time-to-live has refilled completely. */
  lemma IdleBucketIsFull(p: Params, b: Bucket, now: real)
    requires p.Valid() && 0.0 <= b.tokens && now - b.at >= p.Ttl()
    ensures Refill(p, b, now) == p.burst
  {
    hide Gained, Params.Ttl;
    GainedInTtl(p, now - b.at);
  }

  /** `ideal` never evicts; every bucket it holds beyond `t` has idled for the time-to-live. */
  ghost predicate Refines(p: Params, t: Table, ideal: Table, clock: real)
    requires p.Valid()
  {
    && Inv(p, t, clock)
    && (forall k :: k in t ==> k in ideal && ideal[k] == t[k])
    && (forall k :: k in ideal && k !in t ==>
          0.0 <= ideal[k].tokens && clock - ideal[k].at >= p.Ttl())
  }

  /** The answers of a limiter that has room for every subject. */
  function IdealAnswers(p: Params, t: Table, reqs: seq<Request>): seq<Answer>
    requires p.Valid()
    decreases |reqs|
  {
    if reqs == [] then []
    else
      var (t', a) := Serve(p, t, reqs[0].subject, reqs[0].time);
      [a] + IdealAnswers(p, t', reqs[1..])
  }

  /** The requests that were not turned away by a full table, in order. */
  function Served(p: Params, t: Table, reqs: seq<Request>): seq<Request>
    requires p.Valid()
    decreases |reqs|
  {
    if reqs == [] then []
    else
      (if Reply(p, t, reqs[0]).TableFull? then [] else [reqs[0]]) + Served(p, Next(p, t, reqs[0]), reqs[1..])
  }

  /** The answers those requests received. */
  function ServedAnswers(p: Params, t: Table, reqs: seq<Request>): seq<Answer>
    requires p.Valid()
    decreases |reqs|
  {
    if reqs == [] then []
    else
      var a := Reply(p, t, reqs[0]);
      (if a.TableFull? then [] else [a]) + ServedAnswers(p, Next(p, t, reqs[0]), reqs[1..])
  }

  lemma ServeRefines(p: Params, t: Table, ideal: Table, clock: real, r: Request)
    requires p.Valid() && Refines(p, t, ideal, clock) && clock <= r.time
    ensures Reply(p, t, r).TableFull? ==> Refines(p, Next(p, t, r), ideal, r.time)
    ensures !Reply(p, t, r).TableFull? ==>
              var (ideal', a) := Serve(p, ideal, r.subject, r.time);
              a == Reply(p, t, r) && Refines(p, Next(p, t, r), ideal', r.time)
  {
    hide Gained, Params.Ttl, Shortfall;
    AdmitKeepsInv(p, t, r, clock);
    if !Refused(p, t, r.subject, r.time) {
      var s := Swept(p, t, r.subject, r.time);
      if r.subject !in s && r.subject in ideal {
        IdleBucketIsFull(p, ideal[r.subject], r.time);
      }
      assert Level(p, s, r.subject, r.time) == Level(p, ideal, r.subject, r.time);
    }
  }

  lemma {:induction false} RunRefines(p: Params, t: Table, ideal: Table, clock: real, reqs: seq<Request>)
    requires p.Valid() && Refines(p, t, ideal, clock) && Ordered(clock, reqs)
    ensures ServedAnswers(p, t, reqs) == IdealAnswers(p, ideal, Served(p, t, reqs))
    decreases |reqs|
  {
    if reqs != [] {
      var r := reqs[0];
      var t' := Next(p, t, r);
      ServeRefines(p, t, ideal, clock, r);
      if Reply(p, t, r).TableFull? {
        RunRefines(p, t', ideal, r.time, reqs[1..]);
        assert Served(p, t, reqs) == Served(p, t', reqs[1..]);
      } else {
        var ideal' := Serve(p, ideal, r.subject, r.time).0;
        RunRefines(p, t', ideal', r.time, reqs[1..]);
        assert Served(p, t, reqs)[1..] == Served(p, t', reqs[1..]);
      }
    }
  }

  /** Main result: sweeping the table can refuse a newcomer but never changes any other answer. */
  lemma EvictionIsUnobservable(p: Params, clock: real, reqs: seq<Request>)
    requires p.Valid() && Ordered(clock, reqs)
    ensures ServedAnswers(p, map[], reqs) == IdealAnswers(p, map[], Served(p, map[], reqs))
    ensures |Run(p, map[], reqs)| <= p.maximum
  {
    RunRefines(p, map[], map[], clock, reqs);
    RunKeepsInv(p, map[], clock, reqs);
  }

  lemma {:induction false} RunKeepsInv(p: Params, t: Table, clock: real, reqs: seq<Request>)
    requires p.Valid() && Inv(p, t, clock) && Ordered(clock, reqs)
    ensures |Run(p, t, reqs)| <= p.maximum
    decreases |reqs|
  {
    if reqs != [] {
      AdmitKeepsInv(p, t, reqs[0], clock);
      RunKeepsInv(p, Next(p, t, reqs[0]), reqs[0].time, reqs[1..]);
    }
  }

  // ---- Rate bound -------------------------------------------------------------------------

  /** Requests of `subject` at instants in the closed interval `[from, to]` that were answered with zero. */
  function Admissions(p: Params, t: Table, reqs: seq<Request>, subject: string, from: real, to: real): nat
    requires p.Valid()
    decreases |reqs|
  {
    if reqs == [] then 0
    else
      (if reqs[0].subject == subject && from <= reqs[0].time <= to && Number(p, t, reqs[0]) == 0 then 1 else 0)
      + Admissions(p, Next(p, t, reqs[0]), reqs[1..], subject, from, to)
  }

  /** Between two instants a bucket gains at most `rate` per second. */
  lemma LevelGrowth(p: Params, t: Table, subject: string, t0: real, t1: real)
    requires p.Valid() && t0 <= t1
    requires subject in t ==> t[subject].at <= t0 && 0.0 <= t[subject].tokens <= p.burst
    ensures Level(p, t, subject, t1) <= Level(p, t, subject, t0) + Gained(p, t1 - t0)
  {
    hide Gained;
    GainedOrder(p, 0.0, t1 - t0);
    if subject in t {
      var at := t[subject].at;
      GainedSum(p, t0 - at, t1 - t0);
      assert (t0 - at) + (t1 - t0) == t1 - at;
    }
  }

  /** Sweeping leaves every subject's level at the current instant as it was. */
  lemma SweepKeepsLevel(p: Params, t: Table, subject: string, other: string, now: real)
    requires p.Valid() && Inv(p, t, now)
    ensures Level(p, Swept(p, t, other, now), subject, now) == Level(p, t, subject, now)
    ensures Level(p, Live(p, t, now), subject, now) == Level(p, t, subject, now)
  {
    hide Gained, Params.Ttl;
    if subject in t && subject !in Live(p, t, now) {
      IdleBucketIsFull(p, t[subject], now);
    }
  }

  /** A decision about anyone lowers a subject's level by exactly one if it admits them, else not at all. */
  lemma StepLevel(p: Params, t: Table, r: Request, subject: string)
    requires p.Valid() && Inv(p, t, r.time)
    ensures Level(p, Next(p, t, r), subject, r.time) ==
            Level(p, t, subject, r.time) - (if r.subject == subject && Reply(p, t, r).Admitted? then 1.0 else 0.0)
    ensures Reply(p, t, r).Admitted? ==> Level(p, t, r.subject, r.time) >= 1.0
  {
    hide Gained, Params.Ttl, Shortfall;
    GainedOrder(p, 0.0, 0.0);
    SweepKeepsLevel(p, t, subject, r.subject, r.time);
    SweepKeepsLevel(p, t, r.subject, r.subject, r.time);
    RefillBounds(p, t, r.subject, r.time);
  }

  /** Zero is answered exactly to those admitted, and lowers the level by one; any other number leaves it. */
  lemma NumberTellsLevel(p: Params, t: Table, r: Request)
    requires p.Valid()
    ensures Number(p, t, r) >= 0
    ensures Number(p, t, r) == 0 <==> Reply(p, t, r).Admitted?
    ensures Inv(p, t, r.time) ==>
              Level(p, Next(p, t, r), r.subject, r.time)
              == Level(p, t, r.subject, r.time) - if Number(p, t, r) == 0 then 1.0 else 0.0
  {
    hide Gained, Params.Ttl, Shortfall, Level;
    if Inv(p, t, r.time) {
      StepLevel(p, t, r, r.subject);
    }
  }

  lemma {:induction false} AdmissionsWithin(p: Params, t: Table, clock: real, reqs: seq<Request>,
                                            subject: string, from: real, to: real)
    requires p.Valid() && Inv(p, t, clock) && Ordered(clock, reqs) && from <= clock <= to
    ensures Admissions(p, t, reqs, subject, from, to) as real <= Level(p, t, subject, clock) + Gained(p, to - clock)
    decreases |reqs|
  {
    hide Gained, Params.Ttl, Shortfall, Level, AdmitStep;
    if reqs == [] || reqs[0].time > to {
      NoAdmissionsAfter(p, t, clock, reqs, subject, from, to);
      RefillBounds(p, t, subject, clock);
      GainedOrder(p, 0.0, to - clock);
    } else {
      var r := reqs[0];
      AdmitKeepsInv(p, t, r, clock);
      LevelGrowth(p, t, subject, clock, r.time);
      StepLevel(p, t, r, subject);
      NumberTellsLevel(p, t, r);
      AdmissionsWithin(p, Next(p, t, r), r.time, reqs[1..], subject, from, to);
      GainedSum(p, r.time - clock, to - r.time);
      assert (r.time - clock) + (to - r.time) == to - clock;
    }
  }

  lemma {:induction false} NoAdmissionsAfter(p: Params, t: Table, clock: real, reqs: seq<Request>,
                                             subject: string, from: real, to: real)
    requires p.Valid() && Ordered(clock, reqs) && (reqs == [] || reqs[0].time > to)
    ensures Admissions(p, t, reqs, subject, from, to) == 0
    decreases |reqs|
  {
    if reqs != [] {
      NoAdmissionsAfter(p, Next(p, t, reqs[0]), reqs[0].time, reqs[1..], subject, from, to);
    }
  }

  lemma {:induction false} AdmissionsBounded(p: Params, t: Table, clock: real, reqs: seq<Request>,
                                             subject: string, from: real, to: real)
    requires p.Valid() && Inv(p, t, clock) && Ordered(clock, reqs) && from <= to
    ensures Admissions(p, t, reqs, subject, from, to) as real <= p.burst + Gained(p, to - from)
    decreases |reqs|
  {
    hide Gained, Params.Ttl, Shortfall, Level, AdmitStep;
    GainedOrder(p, 0.0, to - from);
    if reqs == [] || to < reqs[0].time {
      NoAdmissionsAfter(p, t, clock, reqs, subject, from, to);
      ProductSign(to - from, p.rate);
    } else if reqs[0].time < from {
      AdmitKeepsInv(p, t, reqs[0], clock);
      AdmissionsBounded(p, Next(p, t, reqs[0]), reqs[0].time, reqs[1..], subject, from, to);
    } else {
      var start := reqs[0].time;
      AdmissionsWithin(p, t, start, reqs, subject, from, to);
      RefillBounds(p, t, subject, start);
      GainedOrder(p, to - start, to - from);
    }
  }

  /** Main result: in any interval a subject is answered with zero at most `burst + rate * length` times,
      whatever sweeps and re-creations of its bucket happen in between. */
  lemma RateBound(p: Params, clock: real, reqs: seq<Request>, subject: string, from: real, to: real)
    requires p.Valid() && Ordered(clock, reqs) && from <= to
    ensures Admissions(p, map[], reqs, subject, from, to) as real <= p.burst + (to - from) * p.rate
  {
    hide Gained, Admissions, Ordered;
    GainedIs(p, to - from);
    AdmissionsBounded(p, map[], clock, reqs, subject, from, to);
  }

  lemma GainedIs(p: Params, seconds: real)
    ensures Gained(p, seconds) == seconds * p.rate
  {
  }

  // ---- Retry-After is exact ---------------------------------------------------------------

  /** The instant from which a depleted bucket holds a whole token again. */
  function ReadyAt(p: Params, b: Bucket): real
    requires p.Valid()
  {
    b.at + Shortfall(p, b.tokens)
  }

  lemma RefillReachesOne(p: Params, b: Bucket, now: real)
    requires p.Valid() && p.burst >= 1.0 && 0.0 <= b.tokens < 1.0 && b.at <= now
    ensures Refill(p, b, now) >= 1.0 <==> now >= ReadyAt(p, b)
    ensures now < ReadyAt(p, b) ==> ReadyAt(p, Bucket(Refill(p, b, now), now)) == ReadyAt(p, b)
    ensures now < ReadyAt(p, b) ==> now - b.at < p.Ttl()
  {
    hide Gained, Params.Ttl, Shortfall;
    ShortfallIsExact(p, b.tokens, now - b.at);
    ShortfallWithinTtl(p, b.tokens);
  }

  /** The instant a request denied for want of tokens would have to wait for. */
  function ReadyTime(p: Params, t: Table, r: Request): real
    requires p.Valid()
  {
    r.time + Shortfall(p, Level(p, t, r.subject, r.time))
  }

  /** The subject waits for the instant `ready`, which polling has not moved; its bucket can only
      have been swept once that instant has passed. */
  ghost predicate Waiting(p: Params, t: Table, subject: string, ready: real, clock: real)
    requires p.Valid()
  {
    if subject in t
    then 0.0 <= t[subject].tokens < 1.0 && t[subject].at <= clock && ReadyAt(p, t[subject]) == ready
    else clock >= ready
  }

  /** Requests of others, and the subject's own polls before `ready`, do not disturb the wait. */
  lemma RequestKeepsWaiting(p: Params, t: Table, subject: string, ready: real, clock: real, r: Request)
    requires p.Valid() && p.burst >= 1.0 && Inv(p, t, clock)
    requires Waiting(p, t, subject, ready, clock) && clock <= r.time
    requires r.subject == subject ==> r.time < ready
    ensures Waiting(p, Next(p, t, r), subject, ready, r.time)
  {
    hide Gained, Params.Ttl, Shortfall;
    if subject in t {
      RefillReachesOne(p, t[subject], r.time);
      RefillBounds(p, t, subject, r.time);
    }
  }

  lemma {:induction false} RequestsKeepWaiting(p: Params, t: Table, subject: string, ready: real, clock: real,
                                               reqs: seq<Request>)
    requires p.Valid() && p.burst >= 1.0 && Inv(p, t, clock) && Ordered(clock, reqs)
    requires Waiting(p, t, subject, ready, clock)
    requires forall r :: r in reqs && r.subject == subject ==> r.time < ready
    ensures Waiting(p, Run(p, t, reqs), subject, ready, LastTime(clock, reqs))
    ensures Inv(p, Run(p, t, reqs), LastTime(clock, reqs))
    decreases |reqs|
  {
    if reqs != [] {
      var r := reqs[0];
      RequestKeepsWaiting(p, t, subject, ready, clock, r);
      AdmitKeepsInv(p, t, r, clock);
      assert forall q :: q in reqs[1..] ==> q in reqs;
      RequestsKeepWaiting(p, Next(p, t, r), subject, ready, r.time, reqs[1..]);
    }
  }

  function LastTime(clock: real, reqs: seq<Request>): real
    decreases |reqs|
  {
    if reqs == [] then clock else LastTime(reqs[0].time, reqs[1..])
  }

  /** The denied subject asks again only before the instant it waits for. */
  ghost predicate PollsEarly(p: Params, t: Table, denied: Request, between: seq<Request>)
    requires p.Valid()
  {
    forall r :: r in between && r.subject == denied.subject ==> r.time < ReadyTime(p, t, denied)
  }

  /** A bucket that is ready `rest` seconds from now is told to wait that long, in whole seconds. */
  lemma WaitShrinks(p: Params, b: Bucket, now: real, rest: real)
    requires p.Valid() && p.burst >= 1.0 && 0.0 <= b.tokens < 1.0 && b.at <= now
    requires ReadyAt(p, b) == now + rest && rest > 0.0
    ensures RetryAfter(p, Refill(p, b, now)) == Ceiling(rest)
  {
    hide Gained, Params.Ttl;
    hide Shortfall;
    RefillReachesOne(p, b, now);
    assert Shortfall(p, Refill(p, b, now)) == rest;
  }

  /** Main result: a number `k` answered to a subject the table has room for counts down: whatever requests
      of others and denied polls of its own come in between, `j` seconds later the number is `k - j` while
      that is positive and zero afterwards; only a full table that has meanwhile swept its refilled bucket
      can still refuse it. */
  lemma RetryAfterIsExact(p: Params, t: Table, clock: real, denied: Request, between: seq<Request>, j: nat)
    requires p.Valid() && p.burst >= 1.0 && Inv(p, t, clock) && clock <= denied.time
    requires Ordered(denied.time, between) && LastTime(denied.time, between) <= denied.time + j as real
    ensures var table := Run(p, Next(p, t, denied), between);
            var later := Request(denied.subject, denied.time + j as real);
            var k := Number(p, t, denied);
            (k != 0 && !Refused(p, t, denied.subject, denied.time) && PollsEarly(p, t, denied, between)) ==>
              && (j < k ==> Number(p, table, later) == k - j)
              && (j >= k ==> Number(p, table, later) == 0
                             || (denied.subject !in table && Refused(p, table, denied.subject, later.time)))
  {
    hide Gained, Params.Ttl, Shortfall;
    NumberTellsLevel(p, t, denied);
    if Reply(p, t, denied).Wait? && PollsEarly(p, t, denied, between) {
      var t' := Next(p, t, denied);
      var b := t'[denied.subject];
      var ready := ReadyTime(p, t, denied);
      AdmitKeepsInv(p, t, denied, clock);
      SweepKeepsLevel(p, t, denied.subject, denied.subject, denied.time);
      RefillBounds(p, t, denied.subject, denied.time);
      assert b == Bucket(Level(p, t, denied.subject, denied.time), denied.time);
      RequestsKeepWaiting(p, t', denied.subject, ready, denied.time, between);
      var last := Run(p, t', between);
      var later := denied.time + j as real;
      if denied.subject in last {
        RefillReachesOne(p, last[denied.subject], later);
      }
      var need := Shortfall(p, b.tokens);
      ShortfallIsExact(p, b.tokens, 0.0);
      assert j as real >= need <==> j >= Ceiling(need);
      if j < Ceiling(need) {
        WaitShrinks(p, last[denied.subject], later, need - j as real);
      }
    }
  }

  // ---- When the table is full -------------------------------------------------------------

  /** Less than a minute, or than a whole burst takes to refill. */
  predicate Lately(p: Params, seconds: real) {
    seconds < 60.0 || seconds * p.rate < p.burst
  }

  lemma TtlIsLately(p: Params, seconds: real)
    requires p.Valid()
    ensures seconds < p.Ttl() <==> Lately(p, seconds)
  {
    Quotient(p.burst, p.rate);
    ProductOrder(seconds, p.burst / p.rate, p.rate);
  }

  /** The subject of a request lately served rather than turned away by a full table. */
  function LatelyServed(p: Params, t: Table, r: Request, now: real): set<string>
    requires p.Valid()
  {
    if !Reply(p, t, r).TableFull? && Lately(p, now - r.time) then {r.subject} else {}
  }

  /** The subjects lately served. */
  function Recent(p: Params, t: Table, reqs: seq<Request>, now: real): set<string>
    requires p.Valid()
    decreases |reqs|
  {
    if reqs == [] then {}
    else
      LatelyServed(p, t, reqs[0], now) + Recent(p, Next(p, t, reqs[0]), reqs[1..], now)
  }

  /** A subject is live after a decision if it was live before or has just been served. */
  predicate IsLive(p: Params, t: Table, subject: string, now: real)
    requires p.Valid()
  {
    subject in t && now - t[subject].at < p.Ttl()
  }

  lemma LiveKeys(p: Params, t: Table, now: real)
    requires p.Valid()
    ensures forall k :: k in Live(p, t, now).Keys <==> IsLive(p, t, k, now)
  {
    hide Params.Ttl;
  }

  lemma SweptIsLive(p: Params, t: Table, other: string, subject: string, earlier: real, now: real)
    requires p.Valid() && earlier <= now
    ensures IsLive(p, Live(p, t, earlier), subject, now) == IsLive(p, t, subject, now)
    ensures IsLive(p, Swept(p, t, other, earlier), subject, now) == IsLive(p, t, subject, now)
  {
    hide Params.Ttl;
  }

  lemma ServedIsLive(p: Params, s: Table, r: Request, subject: string, now: real)
    requires p.Valid() && Inv(p, s, r.time) && r.time <= now
    ensures IsLive(p, Serve(p, s, r.subject, r.time).0, subject, now)
            <==> IsLive(p, s, subject, now) || (subject == r.subject && now - r.time < p.Ttl())
  {
    hide Params.Ttl, Level, Shortfall;
  }

  lemma LiveAfter(p: Params, t: Table, r: Request, now: real)
    requires p.Valid() && Inv(p, t, r.time) && r.time <= now
    ensures Live(p, Next(p, t, r), now).Keys == Live(p, t, now).Keys + LatelyServed(p, t, r, now)
  {
    hide Params.Ttl, Lately, Live, IsLive, Serve, Inv, Refused, Swept;
    TtlIsLately(p, now - r.time);
    LiveKeys(p, t, now);
    LiveKeys(p, Next(p, t, r), now);
    ServeAnswers(p, Swept(p, t, r.subject, r.time), r);
    SweptKeepsInv(p, t, r.subject, r.time);
    forall k
      ensures IsLive(p, Next(p, t, r), k, now)
              <==> IsLive(p, t, k, now)
                   || (!Reply(p, t, r).TableFull? && k == r.subject && now - r.time < p.Ttl())
    {
      SweptIsLive(p, t, r.subject, k, r.time, now);
      if !Refused(p, t, r.subject, r.time) {
        ServedIsLive(p, Swept(p, t, r.subject, r.time), r, k, now);
      }
    }
  }

  lemma ServeAnswers(p: Params, s: Table, r: Request)
    requires p.Valid()
    ensures !Serve(p, s, r.subject, r.time).1.TableFull?
  {
    hide Level;
  }

  lemma {:induction false} LiveIsRecent(p: Params, t: Table, clock: real, reqs: seq<Request>, now: real)
    requires p.Valid() && Inv(p, t, clock) && Ordered(clock, reqs) && LastTime(clock, reqs) <= now
    ensures Live(p, Run(p, t, reqs), now).Keys == Live(p, t, now).Keys + Recent(p, t, reqs, now)
    ensures Inv(p, Run(p, t, reqs), now)
    decreases |reqs|
  {
    hide Params.Ttl, LatelyServed, AdmitStep, Live, Inv, Next, Reply;
    if reqs == [] {
      InvLater(p, t, clock, now);
    } else {
      var r := reqs[0];
      LastTimeOrdered(r.time, reqs[1..]);
      AdmitKeepsInv(p, t, r, clock);
      InvLater(p, t, clock, r.time);
      LiveAfter(p, t, r, now);
      LiveIsRecent(p, Next(p, t, r), r.time, reqs[1..], now);
    }
  }

  lemma InvLater(p: Params, t: Table, clock: real, now: real)
    requires Inv(p, t, clock) && clock <= now
    ensures Inv(p, t, now)
  {
  }

  lemma {:induction false} LastTimeOrdered(clock: real, reqs: seq<Request>)
    requires Ordered(clock, reqs)
    ensures clock <= LastTime(clock, reqs)
    decreases |reqs|
  {
    if reqs != [] {
      LastTimeOrdered(reqs[0].time, reqs[1..]);
    }
  }

  /** A table in which everything is live holds nobody else. */
  lemma FullOfLive(p: Params, t: Table, now: real)
    requires p.Valid() && |t| <= p.maximum <= |Live(p, t, now)|
    ensures Live(p, t, now).Keys == t.Keys && |t| == p.maximum
  {
    LiveIsSmaller(p, t, now);
    SubsetSize(t.Keys, Live(p, t, now).Keys + (t.Keys - Live(p, t, now).Keys));
    assert t.Keys == Live(p, t, now).Keys + (t.Keys - Live(p, t, now).Keys);
    assert |t.Keys| == |Live(p, t, now).Keys| + |t.Keys - Live(p, t, now).Keys|;
  }

  /** Main result: a request is turned away for a full table, and told to come back in a minute, exactly when
      as many other subjects as the table holds were served lately and this one was not. */
  lemma TableFullIsExact(p: Params, clock: real, reqs: seq<Request>, r: Request)
    requires p.Valid() && Ordered(clock, reqs) && LastTime(clock, reqs) <= r.time
    ensures var recent := Recent(p, map[], reqs, r.time);
            && |recent| <= p.maximum
            && (Reply(p, Run(p, map[], reqs), r).TableFull? <==> |recent| == p.maximum && r.subject !in recent)
            && (Reply(p, Run(p, map[], reqs), r).TableFull? ==> Number(p, Run(p, map[], reqs), r) == 60)
  {
    hide Gained, Params.Ttl, Lately, Shortfall, Level, Recent, Run;
    var t := Run(p, map[], reqs);
    LiveIsRecent(p, map[], clock, reqs, r.time);
    LiveIsSmaller(p, t, r.time);
    assert Live(p, map[], r.time).Keys == {};
    assert |Live(p, t, r.time)| == |Live(p, t, r.time).Keys|;
    if |Live(p, t, r.time)| >= p.maximum {
      FullOfLive(p, t, r.time);
    }
  }

  // ---- Bursts below one -------------------------------------------------------------------

  lemma NoWholeToken(p: Params, t: Table, r: Request, clock: real)
    requires p.Valid() && p.burst < 1.0 && Inv(p, t, clock) && clock <= r.time
    ensures !Reply(p, t, r).Admitted?
  {
    hide Gained, Params.Ttl, Shortfall;
    RefillBounds(p, Swept(p, t, r.subject, r.time), r.subject, r.time);
  }

  lemma {:induction false} NeverAdmitted(p: Params, t: Table, clock: real, reqs: seq<Request>,
                                         subject: string, from: real, to: real)
    requires p.Valid() && p.burst < 1.0 && Inv(p, t, clock) && Ordered(clock, reqs)
    ensures Admissions(p, t, reqs, subject, from, to) == 0
    decreases |reqs|
  {
    hide Gained, Params.Ttl, Shortfall, AdmitStep;
    if reqs != [] {
      NoWholeToken(p, t, reqs[0], clock);
      NumberTellsLevel(p, t, reqs[0]);
      AdmitKeepsInv(p, t, reqs[0], clock);
      NeverAdmitted(p, Next(p, t, reqs[0]), reqs[0].time, reqs[1..], subject, from, to);
    }
  }

  /** `burst >= 1` is what a promise to admit needs: a limiter with a smaller burst, which can be
      created, admits nobody in any run, and any other admits the first request it gets. */
  lemma AdmitsExactlyWithWholeBurst(p: Params, clock: real, subject: string)
    requires p.Valid()
    ensures p.burst >= 1.0 <==>
            exists reqs, from, to :: Ordered(clock, reqs) && Admissions(p, map[], reqs, subject, from, to) > 0
    ensures p.burst >= 1.0 ==> Number(p, map[], Request(subject, clock)) == 0
  {
    hide Gained, Params.Ttl, Shortfall;
    if p.burst >= 1.0 {
      var reqs := [Request(subject, clock)];
      assert reqs[1..] == [];
      GainedOrder(p, 0.0, 0.0);
      assert Admissions(p, map[], reqs, subject, clock, clock) == 1;
    } else {
      forall reqs, from, to | Ordered(clock, reqs)
        ensures Admissions(p, map[], reqs, subject, from, to) == 0
      {
        NeverAdmitted(p, map[], clock, reqs, subject, from, to);
      }
    }
  }
}
