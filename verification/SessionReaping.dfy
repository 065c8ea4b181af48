/**
 pkg/mcp/middleware.go: the reaper cannot be observed. A run with it and the same run without it
 are kept in step, over any changes of the limits, as long as limiters fill up in time.
 */
module SessionReaping {
  import Integers
  import opened RateLimiter
  import opened SessionLimits

  function NoReaps(events: seq<Event>): seq<Event> {
    if events == [] then []
    else
      var front, e := events[..|events| - 1], events[|events| - 1];
      if e.ReapTick? then NoReaps(front) else NoReaps(front) + [e]
  }

  /** Every request asks its limiter within `delay` of looking it up. */
  ghost predicate Prompt(sys: Sys, events: seq<Event>, delay: int) {
    events == [] ||
    (var front, e := events[..|events| - 1], events[|events| - 1];
     && Prompt(sys, front, delay)
     && (e.Decide? && e.request in Run(sys, front).pending ==>
           e.now - Run(sys, front).pending[e.request].entered <= delay))
  }

  /**
   While idle, and not being asked, a limiter fills up before the reaper can take it: ten minutes
   less the delay earn the burst. Where a token takes p/q nanoseconds one unit of 1/p token may be
   missing, since the reaper leaves one more nanosecond and a debt is at most q - 1 units.
   */
  ghost predicate FillsInTime(limit: Limit, burst: int, delay: int) {
    limit.PerSecond? ==>
      TokensFromDuration(limit, REAP_AFTER - delay) >= burst as real || FillsInUnits(limit, burst, REAP_AFTER - delay)
  }

  ghost predicate FillsInUnits(limit: Limit, burst: int, idle: int) {
    exists p, q :: TokenTakes(limit, p, q) && burst * p <= idle * q + 1
  }

  /** So it is at all limits that the requests of a run carry. */
  ghost predicate AllFill(events: seq<Event>, delay: int) {
    forall e :: e in events && e.Enter? && RateLimited(e.limit, e.session) ==> e.burst >= 0 && FillsInTime(e.limit, e.burst, delay)
  }

  lemma IdleFillsUp(b: Bucket, now: int, delay: int)
    requires Steady(b) && b.last <= now && FillsInTime(b.limit, b.burst, delay)
    requires now - b.last > REAP_AFTER - delay >= 0
    ensures FullAt(b, now)
  {
    if b.limit.PerSecond? {
      var waited, idle := now - b.last, REAP_AFTER - delay;
      if p, q :| TokenTakes(b.limit, p, q) && b.burst * p <= idle * q + 1 {
        IdleFillsUnits(b, waited, idle, p, q);
      } else {
        EarnedAddsUp(b.limit, idle, 1);
        EarnedAddsUp(b.limit, idle + 1, waited - (idle + 1));
        EarnedGrows(b.limit, waited - (idle + 1));
        DebtIsBounded(b, b.last);
      }
    }
  }

  lemma IdleFillsUnits(b: Bucket, waited: int, idle: int, p: int, q: int)
    requires Steady(b) && TokenTakes(b.limit, p, q) && b.burst * p <= idle * q + 1 && waited > idle
    ensures b.tokens + TokensFromDuration(b.limit, waited) >= b.burst as real
  {
    var k := DebtOnGrid(b, p, q);
    EarnedInUnits(b.limit, p, q, waited);
    UnitsAdd(b.tokens, TokensFromDuration(b.limit, waited), p, k, waited * q);
    UnitsOfWhole(b.burst, p);
    Integers.FilledUp(k, waited, idle, p, q, b.burst);
    UnitsInOrder(b.tokens + TokensFromDuration(b.limit, waited), b.burst as real, p, k + waited * q, b.burst * p);
  }

  // ---------------------------------------------------------------- two runs side by side

  /** A request that may still ask. */
  predicate Alive(sys: Sys, q: nat, now: int, delay: int) {
    q in sys.pending && sys.pending[q].entered + delay >= now
  }

  /** It holds its session's current limiter. */
  predicate Current(sys: Sys, q: nat)
    requires q in sys.pending
  {
    var p := sys.pending[q];
    p.session in sys.table.limiters && p.bucket == sys.table.limiters[p.session].bucket
  }

  /** The reaping run and the other one agree on a session, or the reaped limiter is full. */
  ghost predicate SimSession(r: Table, n: Table, s: string, now: int, delay: int)
    requires InRange(r) && InRange(n)
  {
    && (s in r.limiters ==>
          && s in n.limiters
          && r.limiters[s].lastSeen == n.limiters[s].lastSeen
          && SameFrom(BucketOf(r, s), BucketOf(n, s), now))
    && (s in n.limiters && s !in r.limiters ==> FullAt(BucketOf(n, s), now))
    && (s in n.limiters ==> BucketOf(n, s).last <= n.limiters[s].lastSeen + delay)
  }

  /** A request holds limiters that cannot be told apart. */
  ghost predicate SimPending(r: Sys, n: Sys, q: nat, now: int, delay: int)
    requires q in r.pending && q in n.pending
  {
    var p := r.pending[q];
    && n.pending[q].session == p.session && n.pending[q].entered == p.entered
    && p.bucket < |r.table.buckets| && n.pending[q].bucket < |n.table.buckets|
    && (Alive(r, q, now, delay) ==> SameFrom(r.table.buckets[p.bucket], n.table.buckets[n.pending[q].bucket], now))
  }

  /** It holds its session's current limiter in both runs, or in neither. */
  ghost predicate SimCurrent(r: Sys, n: Sys, q: nat)
    requires q in r.pending && q in n.pending
  {
    && (Current(r, q) <==> Current(n, q))
    && (Current(r, q) ==> r.pending[q].entered <= r.table.limiters[r.pending[q].session].lastSeen)
  }

  /** What the two tables have in common, once their limits let limiters fill up in time. */
  ghost predicate SimTables(r: Sys, n: Sys, now: int, delay: int)
    requires Solid(r) && Solid(n) && r.pending.Keys == n.pending.Keys
  {
    && (forall s :: SimSession(r.table, n.table, s, now, delay))
    && (forall q :: Alive(r, q, now, delay) ==> SimCurrent(r, n, q))
  }

  /** Requests share a limiter in one run if and only if they do in the other. */
  ghost predicate SimPairs(r: Sys, n: Sys, now: int, delay: int)
    requires r.pending.Keys == n.pending.Keys
  {
    forall p, q :: Alive(r, p, now, delay) && Alive(r, q, now, delay) ==>
      (r.pending[p].bucket == r.pending[q].bucket <==> n.pending[p].bucket == n.pending[q].bucket)
  }

  ghost predicate Sim(r: Sys, n: Sys, now: int, delay: int) {
    && WellFormed(r, now) && WellFormed(n, now)
    && r.answers == n.answers
    && r.table.limit == n.table.limit && r.table.burst == n.table.burst
    && r.pending.Keys == n.pending.Keys
    && (forall q :: q in r.pending ==> SimPending(r, n, q, now, delay))
    && SimPairs(r, n, now, delay)
    && (FillsInTime(r.table.limit, r.table.burst, delay) ==> SimTables(r, n, now, delay))
  }

  lemma SimLater(r: Sys, n: Sys, now: int, later: int, delay: int)
    requires Sim(r, n, now, delay) && now <= later
    ensures Sim(r, n, later, delay)
  {
    forall q | q in r.pending ensures SimPending(r, n, q, later, delay) {
      assert SimPending(r, n, q, now, delay);
      if Alive(r, q, later, delay) {
        SameFromLater(r.table.buckets[r.pending[q].bucket], n.table.buckets[n.pending[q].bucket], now, later);
      }
    }
    if FillsInTime(r.table.limit, r.table.burst, delay) {
      forall s ensures SimSession(r.table, n.table, s, later, delay) {
        assert SimSession(r.table, n.table, s, now, delay);
        if s in r.table.limiters {
          SameFromLater(BucketOf(r.table, s), BucketOf(n.table, s), now, later);
        } else if s in n.table.limiters {
          FullStaysFull(BucketOf(n.table, s), now, later);
        }
      }
      assert forall q :: Alive(r, q, later, delay) ==> Alive(r, q, now, delay);
    }
  }

  // ---------------------------------------------------------------- requests entering

  lemma NewIsFull(limit: Limit, burst: int, now: int)
    requires 0 <= now
    ensures FullAt(NewBucket(limit, burst), now)
  {
    EarnedGrows(limit, now);
  }

  lemma SimLookup(r: Table, n: Table, session: string, now: int, delay: int, s: string)
    requires InRange(r) && InRange(n) && r.limit == n.limit && r.burst == n.burst
    requires 0 <= now && 0 <= delay
    requires session in n.limiters ==> BucketOf(n, session).limit == n.limit && BucketOf(n, session).burst == n.burst
                                       && BucketOf(n, session).last <= now
    requires SimSession(r, n, s, now, delay)
    ensures InRange(Lookup(r, r.limit, r.burst, session, now)) && InRange(Lookup(n, n.limit, n.burst, session, now))
    ensures SimSession(Lookup(r, r.limit, r.burst, session, now), Lookup(n, n.limit, n.burst, session, now), s, now, delay)
  {
    if s == session {
      LookupHere(r, session, now);
      LookupHere(n, session, now);
      NewIsFull(r.limit, r.burst, now);
    } else {
      LookupElsewhere(r, session, now, s);
      LookupElsewhere(n, session, now, s);
    }
  }

  /** At new limits both tables are empty, and no request holds a current limiter. */
  lemma SimRefreshed(r: Sys, n: Sys, now: int, delay: int, limit: Limit, burst: int)
    requires Sim(r, n, now, delay) && FillsInTime(limit, burst, delay)
    ensures var r', n' := r.(table := Refreshed(r.table, limit, burst)), n.(table := Refreshed(n.table, limit, burst));
            Sim(r', n', now, delay) && r'.table.limit == limit && r'.table.burst == burst
  {
    var r', n' := r.(table := Refreshed(r.table, limit, burst)), n.(table := Refreshed(n.table, limit, burst));
    if limit != r.table.limit || burst != r.table.burst {
      forall q | q in r'.pending ensures SimPending(r', n', q, now, delay) {
        assert SimPending(r, n, q, now, delay);
      }
    }
  }

  lemma SimEnterPending(r: Sys, n: Sys, e: Event, delay: int, q: nat)
    requires Sim(r, n, e.now, delay) && SimTables(r, n, e.now, delay) && delay >= 0
    requires e.Enter? && RateLimited(e.limit, e.session) && e.limit == r.table.limit && e.burst == r.table.burst
    requires q in Step(r, e).pending
    ensures q in Step(n, e).pending && SimPending(Step(r, e), Step(n, e), q, e.now, delay)
    ensures Alive(Step(r, e), q, e.now, delay) ==> SimCurrent(Step(r, e), Step(n, e), q)
  {
    LookupHere(r.table, e.session, e.now);
    LookupHere(n.table, e.session, e.now);
    assert SimSession(r.table, n.table, e.session, e.now, delay);
    if q != e.request {
      assert SimPending(r, n, q, e.now, delay);
      assert Alive(r, q, e.now, delay) ==> SimCurrent(r, n, q);
      var asked := r.pending[q].session;
      if asked != e.session {
        LookupElsewhere(r.table, e.session, e.now, asked);
        LookupElsewhere(n.table, e.session, e.now, asked);
      }
    } else {
      NewIsFull(e.limit, e.burst, e.now);
    }
  }

  /** The request that enters shares its limiter with the same others in both runs. */
  lemma SimEnterPair(r: Sys, n: Sys, e: Event, delay: int, p: nat)
    requires Sim(r, n, e.now, delay) && SimTables(r, n, e.now, delay) && delay >= 0
    requires e.Enter? && RateLimited(e.limit, e.session) && e.limit == r.table.limit && e.burst == r.table.burst
    requires p != e.request && Alive(r, p, e.now, delay)
    ensures var r', n' := Step(r, e), Step(n, e);
            r'.pending[p].bucket == r'.pending[e.request].bucket <==> n'.pending[p].bucket == n'.pending[e.request].bucket
  {
    assert SimPending(r, n, p, e.now, delay) && SimCurrent(r, n, p);
    assert SimSession(r.table, n.table, e.session, e.now, delay);
  }

  lemma SimEnterPairs(r: Sys, n: Sys, e: Event, delay: int)
    requires Sim(r, n, e.now, delay) && SimTables(r, n, e.now, delay) && delay >= 0
    requires e.Enter? && RateLimited(e.limit, e.session) && e.limit == r.table.limit && e.burst == r.table.burst
    ensures Step(r, e).pending.Keys == Step(n, e).pending.Keys && SimPairs(Step(r, e), Step(n, e), e.now, delay)
  {
    var r', n' := Step(r, e), Step(n, e);
    forall p | p != e.request && Alive(r', p, e.now, delay)
      ensures r'.pending[p].bucket == r'.pending[e.request].bucket <==> n'.pending[p].bucket == n'.pending[e.request].bucket
    {
      SimEnterPair(r, n, e, delay, p);
    }
  }

  lemma SimLookups(r: Sys, n: Sys, e: Event, delay: int)
    requires Sim(r, n, e.now, delay) && SimTables(r, n, e.now, delay) && delay >= 0
    requires e.Enter? && RateLimited(e.limit, e.session) && e.limit == r.table.limit && e.burst == r.table.burst
    requires Solid(Step(r, e)) && Solid(Step(n, e))
    ensures forall s :: SimSession(Step(r, e).table, Step(n, e).table, s, e.now, delay)
  {
    forall s ensures SimSession(Step(r, e).table, Step(n, e).table, s, e.now, delay) {
      assert SimSession(r.table, n.table, s, e.now, delay);
      SimLookup(r.table, n.table, e.session, e.now, delay, s);
    }
  }

  lemma SimEnterTables(r: Sys, n: Sys, e: Event, delay: int)
    requires Sim(r, n, e.now, delay) && SimTables(r, n, e.now, delay) && delay >= 0
    requires e.Enter? && RateLimited(e.limit, e.session) && e.limit == r.table.limit && e.burst == r.table.burst
    requires Solid(Step(r, e)) && Solid(Step(n, e))
    ensures Step(r, e).pending.Keys == Step(n, e).pending.Keys && SimTables(Step(r, e), Step(n, e), e.now, delay)
    ensures forall q :: q in Step(r, e).pending ==> SimPending(Step(r, e), Step(n, e), q, e.now, delay)
  {
    var r', n' := Step(r, e), Step(n, e);
    SimLookups(r, n, e, delay);
    forall q | q in r'.pending
      ensures SimPending(r', n', q, e.now, delay) && (Alive(r', q, e.now, delay) ==> SimCurrent(r', n', q))
    {
      SimEnterPending(r, n, e, delay, q);
    }
  }

  lemma SimEnterAtLimits(r: Sys, n: Sys, e: Event, delay: int)
    requires Sim(r, n, e.now, delay) && SimTables(r, n, e.now, delay) && delay >= 0
    requires e.Enter? && RateLimited(e.limit, e.session) && e.limit == r.table.limit && e.burst == r.table.burst && e.burst >= 0
    ensures Sim(Step(r, e), Step(n, e), e.now, delay)
  {
    StepKeepsWellFormed(r, e, e.now);
    StepKeepsWellFormed(n, e, e.now);
    SimEnterTables(r, n, e, delay);
    SimEnterPairs(r, n, e, delay);
  }

  lemma SimEnter(r: Sys, n: Sys, e: Event, delay: int)
    requires Sim(r, n, e.now, delay) && delay >= 0 && e.Enter?
    requires RateLimited(e.limit, e.session) ==> e.burst >= 0 && FillsInTime(e.limit, e.burst, delay)
    ensures Sim(Step(r, e), Step(n, e), e.now, delay)
  {
    if RateLimited(e.limit, e.session) {
      SimRefreshed(r, n, e.now, delay, e.limit, e.burst);
      var r', n' := r.(table := Refreshed(r.table, e.limit, e.burst)), n.(table := Refreshed(n.table, e.limit, e.burst));
      SimEnterAtLimits(r', n', e, delay);
      assert Step(r', e) == Step(r, e) && Step(n', e) == Step(n, e);
    }
  }

  // ---------------------------------------------------------------- answers

  /** Asking a limiter in both runs keeps a session's limiters alike, whether it is theirs or not. */
  lemma SimDecideSession(r: Sys, n: Sys, e: Event, delay: int, s: string)
    requires Sim(r, n, e.now, delay) && SimTables(r, n, e.now, delay) && e.Decide? && Alive(r, e.request, e.now, delay)
    ensures Solid(Step(r, e)) && Solid(Step(n, e)) && SimSession(Step(r, e).table, Step(n, e).table, s, e.now, delay)
  {
    StepKeepsSolid(r, e);
    StepKeepsSolid(n, e);
    assert SimSession(r.table, n.table, s, e.now, delay);
    assert SimPending(r, n, e.request, e.now, delay) && SimCurrent(r, n, e.request);
    var i, j := r.pending[e.request].bucket, n.pending[e.request].bucket;
    SameAnswer(r.table.buckets[i], n.table.buckets[j], e.now);
    if s == r.pending[e.request].session && Current(r, e.request) {
      assert BucketOf(r.table, s) == r.table.buckets[i] && BucketOf(n.table, s) == n.table.buckets[j];
    } else {
      assert s in r.table.limiters ==> r.table.limiters[s].bucket != i;
      assert s in n.table.limiters ==> n.table.limiters[s].bucket != j;
    }
  }

  lemma SimDecidePending(r: Sys, n: Sys, e: Event, delay: int, q: nat)
    requires Sim(r, n, e.now, delay) && e.Decide? && Alive(r, e.request, e.now, delay)
    requires q in Step(r, e).pending
    ensures q in Step(n, e).pending && SimPending(Step(r, e), Step(n, e), q, e.now, delay)
  {
    assert SimPending(r, n, e.request, e.now, delay) && SimPending(r, n, q, e.now, delay);
    SameAnswer(r.table.buckets[r.pending[e.request].bucket], n.table.buckets[n.pending[e.request].bucket], e.now);
  }

  lemma SimDecide(r: Sys, n: Sys, e: Event, delay: int)
    requires Sim(r, n, e.now, delay) && e.Decide?
    requires e.request in r.pending ==> Alive(r, e.request, e.now, delay)
    ensures Sim(Step(r, e), Step(n, e), e.now, delay)
  {
    if e.request in r.pending {
      var r', n' := Step(r, e), Step(n, e);
      StepKeepsWellFormed(r, e, e.now);
      StepKeepsWellFormed(n, e, e.now);
      assert SimPending(r, n, e.request, e.now, delay);
      SameAnswer(r.table.buckets[r.pending[e.request].bucket], n.table.buckets[n.pending[e.request].bucket], e.now);
      forall q | q in r'.pending ensures SimPending(r', n', q, e.now, delay) {
        SimDecidePending(r, n, e, delay, q);
      }
      if FillsInTime(r.table.limit, r.table.burst, delay) {
        forall s ensures SimSession(r'.table, n'.table, s, e.now, delay) {
          SimDecideSession(r, n, e, delay, s);
        }
        forall q | Alive(r', q, e.now, delay) ensures SimCurrent(r', n', q) {
          assert Alive(r, q, e.now, delay) && SimCurrent(r, n, q);
        }
      }
    }
  }

  // ---------------------------------------------------------------- the reaper

  lemma SimReapSession(r: Sys, n: Sys, e: Event, delay: int, s: string)
    requires Sim(r, n, e.now, delay) && SimTables(r, n, e.now, delay) && e.ReapTick?
    requires 0 <= delay <= REAP_AFTER && FillsInTime(r.table.limit, r.table.burst, delay)
    ensures Solid(Step(r, e)) && SimSession(Step(r, e).table, n.table, s, e.now, delay)
  {
    StepKeepsSolid(r, e);
    assert SimSession(r.table, n.table, s, e.now, delay);
    if s in r.table.limiters && Stale(r.table.limiters[s], e.now) {
      IdleFillsUp(BucketOf(n.table, s), e.now, delay);
    }
  }

  lemma SimReap(r: Sys, n: Sys, e: Event, delay: int)
    requires Sim(r, n, e.now, delay) && e.ReapTick? && 0 <= delay <= REAP_AFTER
    ensures Sim(Step(r, e), n, e.now, delay)
  {
    var r' := Step(r, e);
    StepKeepsWellFormed(r, e, e.now);
    forall q | q in r'.pending ensures SimPending(r', n, q, e.now, delay) {
      assert SimPending(r, n, q, e.now, delay);
    }
    if FillsInTime(r.table.limit, r.table.burst, delay) {
      forall s ensures SimSession(r'.table, n.table, s, e.now, delay) {
        SimReapSession(r, n, e, delay, s);
      }
      forall q | Alive(r', q, e.now, delay) ensures SimCurrent(r', n, q) {
        assert Alive(r, q, e.now, delay) && SimCurrent(r, n, q);
      }
    }
  }

  // ---------------------------------------------------------------- whole runs

  lemma {:induction false} RunsStaySimilar(r0: Sys, n0: Sys, events: seq<Event>, from: int, delay: int)
    requires 0 <= delay <= REAP_AFTER && Sim(r0, n0, from, delay)
    requires Timed(events, from) && AllFill(events, delay) && Prompt(r0, events, delay)
    ensures Sim(Run(r0, events), Run(n0, NoReaps(events)), LastTime(events, from), delay)
  {
    if events != [] {
      var front, e := events[..|events| - 1], events[|events| - 1];
      assert events == front + [e];
      RunsStaySimilar(r0, n0, front, from, delay);
      var r, n := Run(r0, front), Run(n0, NoReaps(front));
      SimLater(r, n, LastTime(front, from), e.now, delay);
      if e.ReapTick? {
        SimReap(r, n, e, delay);
      } else {
        assert (NoReaps(front) + [e])[..|NoReaps(front)|] == NoReaps(front);
        if e.Enter? {
          SimEnter(r, n, e, delay);
        } else {
          SimDecide(r, n, e, delay);
        }
      }
    }
  }

  /** Limiters were last asked within `delay` of their last lookup, and those current for a request were looked up since it entered. */
  ghost predicate Timely(sys: Sys, delay: int) {
    && Solid(sys) && TimelyTable(sys.table, delay)
    && (forall q :: q in sys.pending && Current(sys, q) ==>
          sys.pending[q].entered <= sys.table.limiters[sys.pending[q].session].lastSeen)
  }

  predicate TimelyTable(t: Table, delay: int)
    requires InRange(t)
  {
    forall s :: s in t.limiters ==> BucketOf(t, s).last <= t.limiters[s].lastSeen + delay
  }

  lemma LookupKeepsTimely(t: Table, session: string, now: int, delay: int)
    requires InRange(t) && TimelyTable(t, delay) && now >= 0 && delay >= 0
    requires session in t.limiters ==> BucketOf(t, session).last <= now
    ensures var u := Lookup(t, t.limit, t.burst, session, now); InRange(u) && TimelyTable(u, delay)
  {
    var u := Lookup(t, t.limit, t.burst, session, now);
    LookupHere(t, session, now);
    forall s | s in u.limiters && s != session
      ensures s in t.limiters && u.limiters[s] == t.limiters[s] && BucketOf(u, s) == BucketOf(t, s)
    {
      LookupElsewhere(t, session, now, s);
    }
  }

  lemma EnterKeepsTimely(sys: Sys, e: Event, delay: int)
    requires WellFormed(sys, e.now) && Timely(sys, delay) && delay >= 0
    requires e.Enter? && RateLimited(e.limit, e.session) && e.burst >= 0
    ensures Timely(Step(sys, e), delay)
  {
    StepKeepsSolid(sys, e);
    LookupKeepsTimely(Refreshed(sys.table, e.limit, e.burst), e.session, e.now, delay);
  }

  lemma StepKeepsTimely(sys: Sys, e: Event, delay: int)
    requires WellFormed(sys, e.now) && Timely(sys, delay) && delay >= 0
    requires e.Enter? && RateLimited(e.limit, e.session) ==> e.burst >= 0
    requires e.Decide? && e.request in sys.pending ==> Alive(sys, e.request, e.now, delay)
    ensures Timely(Step(sys, e), delay)
  {
    StepKeepsSolid(sys, e);
    if e.Enter? && RateLimited(e.limit, e.session) {
      EnterKeepsTimely(sys, e, delay);
    }
  }

  lemma {:induction false} ReachableIsTimely(events: seq<Event>, delay: int)
    requires Timed(events, 0) && SaneBursts(events) && Prompt(START, events, delay) && delay >= 0
    ensures WellFormed(Run(START, events), LastTime(events, 0)) && Timely(Run(START, events), delay)
  {
    if events != [] {
      var front, e := events[..|events| - 1], events[|events| - 1];
      assert events == front + [e];
      ReachableIsTimely(front, delay);
      StepKeepsWellFormed(Run(START, front), e, LastTime(front, 0));
      StepKeepsTimely(Run(START, front), e, delay);
    }
  }

  lemma SimSelf(sys: Sys, now: int, delay: int)
    requires WellFormed(sys, now) && Timely(sys, delay)
    ensures Sim(sys, sys, now, delay)
  {
    forall q | q in sys.pending ensures SimPending(sys, sys, q, now, delay) {
    }
    forall s ensures SimSession(sys.table, sys.table, s, now, delay) {
    }
  }

  /** The same from any state of that kind. */
  lemma {:induction false} UnobservableFrom(sys: Sys, segment: seq<Event>, from: int, delay: int)
    requires 0 <= delay <= REAP_AFTER && WellFormed(sys, from) && Timely(sys, delay)
    requires Timed(segment, from) && AllFill(segment, delay) && Prompt(sys, segment, delay)
    ensures Run(sys, segment).answers == Run(sys, NoReaps(segment)).answers
  {
    SimSelf(sys, from, delay);
    RunsStaySimilar(sys, sys, segment, from, delay);
  }

  /**
   Reaping cannot be observed: after any timed run in which requests ask their limiter within
   `delay` of looking it up, a segment of such a run gives every request the answer it would get
   without the reaper, provided limiters fill up in ten minutes less that delay at all limits the
   segment's requests carry. The limits may change as often as they like.
   */
  lemma {:induction false} ReapingIsUnobservable(first: seq<Event>, segment: seq<Event>, delay: int)
    requires 0 <= delay <= REAP_AFTER
    requires Timed(first, 0) && SaneBursts(first) && Prompt(START, first, delay)
    requires Timed(segment, LastTime(first, 0)) && AllFill(segment, delay) && Prompt(Run(START, first), segment, delay)
    ensures Run(Run(START, first), segment).answers == Run(Run(START, first), NoReaps(segment)).answers
  {
    ReachableIsTimely(first, delay);
    UnobservableFrom(Run(START, first), segment, LastTime(first, 0), delay);
  }

  // ---------------------------------------------------------------- requests that never ask

  /** The state without the requests that are too late to ask. */
  function Living(sys: Sys, now: int, delay: int): Sys {
    sys.(pending := map q | q in sys.pending && Alive(sys, q, now, delay) :: sys.pending[q])
  }

  ghost predicate Forgets(sys: Sys, less: Sys, now: int, delay: int) {
    && less.table == sys.table && less.answers == sys.answers
    && (forall q :: q in less.pending ==> q in sys.pending && less.pending[q] == sys.pending[q])
    && (forall q :: Alive(sys, q, now, delay) ==> q in less.pending)
  }

  lemma {:induction false} ForgottenMakeNoDifference(sys: Sys, less: Sys, events: seq<Event>, from: int, delay: int)
    requires Forgets(sys, less, from, delay) && Timed(events, from) && Prompt(sys, events, delay)
    ensures Forgets(Run(sys, events), Run(less, events), LastTime(events, from), delay) && Prompt(less, events, delay)
  {
    if events != [] {
      var front, e := events[..|events| - 1], events[|events| - 1];
      ForgottenMakeNoDifference(sys, less, front, from, delay);
      assert e.Decide? && e.request in Run(sys, front).pending ==> Alive(Run(sys, front), e.request, e.now, delay);
    }
  }

  lemma LivingIsTimely(sys: Sys, now: int, delay: int)
    requires WellFormed(sys, now) && Timely(sys, delay)
    ensures WellFormed(Living(sys, now, delay), now) && Timely(Living(sys, now, delay), delay)
    ensures Forgets(sys, Living(sys, now, delay), now, delay)
  {
  }

  lemma {:induction false} NoReapsLeft(events: seq<Event>)
    ensures forall e :: e in NoReaps(events) <==> e in events && !e.ReapTick?
  {
    if events != [] {
      var front, e := events[..|events| - 1], events[|events| - 1];
      assert events == front + [e];
      NoReapsLeft(front);
    }
  }

  lemma {:induction false} NoReapsTimed(events: seq<Event>, start: int)
    requires Timed(events, start)
    ensures Timed(NoReaps(events), start)
    ensures start <= LastTime(NoReaps(events), start) <= LastTime(events, start)
  {
    if events != [] {
      var front, e := events[..|events| - 1], events[|events| - 1];
      NoReapsTimed(front, start);
      if !e.ReapTick? {
        assert (NoReaps(front) + [e])[..|NoReaps(front)|] == NoReaps(front);
      }
    }
  }

  lemma NoReapsFit(segment: seq<Event>, limit: Limit, burst: int, from: int, quiet: seq<Event>)
    requires quiet == NoReaps(segment) && Timed(segment, from) && Configured(segment, limit, burst)
    ensures Timed(quiet, from) && Configured(quiet, limit, burst)
    ensures forall e :: e in quiet ==> !e.ReapTick?
    ensures LastTime(quiet, from) <= LastTime(segment, from)
  {
    NoReapsLeft(segment);
    NoReapsTimed(segment, from);
  }
}
