/**
 pkg/mcp/middleware.go: how many requests of a session are admitted, whatever the other sessions,
 the clocks, the reaper and earlier changes of the limits do.
 */
module SessionRates {
  import opened Common
  import opened RateLimiter
  import opened SessionLimits
  import opened SessionReaping

  function AdmittedFor(answers: seq<Answer>, session: string): nat {
    if answers == [] then 0
    else
      var last := answers[|answers| - 1];
      AdmittedFor(answers[..|answers| - 1], session) + (if last.session == session && last.ok then 1 else 0)
  }

  predicate AtLimits(sys: Sys, limit: Limit, burst: int) {
    sys.table.limit == limit && sys.table.burst == burst
  }

  /** The reaper does not take this session's limiter at these limits during the run. */
  ghost predicate Kept(sys: Sys, events: seq<Event>, session: string, limit: Limit, burst: int) {
    events == [] ||
    (var front, e := events[..|events| - 1], events[|events| - 1];
     && Kept(sys, front, session, limit, burst)
     && (e.ReapTick? ==> Spared(Run(sys, front), e.now, session, limit, burst)))
  }

  predicate Spared(sys: Sys, now: int, session: string, limit: Limit, burst: int) {
    AtLimits(sys, limit, burst) && session in sys.table.limiters ==> !Stale(sys.table.limiters[session], now)
  }

  /** A request of the session that holds another limiter than the session's current one at these limits. */
  predicate HoldsOther(sys: Sys, q: nat, session: string, limit: Limit, burst: int)
    requires q in sys.pending
  {
    && sys.pending[q].session == session
    && !(AtLimits(sys, limit, burst) && session in sys.table.limiters
         && sys.pending[q].bucket == sys.table.limiters[session].bucket)
  }

  function Others(sys: Sys, session: string, limit: Limit, burst: int): set<nat> {
    set q | q in sys.pending && HoldsOther(sys, q, session, limit, burst)
  }

  /** The clock readings with which the session's limiters were asked. */
  function Readings(answers: seq<Answer>, session: string): seq<int> {
    if answers == [] then []
    else
      var last := answers[|answers| - 1];
      Readings(answers[..|answers| - 1], session) + if last.session == session then [last.time] else []
  }

  lemma OneMoreAnswer(answers: seq<Answer>, last: Answer, session: string)
    ensures AdmittedFor(answers + [last], session) == AdmittedFor(answers, session) + if last.session == session && last.ok then 1 else 0
    ensures Readings(answers + [last], session) == Readings(answers, session) + if last.session == session then [last.time] else []
  {
    assert (answers + [last])[..|answers|] == answers;
  }

  function Elapsed(readings: seq<int>): nat {
    if readings == [] then 0 else Forward(readings[0], readings[1..])
  }

  lemma ElapsedAppends(readings: seq<int>, u: int)
    requires readings != []
    ensures Elapsed(readings + [u]) == Elapsed(readings) + Moved(readings[|readings| - 1], u)
  {
    assert (readings + [u])[1..] == readings[1..] + [u];
    ForwardAppends(readings[0], readings[1..], u);
  }

  /** Fewer than the burst and `others`, plus the rate times `d` nanoseconds and one more. */
  ghost predicate Bounded(admitted: nat, others: nat, limit: Limit, burst: int, d: int) {
    admitted <= others || admitted as real < (others + burst) as real + TokensFromDuration(limit, d + 1)
  }

  /** In whole numbers, at p/q nanoseconds to a token; for q == 1 that is the bound without the nanosecond. */
  lemma BoundedInIntegers(admitted: nat, others: nat, limit: Limit, burst: int, d: int, p: int, q: int)
    requires TokenTakes(limit, p, q)
    ensures Bounded(admitted, others, limit, burst, d)
       <==> admitted <= others || admitted * p <= (others + burst) * p + d * q + q - 1
  {
    BoundInIntegers(limit, admitted, others + burst, d, p, q);
  }

  /**
   Where a segment of constant limits has come to, for one session: `own` requests were admitted
   by its limiter at these limits, and `spent` others have had their answer.
   */
  ghost predicate OnBooks(sys: Sys, answers: seq<Answer>, session: string, limit: Limit, burst: int, own: nat, spent: nat, others: nat) {
    && Solid(sys)
    && AdmittedFor(answers, session) <= own + spent
    && spent + |Others(sys, session, limit, burst)| <= others
    && (own > 0 ==> HasBooks(sys, Readings(answers, session), session, limit, burst, own))
  }

  ghost predicate HasBooks(sys: Sys, readings: seq<int>, session: string, limit: Limit, burst: int, own: nat)
    requires InRange(sys.table)
  {
    && AtLimits(sys, limit, burst) && session in sys.table.limiters && readings != []
    && Balanced(BucketOf(sys.table, session), burst as real, own, Elapsed(readings), readings[|readings| - 1])
  }

  lemma FewerOthers(sys: Sys, next: Sys, session: string, limit: Limit, burst: int)
    requires Others(next, session, limit, burst) <= Others(sys, session, limit, burst)
    ensures |Others(next, session, limit, burst)| <= |Others(sys, session, limit, burst)|
  {
    SubsetIsSmaller(Others(next, session, limit, burst), Others(sys, session, limit, burst));
  }

  lemma EnterKeepsOthers(sys: Sys, e: Event, session: string, limit: Limit, burst: int)
    requires Solid(sys) && e.Enter? && RateLimited(e.limit, e.session) && e.limit == limit && e.burst == burst
    ensures Others(Step(sys, e), session, limit, burst) <= Others(sys, session, limit, burst)
  {
    var next := Step(sys, e);
    forall q | q in next.pending && HoldsOther(next, q, session, limit, burst) ensures q in Others(sys, session, limit, burst) {
    }
  }

  lemma EnterKeepsBooks(sys: Sys, e: Event, answers: seq<Answer>, session: string, limit: Limit, burst: int,
                        own: nat, spent: nat, others: nat)
    requires burst >= 0 && OnBooks(sys, answers, session, limit, burst, own, spent, others)
    requires e.Enter? && RateLimited(e.limit, e.session) && e.limit == limit && e.burst == burst
    ensures OnBooks(Step(sys, e), answers, session, limit, burst, own, spent, others)
  {
    StepKeepsSolid(sys, e);
    EnterKeepsOthers(sys, e, session, limit, burst);
    FewerOthers(sys, Step(sys, e), session, limit, burst);
    if own > 0 {
      LookupHere(sys.table, e.session, e.now);
      if e.session != session {
        LookupElsewhere(sys.table, e.session, e.now, session);
      }
    }
  }

  lemma ReapKeepsBooks(sys: Sys, e: Event, answers: seq<Answer>, session: string, limit: Limit, burst: int,
                       own: nat, spent: nat, others: nat)
    requires OnBooks(sys, answers, session, limit, burst, own, spent, others)
    requires e.ReapTick? && Spared(sys, e.now, session, limit, burst)
    ensures OnBooks(Step(sys, e), answers, session, limit, burst, own, spent, others)
  {
    StepKeepsSolid(sys, e);
    FewerOthers(sys, Step(sys, e), session, limit, burst);
  }

  function AnswerOf(sys: Sys, e: Event): Answer
    requires e.Decide? && e.request in sys.pending && sys.pending[e.request].bucket < |sys.table.buckets|
  {
    var p := sys.pending[e.request];
    Answer(e.request, p.session, e.now, Allow(sys.table.buckets[p.bucket], e.now).ok)
  }

  /** The answer to a request of another session. */
  lemma ForeignDecideKeepsBooks(sys: Sys, e: Event, answers: seq<Answer>, session: string, limit: Limit, burst: int,
                                own: nat, spent: nat, others: nat)
    requires OnBooks(sys, answers, session, limit, burst, own, spent, others)
    requires e.Decide? && e.request in sys.pending && sys.pending[e.request].session != session
    ensures OnBooks(Step(sys, e), answers + [AnswerOf(sys, e)], session, limit, burst, own, spent, others)
  {
    StepKeepsSolid(sys, e);
    FewerOthers(sys, Step(sys, e), session, limit, burst);
    assert (answers + [AnswerOf(sys, e)])[..|answers|] == answers;
    assert Readings(answers + [AnswerOf(sys, e)], session) == Readings(answers, session);
    if own > 0 {
      assert BucketOf(Step(sys, e).table, session) == BucketOf(sys.table, session);
    }
  }

  /** The answer to a request that holds another limiter than the session's current one. */
  lemma OtherDecideKeepsBooks(sys: Sys, e: Event, answers: seq<Answer>, session: string, limit: Limit, burst: int,
                              own: nat, spent: nat, others: nat)
    requires OnBooks(sys, answers, session, limit, burst, own, spent, others)
    requires e.Decide? && e.request in Others(sys, session, limit, burst)
    ensures OnBooks(Step(sys, e), answers + [AnswerOf(sys, e)], session, limit, burst, own, spent + 1, others)
  {
    var next, before := Step(sys, e), Readings(answers, session);
    StepKeepsSolid(sys, e);
    assert (answers + [AnswerOf(sys, e)])[..|answers|] == answers;
    assert Others(next, session, limit, burst) <= Others(sys, session, limit, burst) - {e.request};
    SubsetIsSmaller(Others(next, session, limit, burst), Others(sys, session, limit, burst) - {e.request});
    if own > 0 {
      ElapsedAppends(before, e.now);
      BalancedNext(BucketOf(sys.table, session), burst as real, own, Elapsed(before), before[|before| - 1], e.now);
      assert BucketOf(next.table, session) == BucketOf(sys.table, session);
    }
  }

  /** The answer of the session's current limiter. */
  lemma OwnDecideKeepsBooks(sys: Sys, e: Event, answers: seq<Answer>, session: string, limit: Limit, burst: int,
                            own: nat, spent: nat, others: nat)
    requires limit.PerSecond? && OnBooks(sys, answers, session, limit, burst, own, spent, others)
    requires e.Decide? && e.request in sys.pending && sys.pending[e.request].session == session
    requires !HoldsOther(sys, e.request, session, limit, burst)
    ensures OnBooks(Step(sys, e), answers + [AnswerOf(sys, e)], session, limit, burst,
                    if AnswerOf(sys, e).ok then own + 1 else own, spent, others)
  {
    var next, before, b := Step(sys, e), Readings(answers, session), BucketOf(sys.table, session);
    StepKeepsSolid(sys, e);
    assert (answers + [AnswerOf(sys, e)])[..|answers|] == answers;
    FewerOthers(sys, next, session, limit, burst);
    if own > 0 {
      ElapsedAppends(before, e.now);
      BalancedNext(b, burst as real, own, Elapsed(before), before[|before| - 1], e.now);
    } else {
      OpensBalanced(b, Elapsed(before + [e.now]), e.now);
    }
    AllowKeepsBalance(b, burst as real, own, Elapsed(before + [e.now]), e.now);
  }

  lemma StepKeepsBooks(sys: Sys, e: Event, answers: seq<Answer>, session: string, limit: Limit, burst: int,
                       own: nat, spent: nat, others: nat) returns (own': nat, spent': nat)
    requires limit.PerSecond? && burst >= 0 && OnBooks(sys, answers, session, limit, burst, own, spent, others)
    requires e.Enter? && RateLimited(e.limit, e.session) ==> e.limit == limit && e.burst == burst
    requires e.ReapTick? ==> Spared(sys, e.now, session, limit, burst)
    ensures sys.answers <= Step(sys, e).answers
    ensures OnBooks(Step(sys, e), answers + Step(sys, e).answers[|sys.answers|..], session, limit, burst, own', spent', others)
  {
    own', spent' := own, spent;
    var given := Step(sys, e).answers[|sys.answers|..];
    if e.Decide? && e.request in sys.pending {
      assert given == [AnswerOf(sys, e)];
      if sys.pending[e.request].session != session {
        ForeignDecideKeepsBooks(sys, e, answers, session, limit, burst, own, spent, others);
      } else if HoldsOther(sys, e.request, session, limit, burst) {
        OtherDecideKeepsBooks(sys, e, answers, session, limit, burst, own, spent, others);
        spent' := spent + 1;
      } else {
        OwnDecideKeepsBooks(sys, e, answers, session, limit, burst, own, spent, others);
        own' := if AnswerOf(sys, e).ok then own + 1 else own;
      }
    } else {
      assert given == [] && answers + given == answers;
      if e.Enter? && RateLimited(e.limit, e.session) {
        EnterKeepsBooks(sys, e, answers, session, limit, burst, own, spent, others);
      } else if e.ReapTick? {
        ReapKeepsBooks(sys, e, answers, session, limit, burst, own, spent, others);
      }
    }
  }

  /** The answers that a segment adds. */
  function Given(sys: Sys, events: seq<Event>): seq<Answer> {
    if |sys.answers| <= |Run(sys, events).answers| then Run(sys, events).answers[|sys.answers|..] else []
  }

  lemma GivenNext(sys: Sys, front: seq<Event>, e: Event)
    requires sys.answers <= Run(sys, front).answers && Run(sys, front).answers <= Step(Run(sys, front), e).answers
    ensures Run(sys, front + [e]) == Step(Run(sys, front), e) && sys.answers <= Run(sys, front + [e]).answers
    ensures Given(sys, front + [e]) == Given(sys, front) + Step(Run(sys, front), e).answers[|Run(sys, front).answers|..]
  {
    RunNext(sys, front, Run(sys, front), e);
  }

  lemma {:induction false} SegmentKeepsBooks(sys: Sys, events: seq<Event>, session: string, limit: Limit, burst: int)
    returns (own: nat, spent: nat)
    requires limit.PerSecond? && burst >= 0 && Solid(sys)
    requires Configured(events, limit, burst) && Kept(sys, events, session, limit, burst)
    ensures sys.answers <= Run(sys, events).answers
    ensures OnBooks(Run(sys, events), Given(sys, events), session, limit, burst, own, spent, |Others(sys, session, limit, burst)|)
  {
    if events == [] {
      own, spent := 0, 0;
      assert Given(sys, events) == [];
    } else {
      var front, e := events[..|events| - 1], events[|events| - 1];
      assert events == front + [e];
      own, spent := SegmentKeepsBooks(sys, front, session, limit, burst);
      var now, given, others := Run(sys, front), Given(sys, front), |Others(sys, session, limit, burst)|;
      own, spent := StepKeepsBooks(now, e, given, session, limit, burst, own, spent, others);
      GivenNext(sys, front, e);
    }
  }

  /**
   The rate bound, from any reachable state and with clock readings in any order: while the
   requests of a segment carry the same limits and the reaper spares the session, fewer of its
   requests are admitted than the burst, plus those that came into the segment holding another
   limiter, plus the rate times the forward movements of its readings and one nanosecond.
   */
  lemma {:induction false} SessionRateBound(sys: Sys, events: seq<Event>, session: string, limit: Limit, burst: int)
    requires limit.PerSecond? && limit.rps > 0.0 && burst >= 0 && Solid(sys)
    requires Configured(events, limit, burst) && Kept(sys, events, session, limit, burst)
    ensures Bounded(AdmittedFor(Given(sys, events), session), |Others(sys, session, limit, burst)|, limit, burst,
                    Elapsed(Readings(Given(sys, events), session)))
  {
    var own, spent := SegmentKeepsBooks(sys, events, session, limit, burst);
    BooksBoundAdmitted(Run(sys, events), Given(sys, events), session, limit, burst, own, spent, |Others(sys, session, limit, burst)|);
  }

  lemma BooksBoundAdmitted(end: Sys, answers: seq<Answer>, session: string, limit: Limit, burst: int, own: nat, spent: nat, others: nat)
    requires limit.PerSecond? && limit.rps > 0.0 && burst >= 0 && OnBooks(end, answers, session, limit, burst, own, spent, others)
    ensures Bounded(AdmittedFor(answers, session), others, limit, burst, Elapsed(Readings(answers, session)))
  {
    if own > 0 {
      var b, readings := BucketOf(end.table, session), Readings(answers, session);
      assert b.limit == limit && b.burst == burst && Steady(b);
      OwnBound(b, own, Elapsed(readings), readings[|readings| - 1], spent, others, AdmittedFor(answers, session));
    }
  }

  lemma OwnBound(b: Bucket, own: nat, d: nat, now: int, spent: nat, others: nat, admitted: nat)
    requires b.limit.PerSecond? && b.limit.rps > 0.0 && Steady(b) && Balanced(b, b.burst as real, own, d, now)
    requires admitted <= own + spent && spent <= others
    ensures Bounded(admitted, others, b.limit, b.burst, d)
  {
    BalanceBoundsAdmitted(b, b.burst as real, own, d, now);
    OwnAndOthers(admitted, own, spent, others, b.burst, TokensFromDuration(b.limit, d + 1));
  }

  lemma OwnAndOthers(admitted: nat, own: nat, spent: nat, others: nat, burst: int, earned: real)
    requires admitted <= own + spent && spent <= others && own as real < burst as real + earned
    ensures admitted as real < (others + burst) as real + earned
  {
  }

  predicate Within(readings: seq<int>, from: int, until: int) {
    NonDecreasing(readings) && forall i :: 0 <= i < |readings| ==> from <= readings[i] <= until
  }

  lemma WithinNext(readings: seq<int>, from: int, until: int, now: int)
    requires Within(readings, from, until) && from <= until <= now
    ensures Within(readings, from, now) && Within(readings + [now], from, now)
  {
  }

  /** The readings of a segment whose events are in order lie between its ends, in order. */
  lemma {:induction false} ReadingsInOrder(sys: Sys, events: seq<Event>, session: string, from: int)
    requires Timed(events, from)
    ensures sys.answers <= Run(sys, events).answers && from <= LastTime(events, from)
    ensures Within(Readings(Given(sys, events), session), from, LastTime(events, from))
  {
    if events == [] {
      assert Given(sys, events) == [];
    } else {
      var front, e := events[..|events| - 1], events[|events| - 1];
      ReadingsInOrder(sys, front, session, from);
      OneAnswer(Run(sys, front), e);
      var given := Run(sys, events).answers[|Run(sys, front).answers|..];
      assert Given(sys, events) == Given(sys, front) + given;
      LaterReading(Given(sys, front), given, session, e.now);
      WithinNext(Readings(Given(sys, front), session), from, LastTime(front, from), e.now);
    }
  }

  /** A step answers at most one request, with its own clock reading. */
  lemma OneAnswer(sys: Sys, e: Event)
    ensures sys.answers <= Step(sys, e).answers
    ensures var given := Step(sys, e).answers[|sys.answers|..]; given == [] || (|given| == 1 && given[0].time == e.now)
  {
  }

  lemma LaterReading(answers: seq<Answer>, given: seq<Answer>, session: string, now: int)
    requires given == [] || (|given| == 1 && given[0].time == now)
    ensures Readings(answers + given, session) == Readings(answers, session)
         || Readings(answers + given, session) == Readings(answers, session) + [now]
  {
    if given == [] {
      assert answers + given == answers;
    } else {
      assert (answers + given)[..|answers|] == answers;
    }
  }

  lemma {:induction false} ElapsedWithin(readings: seq<int>, from: int, until: int)
    requires from <= until && Within(readings, from, until)
    ensures Elapsed(readings) <= until - from
  {
    if readings != [] {
      ForwardInOrder(readings[0], readings[1..]);
    }
  }

  lemma BoundLonger(admitted: nat, others: nat, limit: Limit, burst: int, d: int, longer: int)
    requires d <= longer && Bounded(admitted, others, limit, burst, d)
    ensures Bounded(admitted, others, limit, burst, longer)
  {
    EarnedAddsUp(limit, d + 1, longer - d);
    EarnedGrows(limit, longer - d);
  }

  /** With the events in order, the forward movements stay within the time the segment takes. */
  lemma {:induction false} SessionRateBoundInOrder(sys: Sys, events: seq<Event>, session: string, limit: Limit, burst: int, from: int, until: int)
    requires limit.PerSecond? && limit.rps > 0.0 && burst >= 0 && Solid(sys)
    requires Configured(events, limit, burst) && Kept(sys, events, session, limit, burst)
    requires Timed(events, from) && LastTime(events, from) <= until
    ensures Bounded(AdmittedFor(Given(sys, events), session), |Others(sys, session, limit, burst)|, limit, burst, until - from)
  {
    SessionRateBound(sys, events, session, limit, burst);
    InOrderElapsed(sys, events, session, from, until);
    BoundLonger(AdmittedFor(Given(sys, events), session), |Others(sys, session, limit, burst)|, limit, burst,
                Elapsed(Readings(Given(sys, events), session)), until - from);
  }

  lemma InOrderElapsed(sys: Sys, events: seq<Event>, session: string, from: int, until: int)
    requires Timed(events, from) && LastTime(events, from) <= until
    ensures Elapsed(Readings(Given(sys, events), session)) <= until - from
  {
    ReadingsInOrder(sys, events, session, from);
    ElapsedWithin(Readings(Given(sys, events), session), from, until);
  }

  lemma {:induction false} NobodyReaped(sys: Sys, events: seq<Event>, session: string, limit: Limit, burst: int)
    requires forall e :: e in events ==> !e.ReapTick?
    ensures Kept(sys, events, session, limit, burst)
  {
    if events != [] {
      var front, e := events[..|events| - 1], events[|events| - 1];
      assert events == front + [e];
      NobodyReaped(sys, front, session, limit, burst);
    }
  }

  /**
   The rate bound with the reaper at work, from any point of any timed and prompt run: whatever
   the limits were before, while requests carry the same limits, at which limiters fill up in
   time, the reaper adds nothing to the bound, and of the requests that came into the segment
   holding another limiter only those count that may still ask.
   */
  lemma {:induction false} RateBoundDespiteReaping(first: seq<Event>, segment: seq<Event>, session: string, limit: Limit, burst: int, delay: int)
    requires limit.PerSecond? && limit.rps > 0.0 && burst >= 0
    requires 0 <= delay <= REAP_AFTER && FillsInTime(limit, burst, delay)
    requires Timed(first, 0) && SaneBursts(first) && Prompt(START, first, delay)
    requires Timed(segment, LastTime(first, 0)) && Configured(segment, limit, burst) && Prompt(Run(START, first), segment, delay)
    ensures var now, from := Run(START, first), LastTime(first, 0);
            Bounded(AdmittedFor(Given(now, segment), session), |Others(Living(now, from, delay), session, limit, burst)|, limit, burst,
                    LastTime(segment, from) - from)
  {
    ReachableIsTimely(first, delay);
    BoundFrom(Run(START, first), LastTime(first, 0), segment, session, limit, burst, delay);
  }

  lemma BoundFrom(now: Sys, from: int, segment: seq<Event>, session: string, limit: Limit, burst: int, delay: int)
    requires limit.PerSecond? && limit.rps > 0.0 && burst >= 0 && 0 <= delay <= REAP_AFTER && FillsInTime(limit, burst, delay)
    requires WellFormed(now, from) && Timely(now, delay)
    requires Timed(segment, from) && Configured(segment, limit, burst) && Prompt(now, segment, delay)
    ensures Bounded(AdmittedFor(Given(now, segment), session), |Others(Living(now, from, delay), session, limit, burst)|, limit, burst,
                    LastTime(segment, from) - from)
  {
    LivingIsTimely(now, from, delay);
    LivingBound(now, Living(now, from, delay), segment, Given(now, segment), session, limit, burst, from, LastTime(segment, from), delay);
  }

  lemma LivingBound(sys: Sys, less: Sys, segment: seq<Event>, given: seq<Answer>, session: string, limit: Limit, burst: int,
                    from: int, until: int, delay: int)
    requires limit.PerSecond? && limit.rps > 0.0 && burst >= 0 && 0 <= delay <= REAP_AFTER && FillsInTime(limit, burst, delay)
    requires WellFormed(less, from) && Timely(less, delay) && Forgets(sys, less, from, delay)
    requires Timed(segment, from) && Configured(segment, limit, burst) && Prompt(sys, segment, delay)
    requires given == Given(sys, segment) && until == LastTime(segment, from)
    ensures Bounded(AdmittedFor(given, session), |Others(less, session, limit, burst)|, limit, burst, until - from)
  {
    ForgottenMakeNoDifference(sys, less, segment, from, delay);
    UnobservableFrom(less, segment, from, delay);
    assert given == Given(less, segment);
    QuietBound(less, segment, NoReaps(segment), session, limit, burst, from, until);
  }

  /** Requests that may still ask hold their session's current limiter, if there is any at all. */
  ghost predicate AllCurrent(sys: Sys, now: int, delay: int, limit: Limit, burst: int) {
    || (sys.table.limiters == map[] && sys.pending == map[])
    || (AtLimits(sys, limit, burst) && forall q :: Alive(sys, q, now, delay) ==> Current(sys, q))
  }

  lemma StepKeepsAllCurrent(sys: Sys, e: Event, now: int, delay: int, limit: Limit, burst: int)
    requires Timely(sys, delay) && 0 <= delay <= REAP_AFTER && now <= e.now && AllCurrent(sys, now, delay, limit, burst)
    requires e.Enter? && RateLimited(e.limit, e.session) ==> e.limit == limit && e.burst == burst
    ensures AllCurrent(Step(sys, e), e.now, delay, limit, burst)
  {
    var next := Step(sys, e);
    forall q | Alive(next, q, e.now, delay) && q in sys.pending && next.pending[q] == sys.pending[q] ensures Alive(sys, q, now, delay) {
    }
  }

  lemma {:induction false} FixedLimitsAllCurrent(events: seq<Event>, limit: Limit, burst: int, delay: int)
    requires burst >= 0 && 0 <= delay <= REAP_AFTER
    requires Timed(events, 0) && Configured(events, limit, burst) && Prompt(START, events, delay)
    ensures AllCurrent(Run(START, events), LastTime(events, 0), delay, limit, burst)
  {
    if events != [] {
      var front, e := events[..|events| - 1], events[|events| - 1];
      assert events == front + [e];
      FixedLimitsAllCurrent(front, limit, burst, delay);
      ReachableIsTimely(front, delay);
      StepKeepsAllCurrent(Run(START, front), e, LastTime(front, 0), delay, limit, burst);
    }
  }

  /** With limits that never were others, no request counts on top of the burst. */
  lemma {:induction false} RateBoundAtFixedLimits(first: seq<Event>, segment: seq<Event>, session: string, limit: Limit, burst: int, delay: int)
    requires limit.PerSecond? && limit.rps > 0.0 && burst >= 0
    requires 0 <= delay <= REAP_AFTER && FillsInTime(limit, burst, delay)
    requires Timed(first, 0) && Timed(segment, LastTime(first, 0))
    requires Configured(first, limit, burst) && Configured(segment, limit, burst)
    requires Prompt(START, first, delay) && Prompt(Run(START, first), segment, delay)
    ensures Bounded(AdmittedFor(Given(Run(START, first), segment), session), 0, limit, burst,
                    LastTime(segment, LastTime(first, 0)) - LastTime(first, 0))
  {
    RateBoundDespiteReaping(first, segment, session, limit, burst, delay);
    FixedLimitsAllCurrent(first, limit, burst, delay);
    assert Others(Living(Run(START, first), LastTime(first, 0), delay), session, limit, burst) == {};
  }

  lemma QuietBound(sys: Sys, segment: seq<Event>, quiet: seq<Event>, session: string, limit: Limit, burst: int, from: int, until: int)
    requires limit.PerSecond? && limit.rps > 0.0 && burst >= 0 && Solid(sys)
    requires quiet == NoReaps(segment) && Run(sys, segment).answers == Run(sys, quiet).answers
    requires Timed(segment, from) && Configured(segment, limit, burst) && until == LastTime(segment, from)
    ensures Bounded(AdmittedFor(Given(sys, segment), session), |Others(sys, session, limit, burst)|, limit, burst, until - from)
  {
    NoReapsFit(segment, limit, burst, from, quiet);
    NobodyReaped(sys, quiet, session, limit, burst);
    SessionRateBoundInOrder(sys, quiet, session, limit, burst, from, until);
  }

  // ---------------------------------------------------------------- a change of limits with a request in flight

  const SLOW := PerSecond(1.0)

  /** A request looked its limiter up; the burst changes from 1 to 2, and two more requests look theirs up. */
  function InFlight(s: string, t: int): Sys {
    Sys(Table(map[s := Entry(0, t)], SLOW, 1, [NewBucket(SLOW, 1)], 1), map[0 := Pending(s, 0, t)], [])
  }

  function AfterChange(s: string, t: int): Sys {
    Sys(Table(map[s := Entry(1, t)], SLOW, 2, [NewBucket(SLOW, 1), NewBucket(SLOW, 2)], 2),
        map[0 := Pending(s, 0, t), 1 := Pending(s, 1, t), 2 := Pending(s, 1, t)], [])
  }

  lemma OneInFlight(s: string, t: int)
    requires s != ""
    ensures Run(START, [Enter(0, s, SLOW, 1, t)]) == InFlight(s, t)
  {
    RunNext(START, [], START, Enter(0, s, SLOW, 1, t));
    assert [] + [Enter(0, s, SLOW, 1, t)] == [Enter(0, s, SLOW, 1, t)];
    assert Step(START, Enter(0, s, SLOW, 1, t)).table.limiters == map[s := Entry(0, t)];
  }

  lemma TwoMoreEnter(s: string, t: int)
    requires s != ""
    ensures Run(InFlight(s, t), [Enter(1, s, SLOW, 2, t)] + [Enter(2, s, SLOW, 2, t)]) == AfterChange(s, t)
  {
    var start, x, y := InFlight(s, t), Enter(1, s, SLOW, 2, t), Enter(2, s, SLOW, 2, t);
    var first := AfterChange(s, t).(pending := map[0 := Pending(s, 0, t), 1 := Pending(s, 1, t)]);
    assert Step(start, x) == first by {
      assert Lookup(start.table, SLOW, 2, s, t).limiters == first.table.limiters;
    }
    RunNext(start, [], start, x);
    assert [] + [x] == [x];
    RunNext(start, [x], first, y);
    assert Step(first, y) == AfterChange(s, t) by {
      assert Lookup(first.table, SLOW, 2, s, t).limiters == first.table.limiters;
    }
  }

  lemma ThreeAnswers(s: string, t: int)
    requires s != "" && t >= 0
    ensures var end := Run(AfterChange(s, t), [Decide(0, t)] + [Decide(1, t)] + [Decide(2, t)]);
            end.answers == [Answer(0, s, t, true), Answer(1, s, t, true), Answer(2, s, t, true)]
  {
    var start := AfterChange(s, t);
    EarnedGrows(SLOW, t);
    EarnedGrows(SLOW, 0);
    var s1 := Step(start, Decide(0, t));
    RunNext(start, [], start, Decide(0, t));
    assert [] + [Decide(0, t)] == [Decide(0, t)];
    var s2 := Step(s1, Decide(1, t));
    RunNext(start, [Decide(0, t)], s1, Decide(1, t));
    RunNext(start, [Decide(0, t)] + [Decide(1, t)], s2, Decide(2, t));
    assert s2.table.buckets[1] == Bucket(SLOW, 2, 1.0, t);
  }

  /**
   Why requests in flight count: one that looked its limiter up before a change is still
   answered by the old one. Here three requests are admitted at one instant, on a burst of two.
   */
  lemma ChangeLetsOneMoreThrough(s: string, t: int)
    requires s != "" && t >= 0
    ensures var segment := [Enter(1, s, SLOW, 2, t)] + [Enter(2, s, SLOW, 2, t)] + ([Decide(0, t)] + [Decide(1, t)] + [Decide(2, t)]);
            var sys := Run(START, [Enter(0, s, SLOW, 1, t)]);
            && Configured(segment, SLOW, 2) && |Others(sys, s, SLOW, 2)| == 1
            && AdmittedFor(Given(sys, segment), s) == 3 && Elapsed(Readings(Given(sys, segment), s)) == 0
            && !Bounded(3, 0, SLOW, 2, 0)
  {
    OneInFlight(s, t);
    TwoMoreEnter(s, t);
    ThreeAnswers(s, t);
    var sys := InFlight(s, t);
    RunAppend(sys, [Enter(1, s, SLOW, 2, t)] + [Enter(2, s, SLOW, 2, t)], [Decide(0, t)] + [Decide(1, t)] + [Decide(2, t)]);
    assert Others(sys, s, SLOW, 2) == {0};
    ThreeAdmitted(s, t);
  }

  lemma ThreeAdmitted(s: string, t: int)
    ensures var answers := [Answer(0, s, t, true), Answer(1, s, t, true), Answer(2, s, t, true)];
            AdmittedFor(answers, s) == 3 && Elapsed(Readings(answers, s)) == 0
  {
    var a, b, c := Answer(0, s, t, true), Answer(1, s, t, true), Answer(2, s, t, true);
    OneMoreAnswer([], a, s);
    OneMoreAnswer([a], b, s);
    OneMoreAnswer([a, b], c, s);
    assert [] + [a] == [a] && [a] + [b] == [a, b] && [a, b] + [c] == [a, b, c];
    assert [] + [t] == [t] && [t] + [t] == [t, t] && [t, t] + [t] == [t, t, t];
    ElapsedWithin([t, t, t], t, t);
  }
}
