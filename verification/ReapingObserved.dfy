/**
 pkg/mcp/middleware.go: exactly when the reaper can be observed. For limiters that do not fill up
 in time there is a run in which it changes an answer.

 The run is made of visits of one session: some requests look the limiter up at one moment and ask
 it one after the other later.
 */
module ReapingObserved {
  import Integers
  import opened RateLimiter
  import opened SessionLimits
  import opened SessionRates
  import opened SessionReaping

  datatype Visit = Visit(entered: int, asked: seq<int>)

  function Enters(session: string, limit: Limit, burst: int, n: nat, t: int): seq<Event> {
    if n == 0 then [] else Enters(session, limit, burst, n - 1, t) + [Enter(n - 1, session, limit, burst, t)]
  }

  function Decides(times: seq<int>): seq<Event> {
    if times == [] then [] else Decides(times[..|times| - 1]) + [Decide(|times| - 1, times[|times| - 1])]
  }

  function Visited(session: string, limit: Limit, burst: int, v: Visit): seq<Event> {
    Enters(session, limit, burst, |v.asked|, v.entered) + Decides(v.asked)
  }

  function AllVisited(session: string, limit: Limit, burst: int, vs: seq<Visit>): seq<Event> {
    if vs == [] then [] else AllVisited(session, limit, burst, vs[..|vs| - 1]) + Visited(session, limit, burst, vs[|vs| - 1])
  }

  function AllAsked(vs: seq<Visit>): seq<int> {
    if vs == [] then [] else AllAsked(vs[..|vs| - 1]) + vs[|vs| - 1].asked
  }

  // ---------------------------------------------------------------- what a visit does

  /** The requests in flight are from..to, of one session, all holding this limiter since `entered`. */
  ghost predicate Holding(sys: Sys, session: string, bucket: nat, from: nat, to: nat, entered: int) {
    forall q: nat :: (q in sys.pending <==> from <= q < to) && (q in sys.pending ==> sys.pending[q] == Pending(session, bucket, entered))
  }

  lemma {:induction false} EntersRun(sys: Sys, session: string, limit: Limit, burst: int, n: nat, t: int)
    requires n >= 1 && RateLimited(limit, session) && sys.pending == map[]
    ensures var table, end := Lookup(sys.table, limit, burst, session, t), Run(sys, Enters(session, limit, burst, n, t));
            && end.table == table && end.answers == sys.answers
            && Holding(end, session, table.limiters[session].bucket, 0, n, t)
  {
    var table := Lookup(sys.table, limit, burst, session, t);
    var front, e := Enters(session, limit, burst, n - 1, t), Enter(n - 1, session, limit, burst, t);
    if n == 1 {
      RunNext(sys, front, sys, e);
    } else {
      EntersRun(sys, session, limit, burst, n - 1, t);
      RunNext(sys, front, Run(sys, front), e);
      LookupAgain(sys.table, limit, burst, session, t);
    }
  }

  /** Looking up twice at the same time is looking up once. */
  lemma LookupAgain(t: Table, limit: Limit, burst: int, session: string, now: int)
    ensures var u := Lookup(t, limit, burst, session, now); Lookup(u, limit, burst, session, now) == u
  {
    var u := Lookup(t, limit, burst, session, now);
    assert Lookup(u, limit, burst, session, now).limiters == u.limiters;
  }

  /** Requests 0..n have had their answers: `b` is what they left of the limiter, and k of them were admitted. */
  ghost predicate Decided(sys: Sys, end: Sys, session: string, bucket: nat, n: nat, all: nat, entered: int, b: Bucket, k: nat) {
    && bucket < |sys.table.buckets|
    && end.table == sys.table.(buckets := sys.table.buckets[bucket := b])
    && Holding(end, session, bucket, n, all, entered)
    && AdmittedFor(end.answers, session) == AdmittedFor(sys.answers, session) + k
  }

  /** What requests holding one limiter get when they ask it at these times. */
  lemma {:induction false} DecidesRun(sys: Sys, session: string, bucket: nat, times: seq<int>, all: nat, entered: int)
    requires |times| <= all && bucket < |sys.table.buckets| && Holding(sys, session, bucket, 0, all, entered)
    ensures var b := sys.table.buckets[bucket];
            Decided(sys, Run(sys, Decides(times)), session, bucket, |times|, all, entered, After(b, times), Admitted(Calls(b, times)))
  {
    if times != [] {
      var n, b := |times| - 1, sys.table.buckets[bucket];
      var front, t := times[..n], times[n];
      DecidesRun(sys, session, bucket, front, all, entered);
      var now, v := Run(sys, Decides(front)), Allow(After(b, front), t);
      RunNext(sys, Decides(front), now, Decide(n, t));
      assert times == front + [t];
      CallsAppend(b, front, t);
      OneDecide(now, session, bucket, n, all, entered, t, v);
      DecidedNext(sys, now, Step(now, Decide(n, t)), session, bucket, n, all, entered, t, After(b, front), Admitted(Calls(b, front)), v);
    }
  }

  lemma OneDecide(now: Sys, session: string, bucket: nat, q: nat, all: nat, entered: int, t: int, v: Verdict)
    requires q < all && bucket < |now.table.buckets| && Holding(now, session, bucket, q, all, entered)
    requires v == Allow(now.table.buckets[bucket], t)
    ensures Step(now, Decide(q, t)).table == now.table.(buckets := now.table.buckets[bucket := v.bucket])
    ensures Holding(Step(now, Decide(q, t)), session, bucket, q + 1, all, entered)
    ensures Step(now, Decide(q, t)).answers == now.answers + [Answer(q, session, t, v.ok)]
  {
    assert now.pending[q] == Pending(session, bucket, entered);
  }

  lemma DecidedNext(sys: Sys, now: Sys, end: Sys, session: string, bucket: nat, n: nat, all: nat, entered: int, t: int,
                    b: Bucket, k: nat, v: Verdict)
    requires Decided(sys, now, session, bucket, n, all, entered, b, k)
    requires end.table == now.table.(buckets := now.table.buckets[bucket := v.bucket])
    requires Holding(end, session, bucket, n + 1, all, entered) && end.answers == now.answers + [Answer(n, session, t, v.ok)]
    ensures Decided(sys, end, session, bucket, n + 1, all, entered, v.bucket, if v.ok then k + 1 else k)
  {
    OneMoreAnswer(now.answers, Answer(n, session, t, v.ok), session);
    assert sys.table.buckets[bucket := b][bucket := v.bucket] == sys.table.buckets[bucket := v.bucket];
  }

  /** Nothing is in flight. */
  predicate AtRest(sys: Sys) {
    InRange(sys.table) && sys.pending == map[]
  }

  /** The limiter that the session's next request will find. */
  function Found(sys: Sys, session: string, limit: Limit, burst: int): Bucket
    requires InRange(sys.table)
  {
    if AtLimits(sys, limit, burst) && session in sys.table.limiters then BucketOf(sys.table, session) else NewBucket(limit, burst)
  }

  ghost predicate Leaves(sys: Sys, end: Sys, session: string, limit: Limit, burst: int, seen: int, asked: seq<int>)
    requires AtRest(sys)
  {
    && AtRest(end) && AtLimits(end, limit, burst) && session in end.table.limiters && end.table.limiters[session].lastSeen == seen
    && Found(end, session, limit, burst) == After(Found(sys, session, limit, burst), asked)
    && AdmittedFor(end.answers, session)
       == AdmittedFor(sys.answers, session) + Admitted(Calls(Found(sys, session, limit, burst), asked))
  }

  lemma VisitRun(sys: Sys, session: string, limit: Limit, burst: int, v: Visit)
    requires v.asked != [] && RateLimited(limit, session) && AtRest(sys)
    ensures Leaves(sys, Run(sys, Visited(session, limit, burst, v)), session, limit, burst, v.entered, v.asked)
  {
    var table, n := Lookup(sys.table, limit, burst, session, v.entered), |v.asked|;
    LookupHere(Refreshed(sys.table, limit, burst), session, v.entered);
    EntersRun(sys, session, limit, burst, n, v.entered);
    RunAppend(sys, Enters(session, limit, burst, n, v.entered), Decides(v.asked));
    var entered := Run(sys, Enters(session, limit, burst, n, v.entered));
    DecidesRun(entered, session, table.limiters[session].bucket, v.asked, n, v.entered);
    assert Run(sys, Visited(session, limit, burst, v)).pending.Keys == {};
  }

  predicate Proper(vs: seq<Visit>) {
    vs != [] && forall i :: 0 <= i < |vs| ==> vs[i].asked != []
  }

  lemma {:induction false} VisitsRun(sys: Sys, session: string, limit: Limit, burst: int, vs: seq<Visit>)
    requires Proper(vs) && RateLimited(limit, session) && AtRest(sys)
    ensures Leaves(sys, Run(sys, AllVisited(session, limit, burst, vs)), session, limit, burst, vs[|vs| - 1].entered, AllAsked(vs))
  {
    var front, v := vs[..|vs| - 1], vs[|vs| - 1];
    var before := AllVisited(session, limit, burst, front);
    RunAppend(sys, before, Visited(session, limit, burst, v));
    if front != [] {
      VisitsRun(sys, session, limit, burst, front);
    }
    VisitRun(Run(sys, before), session, limit, burst, v);
    CallsConcat(Found(sys, session, limit, burst), AllAsked(front), v.asked);
  }

  // ---------------------------------------------------------------- visits in order, and prompt

  lemma {:induction false} PromptAppend(sys: Sys, xs: seq<Event>, ys: seq<Event>, delay: int)
    requires Prompt(sys, xs, delay) && Prompt(Run(sys, xs), ys, delay)
    ensures Prompt(sys, xs + ys, delay)
    decreases |ys|
  {
    if ys == [] {
      assert xs + ys == xs;
    } else {
      PromptAppend(sys, xs, ys[..|ys| - 1], delay);
      RunAppend(sys, xs, ys[..|ys| - 1]);
      assert (xs + ys)[..|xs + ys| - 1] == xs + ys[..|ys| - 1];
    }
  }

  lemma {:induction false} TimedAppend(xs: seq<Event>, ys: seq<Event>, start: int)
    requires Timed(xs, start) && Timed(ys, LastTime(xs, start))
    ensures Timed(xs + ys, start) && LastTime(xs + ys, start) == LastTime(ys, LastTime(xs, start))
    decreases |ys|
  {
    if ys == [] {
      assert xs + ys == xs;
    } else {
      TimedAppend(xs, ys[..|ys| - 1], start);
      assert (xs + ys)[..|xs + ys| - 1] == xs + ys[..|ys| - 1];
    }
  }

  lemma {:induction false} NoReapsAppend(xs: seq<Event>, ys: seq<Event>)
    ensures NoReaps(xs + ys) == NoReaps(xs) + NoReaps(ys)
    decreases |ys|
  {
    if ys == [] {
      assert xs + ys == xs;
    } else {
      NoReapsAppend(xs, ys[..|ys| - 1]);
      assert (xs + ys)[..|xs + ys| - 1] == xs + ys[..|ys| - 1];
    }
  }

  /** Events in order, from `start` to `end`, at these limits and without the reaper. */
  predicate Orderly(events: seq<Event>, start: int, end: int, limit: Limit, burst: int) {
    Timed(events, start) && LastTime(events, start) == end && Configured(events, limit, burst) && NoReaps(events) == events
  }

  lemma OrderlyNext(events: seq<Event>, e: Event, start: int, end: int, limit: Limit, burst: int)
    requires Orderly(events, start, end, limit, burst) && end <= e.now && !e.ReapTick?
    requires e.Enter? && RateLimited(e.limit, e.session) ==> e.limit == limit && e.burst == burst
    ensures Orderly(events + [e], start, e.now, limit, burst)
  {
    assert (events + [e])[..|events|] == events;
  }

  lemma OrderlyAppend(xs: seq<Event>, ys: seq<Event>, start: int, mid: int, end: int, limit: Limit, burst: int)
    requires Orderly(xs, start, mid, limit, burst) && Orderly(ys, mid, end, limit, burst)
    ensures Orderly(xs + ys, start, end, limit, burst)
  {
    TimedAppend(xs, ys, start);
    NoReapsAppend(xs, ys);
  }

  lemma {:induction false} EntersFit(sys: Sys, session: string, limit: Limit, burst: int, n: nat, t: int, start: int, delay: int)
    requires start <= t
    ensures var xs := Enters(session, limit, burst, n, t);
            Prompt(sys, xs, delay) && Orderly(xs, start, if n == 0 then start else t, limit, burst)
  {
    if n > 0 {
      EntersFit(sys, session, limit, burst, n - 1, t, start, delay);
      var front, e := Enters(session, limit, burst, n - 1, t), Enter(n - 1, session, limit, burst, t);
      OrderlyNext(front, e, start, if n == 1 then start else t, limit, burst);
      assert (front + [e])[..|front|] == front;
    }
  }

  lemma {:induction false} DecidesFit(sys: Sys, session: string, bucket: nat, times: seq<int>, all: nat, entered: int, delay: int)
    requires |times| <= all && bucket < |sys.table.buckets| && Holding(sys, session, bucket, 0, all, entered)
    requires forall i :: 0 <= i < |times| ==> times[i] - entered <= delay
    ensures Prompt(sys, Decides(times), delay)
  {
    if times != [] {
      var n := |times| - 1;
      DecidesFit(sys, session, bucket, times[..n], all, entered, delay);
      DecidesRun(sys, session, bucket, times[..n], all, entered);
      PromptNext(sys, Decides(times[..n]), Run(sys, Decides(times[..n])), n, times[n], delay);
    }
  }

  lemma PromptNext(sys: Sys, events: seq<Event>, now: Sys, q: nat, t: int, delay: int)
    requires Prompt(sys, events, delay) && now == Run(sys, events) && (q in now.pending ==> t - now.pending[q].entered <= delay)
    ensures Prompt(sys, events + [Decide(q, t)], delay)
  {
    assert (events + [Decide(q, t)])[..|events|] == events;
  }

  lemma {:induction false} DecidesOrdered(times: seq<int>, start: int, limit: Limit, burst: int)
    requires NonDecreasing(times) && (times != [] ==> start <= times[0])
    ensures Orderly(Decides(times), start, if times == [] then start else times[|times| - 1], limit, burst)
  {
    if times != [] {
      var n := |times| - 1;
      DecidesOrdered(times[..n], start, limit, burst);
      OrderlyNext(Decides(times[..n]), Decide(n, times[n]), start, if n == 0 then start else times[n - 1], limit, burst);
    }
  }

  /** All requests of a visit ask in order, between their lookup and `delay` later. */
  predicate InTime(v: Visit, delay: int) {
    v.asked != [] && NonDecreasing(v.asked) && v.entered <= v.asked[0] && v.asked[|v.asked| - 1] - v.entered <= delay
  }

  lemma VisitFits(sys: Sys, session: string, limit: Limit, burst: int, v: Visit, start: int, delay: int)
    requires RateLimited(limit, session) && AtRest(sys) && InTime(v, delay) && start <= v.entered
    ensures var xs := Visited(session, limit, burst, v);
            Prompt(sys, xs, delay) && Orderly(xs, start, v.asked[|v.asked| - 1], limit, burst)
  {
    var n := |v.asked|;
    var enters, decides := Enters(session, limit, burst, n, v.entered), Decides(v.asked);
    EntersFit(sys, session, limit, burst, n, v.entered, start, delay);
    DecidesOrdered(v.asked, v.entered, limit, burst);
    OrderlyAppend(enters, decides, start, v.entered, v.asked[n - 1], limit, burst);
    VisitPrompt(sys, session, limit, burst, v, delay, enters, decides);
  }

  lemma VisitPrompt(sys: Sys, session: string, limit: Limit, burst: int, v: Visit, delay: int, enters: seq<Event>, decides: seq<Event>)
    requires RateLimited(limit, session) && AtRest(sys) && InTime(v, delay) && Prompt(sys, enters, delay)
    requires enters == Enters(session, limit, burst, |v.asked|, v.entered) && decides == Decides(v.asked)
    ensures Prompt(sys, enters + decides, delay)
  {
    var table := Lookup(sys.table, limit, burst, session, v.entered);
    LookupHere(Refreshed(sys.table, limit, burst), session, v.entered);
    EntersRun(sys, session, limit, burst, |v.asked|, v.entered);
    DecidesFit(Run(sys, enters), session, table.limiters[session].bucket, v.asked, |v.asked|, v.entered, delay);
    PromptAppend(sys, enters, decides, delay);
  }

  /** Each visit begins when the one before is over. */
  predicate InTurn(vs: seq<Visit>, start: int, delay: int) {
    vs == [] ||
    (var front, v := vs[..|vs| - 1], vs[|vs| - 1];
     InTurn(front, start, delay) && InTime(v, delay) && EndOf(front, start) <= v.entered)
  }

  function EndOf(vs: seq<Visit>, start: int): int {
    if vs == [] || vs[|vs| - 1].asked == [] then start else vs[|vs| - 1].asked[|vs[|vs| - 1].asked| - 1]
  }

  lemma {:induction false} InTurnIsProper(vs: seq<Visit>, start: int, delay: int)
    requires InTurn(vs, start, delay) && vs != []
    ensures Proper(vs)
  {
    if |vs| > 1 {
      InTurnIsProper(vs[..|vs| - 1], start, delay);
    }
  }

  lemma {:induction false} VisitsFit(sys: Sys, session: string, limit: Limit, burst: int, vs: seq<Visit>, start: int, delay: int)
    requires RateLimited(limit, session) && AtRest(sys) && InTurn(vs, start, delay)
    ensures var xs := AllVisited(session, limit, burst, vs);
            Prompt(sys, xs, delay) && Orderly(xs, start, EndOf(vs, start), limit, burst)
  {
    if vs != [] {
      var front, v := vs[..|vs| - 1], vs[|vs| - 1];
      var before := AllVisited(session, limit, burst, front);
      VisitsFit(sys, session, limit, burst, front, start, delay);
      if front != [] {
        InTurnIsProper(front, start, delay);
        VisitsRun(sys, session, limit, burst, front);
      }
      VisitFits(Run(sys, before), session, limit, burst, v, EndOf(front, start), delay);
      PromptAppend(sys, before, Visited(session, limit, burst, v), delay);
      OrderlyAppend(before, Visited(session, limit, burst, v), start, EndOf(front, start), EndOf(vs, start), limit, burst);
    }
  }

  // ---------------------------------------------------------------- the schedule

  lemma FrontInOrder(times: seq<int>)
    requires times != [] && NonDecreasing(times)
    ensures NonDecreasing(times[..|times| - 1])
  {
  }

  /** Readings in order, the first no earlier than `from` and the last at `end`. */
  predicate Ordered(times: seq<int>, from: int, end: int) {
    times != [] && NonDecreasing(times) && from <= times[0] && times[|times| - 1] == end
  }

  lemma OrderedNext(times: seq<int>, from: int, end: int, t: int)
    requires Ordered(times, from, end) && end <= t
    ensures Ordered(times + [t], from, t)
  {
  }

  lemma InTurnNext(vs: seq<Visit>, v: Visit, start: int, delay: int)
    requires InTurn(vs, start, delay) && InTime(v, delay) && EndOf(vs, start) <= v.entered
    ensures InTurn(vs + [v], start, delay) && AllAsked(vs + [v]) == AllAsked(vs) + v.asked
    ensures EndOf(vs + [v], start) == v.asked[|v.asked| - 1]
  {
    assert (vs + [v])[..|vs|] == vs;
  }

  /** Each request alone, asking at once. */
  function Singles(times: seq<int>): seq<Visit> {
    if times == [] then [] else Singles(times[..|times| - 1]) + [Visit(times[|times| - 1], [times[|times| - 1]])]
  }

  lemma {:induction false} SinglesInTurn(times: seq<int>, start: int, delay: int)
    requires NonDecreasing(times) && (times != [] ==> start <= times[0]) && delay >= 0
    ensures InTurn(Singles(times), start, delay) && AllAsked(Singles(times)) == times && |Singles(times)| == |times|
    ensures EndOf(Singles(times), start) == if times == [] then start else times[|times| - 1]
  {
    if times != [] {
      var front, t := times[..|times| - 1], times[|times| - 1];
      FrontInOrder(times);
      SinglesInTurn(front, start, delay);
      OneInTime(t, delay);
      InTurnNext(Singles(front), Visit(t, [t]), start, delay);
      assert times == front + [t];
    }
  }

  lemma OneInTime(t: int, delay: int)
    requires delay >= 0
    ensures InTime(Visit(t, [t]), delay)
  {
  }

  /** The readings before `e`, one at a time, and those that are left. */
  lemma {:induction false} SplitAt(times: seq<int>, start: int, end: int, delay: int, e: int) returns (vs: seq<Visit>, rest: seq<int>)
    requires Ordered(times, start, end) && 0 <= delay && start <= e <= end
    ensures InTurn(vs, start, delay) && EndOf(vs, start) <= e
    ensures Ordered(rest, e, end) && times == AllAsked(vs) + rest
    decreases |times|
  {
    var front, t := times[..|times| - 1], times[|times| - 1];
    FrontInOrder(times);
    assert times == front + [t];
    if front != [] && front[|front| - 1] >= e {
      var was := front[|front| - 1];
      vs, rest := SplitAt(front, start, was, delay, e);
      OrderedNext(rest, e, was, t);
      assert AllAsked(vs) + rest + [t] == AllAsked(vs) + (rest + [t]);
      rest := rest + [t];
    } else {
      SinglesInTurn(front, start, delay);
      vs, rest := Singles(front), [t];
    }
  }

  /** Those who ask in the last `delay` nanoseconds have all looked the limiter up at their beginning. */
  lemma LastTogether(times: seq<int>, start: int, delay: int) returns (vs: seq<Visit>)
    requires NonDecreasing(times) && times != [] && start <= times[0] && 0 <= delay && start <= times[|times| - 1] - delay
    ensures vs != [] && InTurn(vs, start, delay) && AllAsked(vs) == times
    ensures EndOf(vs, start) == times[|times| - 1] && vs[|vs| - 1].entered == times[|times| - 1] - delay
  {
    var e := times[|times| - 1] - delay;
    var front, rest := SplitAt(times, start, times[|times| - 1], delay, e);
    InTurnNext(front, Visit(e, rest), start, delay);
    vs := front + [Visit(e, rest)];
  }

  /** The first visits of the run: they drain a new limiter, and are over `delay` after the last lookup, at `seen`. */
  lemma DrainVisits(limit: Limit, burst: int, delay: int, p: int, q: int, j: nat) returns (vs: seq<Visit>, seen: int)
    requires p > 0 && q > 0 && burst >= 1 && delay >= 0
    ensures vs != [] && InTurn(vs, 0, delay) && AllAsked(vs) == Drain(delay, burst, p, q, j)
    ensures EndOf(vs, 0) == seen + delay && vs[|vs| - 1].entered == seen == j * p / q >= 0
  {
    var times := Drain(delay, burst, p, q, j);
    DrainForward(delay, burst, p, q, j);
    DrainInOrder(delay, burst, p, q, j);
    seen := j * p / q;
    vs := LastTogether(times, 0, delay);
  }

  /** The second visits, one at a time. */
  lemma DrainSingles(burst: int, tick: int, delay: int, p: int, q: int, j: nat) returns (ws: seq<Visit>)
    requires p > 0 && q > 0 && burst >= 1 && delay >= 0
    ensures ws != [] && InTurn(ws, tick, delay) && AllAsked(ws) == Drain(tick, burst, p, q, j)
  {
    DrainForward(tick, burst, p, q, j);
    DrainInOrder(tick, burst, p, q, j);
    SinglesInTurn(Drain(tick, burst, p, q, j), tick, delay);
    ws := Singles(Drain(tick, burst, p, q, j));
  }

  /** What they leave is in debt by one unit less than a nanosecond's worth. */
  lemma DrainedDebt(limit: Limit, burst: int, delay: int, p: int, q: int, j: nat, b: Bucket)
    requires TokenTakes(limit, p, q) && burst >= 1 && (j * p) % q == q - 1 && 0 <= delay
    requires b == After(NewBucket(limit, burst), Drain(delay, burst, p, q, j))
    ensures SmallDebt(b) && b.limit == limit && b.burst == burst && b.last == delay + j * p / q && Units(b.tokens, p, 1 - q)
  {
    EarnedGrows(limit, delay);
    DrainsFull(NewBucket(limit, burst), delay, p, q, j);
    AfterKeepsDebtSmall(NewBucket(limit, burst), Drain(delay, burst, p, q, j));
  }

  /** So it is still short of full when the reaper comes, if the limiter does not fill up in time. */
  lemma StillShort(b: Bucket, idle: int, tick: int, p: int, q: int, j: nat)
    requires TokenTakes(b.limit, p, q) && b.burst >= 1 && SmallDebt(b) && (j * p) % q == q - 1
    requires Units(b.tokens, p, 1 - q) && tick - b.last == idle + 1 >= 0 && b.burst * p > idle * q + 1
    ensures Admitted(Calls(b, Drain(tick, b.burst, p, q, j))) < b.burst + j
  {
    var earned := TokensFromDuration(b.limit, idle + 1);
    EarnedInUnits(b.limit, p, q, idle + 1);
    UnitsAdd(b.tokens, earned, p, 1 - q, (idle + 1) * q);
    assert (1 - q) + (idle + 1) * q == idle * q + 1;
    UnitsOfWhole(b.burst, p);
    UnitsInOrder(b.tokens + earned, b.burst as real, p, idle * q + 1, b.burst * p);
    ShortIsNotDrained(b, tick, p, q, j, idle * q + 1);
  }

  /** A drained limiter admits fewer of the same requests than a new one when the reaper comes. */
  lemma DrainedAdmitsFewer(limit: Limit, burst: int, delay: int, p: int, q: int, j: nat, tick: int)
    requires TokenTakes(limit, p, q) && burst >= 1 && (j * p) % q == q - 1 && 0 <= delay <= REAP_AFTER
    requires burst * p > (REAP_AFTER - delay) * q + 1 && tick == j * p / q + REAP_AFTER + 1 && tick >= 0
    ensures var times := Drain(tick, burst, p, q, j);
            Admitted(Calls(After(NewBucket(limit, burst), Drain(delay, burst, p, q, j)), times)) < Admitted(Calls(NewBucket(limit, burst), times))
  {
    var b := After(NewBucket(limit, burst), Drain(delay, burst, p, q, j));
    DrainedDebt(limit, burst, delay, p, q, j, b);
    StillShort(b, REAP_AFTER - delay, tick, p, q, j);
    EarnedGrows(limit, tick);
    DrainsFull(NewBucket(limit, burst), tick, p, q, j);
  }

  lemma BurstIsPositive(burst: int, p: int, q: int, idle: int)
    requires burst >= 0 && p > 0 && q > 0 && idle >= 0 && burst * p > idle * q + 1
    ensures burst >= 1
  {
    assert idle * q >= 0;
  }

  // ---------------------------------------------------------------- the two runs

  /** The visits again after the tick: with the tick in between, more of them are admitted. */
  lemma AnswersDiffer(session: string, limit: Limit, burst: int, first: seq<Event>, second: seq<Event>, seen: int, tick: int,
                      xs: seq<int>, ys: seq<int>, vs: seq<Visit>)
    requires RateLimited(limit, session) && tick - seen > REAP_AFTER && Proper(vs)
    requires Leaves(START, Run(START, first), session, limit, burst, seen, xs)
    requires second == AllVisited(session, limit, burst, vs) && AllAsked(vs) == ys
    requires Admitted(Calls(After(NewBucket(limit, burst), xs), ys)) < Admitted(Calls(NewBucket(limit, burst), ys))
    ensures Run(START, first + [ReapTick(tick)] + second).answers != Run(START, first + second).answers
  {
    var after := Run(START, first);
    RunAppend(START, first, second);
    VisitsRun(after, session, limit, burst, vs);
    RunNext(START, first, after, ReapTick(tick));
    var reaped := Step(after, ReapTick(tick));
    RunAppend(START, first + [ReapTick(tick)], second);
    VisitsRun(reaped, session, limit, burst, vs);
  }

  /** A tick between two orderly segments. */
  lemma TickFits(first: seq<Event>, second: seq<Event>, mid: int, tick: int, end: int, limit: Limit, burst: int, delay: int)
    requires Orderly(first, 0, mid, limit, burst) && mid <= tick && Orderly(second, tick, end, limit, burst)
    requires Prompt(START, first, delay) && Prompt(Run(START, first + [ReapTick(tick)]), second, delay)
    ensures var events := first + [ReapTick(tick)] + second;
            && Timed(events, 0) && Configured(events, limit, burst) && Prompt(START, events, delay)
            && NoReaps(events) == first + second
  {
    var reap := [ReapTick(tick)];
    assert reap[..0] == [] && LastTime(reap[..0], mid) == mid && Timed(reap[..0], mid);
    assert NoReaps(reap) == [] && Timed(reap, mid) && Prompt(Run(START, first), reap, delay);
    PromptAppend(START, first, reap, delay);
    TimedAppend(first, reap, 0);
    NoReapsAppend(first, reap);
    PromptAppend(START, first + reap, second, delay);
    TimedAppend(first + reap, second, 0);
    NoReapsAppend(first + reap, second);
  }

  /**
   In lowest terms, when the burst takes more units than ten minutes less the delay earn and one, there
   is a timed and prompt run in which the reaper changes an answer.
   */
  lemma {:induction false} ReapingIsObservable(session: string, limit: Limit, burst: int, delay: int, p: int, q: int, u: int, v: int)
    returns (events: seq<Event>)
    requires TokenTakes(limit, p, q) && u * p + v * q == 1 && session != "" && burst >= 0 && 0 <= delay <= REAP_AFTER
    requires burst * p > (REAP_AFTER - delay) * q + 1
    ensures Timed(events, 0) && Configured(events, limit, burst) && Prompt(START, events, delay)
    ensures Run(START, events).answers != Run(START, NoReaps(events)).answers
  {
    BurstIsPositive(burst, p, q, REAP_AFTER - delay);
    var j := Integers.OneShort(p, q, u, v);
    var vs, seen := DrainVisits(limit, burst, delay, p, q, j);
    var tick := seen + REAP_AFTER + 1;
    var ws := DrainSingles(burst, tick, delay, p, q, j);
    events := TwoRounds(session, limit, burst, delay, seen, tick, vs, ws);
    DrainedAdmitsFewer(limit, burst, delay, p, q, j, tick);
  }

  lemma TwoRounds(session: string, limit: Limit, burst: int, delay: int, seen: int, tick: int, vs: seq<Visit>, ws: seq<Visit>)
    returns (events: seq<Event>)
    requires RateLimited(limit, session) && tick - seen > REAP_AFTER >= delay && vs != [] && ws != []
    requires InTurn(vs, 0, delay) && EndOf(vs, 0) == seen + delay && vs[|vs| - 1].entered == seen
    requires InTurn(ws, tick, delay)
    ensures Timed(events, 0) && Configured(events, limit, burst) && Prompt(START, events, delay)
    ensures Admitted(Calls(After(NewBucket(limit, burst), AllAsked(vs)), AllAsked(ws))) < Admitted(Calls(NewBucket(limit, burst), AllAsked(ws)))
            ==> Run(START, events).answers != Run(START, NoReaps(events)).answers
  {
    var first, second := AllVisited(session, limit, burst, vs), AllVisited(session, limit, burst, ws);
    InTurnIsProper(vs, 0, delay);
    InTurnIsProper(ws, tick, delay);
    VisitsRun(START, session, limit, burst, vs);
    VisitsFit(START, session, limit, burst, vs, 0, delay);
    RunNext(START, first, Run(START, first), ReapTick(tick));
    VisitsFit(Run(START, first + [ReapTick(tick)]), session, limit, burst, ws, tick, delay);
    TickFits(first, second, seen + delay, tick, EndOf(ws, tick), limit, burst, delay);
    events := first + [ReapTick(tick)] + second;
    if Admitted(Calls(After(NewBucket(limit, burst), AllAsked(vs)), AllAsked(ws))) < Admitted(Calls(NewBucket(limit, burst), AllAsked(ws))) {
      AnswersDiffer(session, limit, burst, first, second, seen, tick, AllAsked(vs), AllAsked(ws), ws);
    }
  }

  /** In no timed and prompt run at these limits does the reaper change an answer. */
  ghost predicate NeverObserved(limit: Limit, burst: int, delay: int) {
    forall events :: Timed(events, 0) && Configured(events, limit, burst) && Prompt(START, events, delay) ==>
      Run(START, events).answers == Run(START, NoReaps(events)).answers
  }

  lemma UnobservedAtFixedLimits(events: seq<Event>, limit: Limit, burst: int, delay: int)
    requires burst >= 0 && 0 <= delay <= REAP_AFTER && FillsInTime(limit, burst, delay)
    requires Timed(events, 0) && Configured(events, limit, burst) && Prompt(START, events, delay)
    ensures Run(START, events).answers == Run(START, NoReaps(events)).answers
  {
    assert Run(START, []) == START;
    ReapingIsUnobservable([], events, delay);
  }

  /**
   The reaper is never observed exactly when the limiter fills up in time, for every limit at which a
   token takes a fraction of whole nanoseconds; no float has another.
   */
  lemma {:induction false} NeverObservedExactlyWhen(limit: Limit, burst: int, delay: int, p: int, q: int)
    requires TokenTakes(limit, p, q) && burst >= 0 && 0 <= delay <= REAP_AFTER
    ensures NeverObserved(limit, burst, delay) <==> FillsInTime(limit, burst, delay)
  {
    if FillsInTime(limit, burst, delay) {
      forall events | Timed(events, 0) && Configured(events, limit, burst) && Prompt(START, events, delay)
        ensures Run(START, events).answers == Run(START, NoReaps(events)).answers
      {
        UnobservedAtFixedLimits(events, limit, burst, delay);
      }
    } else {
      var a, b, u, v := LowestTerms(limit, p, q);
      assert burst * a > (REAP_AFTER - delay) * b + 1;
      var events := ReapingIsObservable("s", limit, burst, delay, a, b, u, v);
    }
  }
}
