/**
 pkg/mcp/middleware.go: one rate limiter per session, discarded when the configured limits
 change and reaped when a session has been idle for ten minutes.

 A request takes two steps: it looks its session's limiter up under the mutex, and asks that
 limiter later, without the mutex. Between the two, anything can happen to the table.
 */
module SessionLimits {
  import opened Common
  import opened RateLimiter

  const REAP_AFTER := 600_000_000_000

  // ---------------------------------------------------------------- the middleware's state

  class RateLimiterEntry {
    const limiter: Limiter
    var lastSeen: int

    constructor (limiter: Limiter, lastSeen: int)
      ensures this.limiter == limiter && this.lastSeen == lastSeen
    {
      this.limiter, this.lastSeen := limiter, lastSeen;
    }
  }

  datatype SessionView = SessionView(bucket: Bucket, lastSeen: int)

  /** The table as values: what each session's limiter holds, and when it was last looked up. */
  datatype View = View(sessions: map<string, SessionView>, limit: Limit, burst: int)

  function LookupView(v: View, limit: Limit, burst: int, session: string, now: int): View {
    var sessions := if limit != v.limit || burst != v.burst then map[] else v.sessions;
    var bucket := if session in sessions then sessions[session].bucket else NewBucket(limit, burst);
    View(sessions[session := SessionView(bucket, now)], limit, burst)
  }

  function ReapView(v: View, now: int): View {
    v.(sessions := map s | s in v.sessions && !(now - v.sessions[s].lastSeen > REAP_AFTER) :: v.sessions[s])
  }

  /** A tick of the reaper takes the sessions that were last looked up more than ten minutes before, and those only. */
  lemma ReapMeaning(v: View, now: int, s: string)
    ensures var u := ReapView(v, now);
            && (s in u.sessions <==> s in v.sessions && now - v.sessions[s].lastSeen <= 10 * 60 * 1_000_000_000)
            && (s in u.sessions ==> u.sessions[s] == v.sessions[s]) && u.limit == v.limit && u.burst == v.burst
  {
  }

  /** A lookup resets the table on changed limits, gives a new session a full limiter, and leaves the others alone. */
  lemma LookupMeaning(v: View, limit: Limit, burst: int, session: string, now: int, s: string)
    ensures var u := LookupView(v, limit, burst, session, now);
            && u.limit == limit && u.burst == burst
            && session in u.sessions && u.sessions[session].lastSeen == now
            && (s != session && (limit, burst) == (v.limit, v.burst) ==>
                  (s in u.sessions <==> s in v.sessions) && (s in u.sessions ==> u.sessions[s] == v.sessions[s]))
            && (s != session && (limit, burst) != (v.limit, v.burst) ==> s !in u.sessions)
            && u.sessions[session].bucket == (if session in v.sessions && (limit, burst) == (v.limit, v.burst) then v.sessions[session].bucket
                                              else Bucket(limit, burst, burst as real, 0))
  {
  }

  predicate RateLimited(limit: Limit, session: string) {
    Positive(limit) && session != ""
  }

  class SessionLimiters {
    var limiters: map<string, RateLimiterEntry>
    var currentLimit: Limit
    var currentBurst: int

    ghost predicate Valid()
      reads this
    {
      forall s, t :: s in limiters && t in limiters && s != t ==>
        limiters[s] != limiters[t] && limiters[s].limiter != limiters[t].limiter
    }

    ghost function Entries(): set<object>
      reads this
    {
      set s | s in limiters :: limiters[s]
    }

    ghost function Limiters(): set<object>
      reads this
    {
      set s | s in limiters :: limiters[s].limiter
    }

    ghost function Abs(): View
      reads this, Entries(), Limiters()
    {
      View(map s | s in limiters :: SessionView(limiters[s].limiter.Abs(), limiters[s].lastSeen), currentLimit, currentBurst)
    }

    constructor ()
      ensures Valid() && Abs() == View(map[], PerSecond(0.0), 0)
    {
      limiters, currentLimit, currentBurst := map[], PerSecond(0.0), 0;
    }

    /** If the limits changed, every limiter goes. */
    method Refresh(limit: Limit, burst: int)
      requires Valid()
      modifies this
      ensures Valid() && currentLimit == limit && currentBurst == burst
      ensures limiters == if limit != old(currentLimit) || burst != old(currentBurst) then map[] else old(limiters)
      ensures Abs() == View(if limit != old(currentLimit) || burst != old(currentBurst) then map[] else old(Abs()).sessions, limit, burst)
    {
      if limit != currentLimit || burst != currentBurst {
        limiters := map[];
        currentLimit := limit;
        currentBurst := burst;
      }
    }

    method Create(session: string, now: int) returns (entry: RateLimiterEntry)
      requires Valid() && session !in limiters
      modifies this`limiters
      ensures Valid() && fresh(entry) && fresh(entry.limiter)
      ensures limiters == old(limiters)[session := entry]
      ensures entry.lastSeen == now && entry.limiter.Abs() == NewBucket(currentLimit, currentBurst)
    {
      var limiter := new Limiter(currentLimit, currentBurst);
      entry := new RateLimiterEntry(limiter, now);
      limiters := limiters[session := entry];
    }

    /** The session's entry, created or touched. */
    method Touch(session: string, now: int) returns (entry: RateLimiterEntry)
      requires Valid()
      modifies this`limiters, Entries()
      ensures Valid() && session in limiters && limiters[session] == entry
      ensures Abs() == LookupView(old(Abs()), currentLimit, currentBurst, session, now)
    {
      ghost var expected := LookupView(Abs(), currentLimit, currentBurst, session, now);
      if session !in limiters {
        entry := Create(session, now);
      } else {
        entry := limiters[session];
        entry.lastSeen := now;
      }
      forall s | s in limiters ensures s in expected.sessions && Abs().sessions[s] == expected.sessions[s] {
        if s != session {
          assert old(limiters)[s] == limiters[s] != entry;
        }
      }
      assert Abs().sessions == expected.sessions;
    }

    /** The part under the mutex. A request that is not rate limited gets no entry and changes nothing. */
    method Lookup(limit: Limit, burst: int, session: string, now: int) returns (entry: RateLimiterEntry?)
      requires Valid()
      modifies this, Entries()
      ensures Valid()
      ensures entry == null <==> !RateLimited(limit, session)
      ensures entry == null ==> Abs() == old(Abs())
      ensures entry != null ==> session in limiters && limiters[session] == entry
                                && Abs() == LookupView(old(Abs()), limit, burst, session, now)
    {
      if !Positive(limit) || session == "" { return null; }
      Refresh(limit, burst);
      entry := Touch(session, now);
    }

    predicate Idle(entry: RateLimiterEntry, now: int)
      reads entry
    {
      now - entry.lastSeen > REAP_AFTER
    }

    /** The reaper's loop over the table. */
    method DeleteIdle(now: int)
      modifies this`limiters
      ensures forall s :: s in limiters <==> s in old(limiters) && !Idle(old(limiters)[s], now)
      ensures forall s :: s in limiters ==> limiters[s] == old(limiters)[s]
    {
      var rest := limiters.Keys;
      while rest != {}
        invariant rest <= old(limiters).Keys
        invariant forall s :: s in limiters <==> s in old(limiters) && (s in rest || !Idle(old(limiters)[s], now))
        invariant forall s :: s in limiters ==> limiters[s] == old(limiters)[s]
        decreases rest
      {
        var id :| id in rest;
        rest := rest - {id};
        if Idle(limiters[id], now) {
          limiters := limiters - {id};
        }
      }
    }

    /** One tick of the reaper. */
    method Reap(now: int)
      requires Valid()
      modifies this`limiters
      ensures Valid()
      ensures Abs() == ReapView(old(Abs()), now)
    {
      DeleteIdle(now);
      assert Abs().sessions == ReapView(old(Abs()), now).sessions;
    }
  }

  // ---------------------------------------------------------------- interleaved requests

  /** `bucket` names a limiter object: its place among all that were ever created. */
  datatype Entry = Entry(bucket: nat, lastSeen: int)

  datatype Table = Table(limiters: map<string, Entry>, limit: Limit, burst: int, buckets: seq<Bucket>, resets: nat)

  datatype Pending = Pending(session: string, bucket: nat, entered: int)

  datatype Answer = Answer(request: nat, session: string, time: int, ok: bool)

  datatype Sys = Sys(table: Table, pending: map<nat, Pending>, answers: seq<Answer>)

  datatype Event =
    | Enter(request: nat, session: string, limit: Limit, burst: int, now: int)
    | Decide(request: nat, now: int)
    | ReapTick(now: int)

  function Refreshed(t: Table, limit: Limit, burst: int): Table {
    if limit != t.limit || burst != t.burst then
      t.(limiters := map[], limit := limit, burst := burst, resets := t.resets + 1)
    else t
  }

  function Lookup(t: Table, limit: Limit, burst: int, session: string, now: int): (r: Table)
    ensures session in r.limiters
  {
    var u := Refreshed(t, limit, burst);
    if session in u.limiters then
      u.(limiters := u.limiters[session := u.limiters[session].(lastSeen := now)])
    else
      u.(limiters := u.limiters[session := Entry(|u.buckets|, now)], buckets := u.buckets + [NewBucket(limit, burst)])
  }

  predicate Stale(e: Entry, now: int) {
    now - e.lastSeen > REAP_AFTER
  }

  function Reap(t: Table, now: int): Table {
    t.(limiters := map s | s in t.limiters && !Stale(t.limiters[s], now) :: t.limiters[s])
  }

  function Step(sys: Sys, e: Event): Sys {
    match e
    case Enter(request, session, limit, burst, now) =>
      if !RateLimited(limit, session) then sys
      else
        var table := Lookup(sys.table, limit, burst, session, now);
        sys.(table := table, pending := sys.pending[request := Pending(session, table.limiters[session].bucket, now)])
    case Decide(request, now) =>
      if request !in sys.pending || sys.pending[request].bucket >= |sys.table.buckets| then sys
      else
        var p := sys.pending[request];
        var v := Allow(sys.table.buckets[p.bucket], now);
        Sys(sys.table.(buckets := sys.table.buckets[p.bucket := v.bucket]),
            sys.pending - {request},
            sys.answers + [Answer(request, p.session, now, v.ok)])
    case ReapTick(now) => sys.(table := Reap(sys.table, now))
  }

  function Run(sys: Sys, events: seq<Event>): Sys {
    if events == [] then sys else Step(Run(sys, events[..|events| - 1]), events[|events| - 1])
  }

  const START := Sys(Table(map[], PerSecond(0.0), 0, [], 0), map[], [])

  predicate InRange(t: Table) {
    forall s :: s in t.limiters ==> t.limiters[s].bucket < |t.buckets|
  }

  predicate Distinct(t: Table) {
    forall s, u :: s in t.limiters && u in t.limiters && s != u ==> t.limiters[s].bucket != t.limiters[u].bucket
  }

  function BucketOf(t: Table, s: string): Bucket
    requires InRange(t) && s in t.limiters
  {
    t.buckets[t.limiters[s].bucket]
  }

  function ViewOf(t: Table): View
    requires InRange(t)
  {
    View(map s | s in t.limiters :: SessionView(BucketOf(t, s), t.limiters[s].lastSeen), t.limit, t.burst)
  }

  /** The steps of the interleaved model are the methods of the middleware, seen as values. */
  lemma LookupStepIsLookup(t: Table, limit: Limit, burst: int, session: string, now: int)
    requires InRange(t)
    ensures InRange(Lookup(t, limit, burst, session, now))
    ensures ViewOf(Lookup(t, limit, burst, session, now)) == LookupView(ViewOf(t), limit, burst, session, now)
  {
    var refreshed := Refreshed(t, limit, burst);
    var u, v := Lookup(t, limit, burst, session, now), LookupView(ViewOf(t), limit, burst, session, now);
    LookupHere(refreshed, session, now);
    forall s | s in u.limiters ensures s in v.sessions && ViewOf(u).sessions[s] == v.sessions[s] {
      if s != session {
        LookupElsewhere(refreshed, session, now, s);
      }
    }
    assert ViewOf(u).sessions.Keys == v.sessions.Keys;
    assert ViewOf(u).sessions == v.sessions;
  }

  lemma ReapStepIsReap(t: Table, now: int)
    requires InRange(t)
    ensures InRange(Reap(t, now)) && ViewOf(Reap(t, now)) == ReapView(ViewOf(t), now)
  {
    assert ViewOf(Reap(t, now)).sessions == ReapView(ViewOf(t), now).sessions;
  }

  /** Entering is the lookup, after which the request holds its session's limiter; a request that is not limited leaves no trace. */
  lemma EnterHoldsTheLimiter(sys: Sys, e: Event)
    requires InRange(sys.table) && e.Enter?
    ensures var next := Step(sys, e);
            if !Positive(e.limit) || e.session == "" then next == sys
            else
              && InRange(next.table) && ViewOf(next.table) == LookupView(ViewOf(sys.table), e.limit, e.burst, e.session, e.now)
              && e.session in next.table.limiters && next.answers == sys.answers
              && next.pending == sys.pending[e.request := Pending(e.session, next.table.limiters[e.session].bucket, e.now)]
  {
    LookupStepIsLookup(sys.table, e.limit, e.burst, e.session, e.now);
  }

  predicate Asks(sys: Sys, e: Event, bucket: nat) {
    e.Decide? && e.request in sys.pending && sys.pending[e.request].bucket == bucket
  }

  /** When the requests that hold this limiter asked it. */
  function AskedAt(sys: Sys, events: seq<Event>, bucket: nat): seq<int> {
    if events == [] then []
    else
      var front, e := events[..|events| - 1], events[|events| - 1];
      AskedAt(sys, front, bucket) + if Asks(Run(sys, front), e, bucket) then [e.now] else []
  }

  /** The answers that the run adds to its list when they ask. */
  function AnsweredBy(sys: Sys, events: seq<Event>, bucket: nat): seq<Answer> {
    if events == [] then []
    else
      var front, e := events[..|events| - 1], events[|events| - 1];
      AnsweredBy(sys, front, bucket) + if Asks(Run(sys, front), e, bucket) then Added(Run(sys, front), Run(sys, events)) else []
  }

  function Added(before: Sys, after: Sys): seq<Answer> {
    if |before.answers| <= |after.answers| then after.answers[|before.answers|..] else []
  }

  /** The answers to calls at these times of a bucket that nobody else asks, which ends as bucket `after`. */
  ghost predicate AnsweredAlone(b: Bucket, times: seq<int>, answers: seq<Answer>, after: Bucket) {
    && after == After(b, times)
    && |answers| == |times| == |Calls(b, times)|
    && forall i :: 0 <= i < |times| ==> answers[i].ok == Calls(b, times)[i].ok && answers[i].time == times[i]
  }

  /**
   In every run each limiter is asked exactly by the requests that hold it, and answers them one after
   the other as it would answer calls at these times alone, whatever other sessions, lookups, the reaper
   and changes of the limits do.
   */
  lemma {:induction false} LimitersAnswerAlone(sys: Sys, events: seq<Event>, bucket: nat)
    requires bucket < |sys.table.buckets|
    ensures bucket < |Run(sys, events).table.buckets|
    ensures AnsweredAlone(sys.table.buckets[bucket], AskedAt(sys, events, bucket), AnsweredBy(sys, events, bucket),
                          Run(sys, events).table.buckets[bucket])
  {
    if events != [] {
      var front, e := events[..|events| - 1], events[|events| - 1];
      LimitersAnswerAlone(sys, front, bucket);
      var now, b := Run(sys, front), sys.table.buckets[bucket];
      var times, answers := AskedAt(sys, front, bucket), AnsweredBy(sys, front, bucket);
      if Asks(now, e, bucket) {
        AskedStep(now, e, bucket);
        AnswerAppended(b, times, answers, now.table.buckets[bucket], Added(now, Step(now, e))[0]);
        assert Added(now, Step(now, e)) == [Added(now, Step(now, e))[0]];
      } else {
        UnaskedStep(now, e, bucket);
        assert times + [] == times && answers + [] == answers;
      }
    }
  }

  lemma AnswerAppended(b: Bucket, times: seq<int>, answers: seq<Answer>, after: Bucket, a: Answer)
    requires AnsweredAlone(b, times, answers, after) && a.ok == Allow(after, a.time).ok
    ensures AnsweredAlone(b, times + [a.time], answers + [a], Allow(after, a.time).bucket)
  {
    CallsAppend(b, times, a.time);
    LastCall(b, times, a.time);
  }

  /** A request that asks is answered by the limiter it holds, from then on holds none, and no other limiter moves. */
  lemma AskedStep(now: Sys, e: Event, bucket: nat)
    requires bucket < |now.table.buckets| && Asks(now, e, bucket)
    ensures var next, v := Step(now, e), Allow(now.table.buckets[bucket], e.now);
            && next.table == now.table.(buckets := now.table.buckets[bucket := v.bucket])
            && Added(now, next) == [Answer(e.request, now.pending[e.request].session, e.now, v.ok)]
            && next.pending == now.pending - {e.request}
  {
  }

  lemma UnaskedStep(now: Sys, e: Event, bucket: nat)
    requires bucket < |now.table.buckets| && !Asks(now, e, bucket)
    ensures bucket < |Step(now, e).table.buckets| && Step(now, e).table.buckets[bucket] == now.table.buckets[bucket]
  {
  }

  /** A lookup at unchanged limits leaves the other sessions alone. */
  lemma LookupElsewhere(t: Table, session: string, now: int, s: string)
    requires InRange(t) && s != session
    ensures var u := Lookup(t, t.limit, t.burst, session, now);
            && InRange(u)
            && (s in u.limiters <==> s in t.limiters)
            && (s in t.limiters ==> u.limiters[s] == t.limiters[s] && BucketOf(u, s) == BucketOf(t, s))
  {
  }

  lemma LookupHere(t: Table, session: string, now: int)
    requires InRange(t)
    ensures var u := Lookup(t, t.limit, t.burst, session, now);
            && InRange(u) && session in u.limiters
            && u.limiters[session].lastSeen == now
            && (session in t.limiters ==> u.limiters[session].bucket == t.limiters[session].bucket)
            && BucketOf(u, session) == if session in t.limiters then BucketOf(t, session) else NewBucket(t.limit, t.burst)
  {
  }

  // ---------------------------------------------------------------- what every run keeps

  function LastTime(events: seq<Event>, start: int): int {
    if events == [] then start else events[|events| - 1].now
  }

  /** One clock orders the events. */
  predicate Timed(events: seq<Event>, start: int) {
    events == [] ||
    (Timed(events[..|events| - 1], start) && LastTime(events[..|events| - 1], start) <= events[|events| - 1].now)
  }

  /** Every rate-limited request of the run is configured with these limits. */
  predicate Configured(events: seq<Event>, limit: Limit, burst: int) {
    forall e :: e in events && e.Enter? && RateLimited(e.limit, e.session) ==> e.limit == limit && e.burst == burst
  }

  ghost predicate Steady(b: Bucket) {
    Positive(b.limit) && b.burst >= 0 && SmallDebt(b) && Gridded(b)
  }

  /** Limiters are all different, were made at the table's limits, and never in real debt. */
  ghost predicate SolidTable(t: Table) {
    && InRange(t) && Distinct(t)
    && (forall i :: 0 <= i < |t.buckets| ==> Steady(t.buckets[i]))
    && (forall s :: s in t.limiters ==> BucketOf(t, s).limit == t.limit && BucketOf(t, s).burst == t.burst)
  }

  /** A request holds a limiter of its own session, unless nobody's table entry holds it any more. */
  ghost predicate Owned(sys: Sys) {
    forall q, s :: q in sys.pending && s in sys.table.limiters && s != sys.pending[q].session ==>
      sys.pending[q].bucket != sys.table.limiters[s].bucket
  }

  /** What holds of every reachable state, whatever the clocks say. */
  ghost predicate Solid(sys: Sys) {
    && SolidTable(sys.table) && Owned(sys)
    && (forall r :: r in sys.pending ==> sys.pending[r].bucket < |sys.table.buckets|)
  }

  ghost predicate WellFormed(sys: Sys, now: int) {
    && 0 <= now && Solid(sys)
    && (forall i :: 0 <= i < |sys.table.buckets| ==> sys.table.buckets[i].last <= now)
    && (forall r :: r in sys.pending ==> sys.pending[r].entered <= now)
  }

  predicate SaneBursts(events: seq<Event>) {
    forall e :: e in events && e.Enter? && RateLimited(e.limit, e.session) ==> e.burst >= 0
  }

  lemma LookupKeepsSolid(t: Table, session: string, now: int)
    requires SolidTable(t) && Positive(t.limit) && t.burst >= 0
    ensures SolidTable(Lookup(t, t.limit, t.burst, session, now))
  {
    var u := Lookup(t, t.limit, t.burst, session, now);
    NewIsGridded(t.limit, t.burst);
    LookupHere(t, session, now);
    forall s | s in u.limiters && s != session
      ensures s in t.limiters && u.limiters[s] == t.limiters[s] && BucketOf(u, s) == BucketOf(t, s)
    {
      LookupElsewhere(t, session, now, s);
    }
  }

  lemma EnterKeepsSolid(sys: Sys, e: Event)
    requires Solid(sys) && e.Enter? && RateLimited(e.limit, e.session) && e.burst >= 0
    ensures Solid(Step(sys, e))
  {
    LookupKeepsSolid(Refreshed(sys.table, e.limit, e.burst), e.session, e.now);
  }

  lemma StepKeepsSolid(sys: Sys, e: Event)
    requires Solid(sys) && (e.Enter? && RateLimited(e.limit, e.session) ==> e.burst >= 0)
    ensures Solid(Step(sys, e))
  {
    if e.Enter? && RateLimited(e.limit, e.session) {
      EnterKeepsSolid(sys, e);
    } else if e.Decide? && e.request in sys.pending {
      AllowKeepsDebtSmall(sys.table.buckets[sys.pending[e.request].bucket], e.now);
      AllowKeepsGridded(sys.table.buckets[sys.pending[e.request].bucket], e.now);
    }
  }

  lemma {:induction false} ReachableIsSolid(events: seq<Event>)
    requires SaneBursts(events)
    ensures Solid(Run(START, events))
  {
    if events != [] {
      var front, e := events[..|events| - 1], events[|events| - 1];
      assert events == front + [e];
      ReachableIsSolid(front);
      StepKeepsSolid(Run(START, front), e);
    }
  }

  lemma StepKeepsWellFormed(sys: Sys, e: Event, now: int)
    requires WellFormed(sys, now) && now <= e.now
    requires e.Enter? && RateLimited(e.limit, e.session) ==> e.burst >= 0
    ensures WellFormed(Step(sys, e), e.now)
  {
    StepKeepsSolid(sys, e);
  }

  // ---------------------------------------------------------------- runs step by step

  lemma RunNext(sys: Sys, events: seq<Event>, now: Sys, e: Event)
    requires Run(sys, events) == now
    ensures Run(sys, events + [e]) == Step(now, e)
  {
    assert (events + [e])[..|events|] == events;
  }

  lemma {:induction false} RunAppend(sys: Sys, xs: seq<Event>, ys: seq<Event>)
    ensures Run(sys, xs + ys) == Run(Run(sys, xs), ys)
    decreases |ys|
  {
    if ys == [] {
      assert xs + ys == xs;
    } else {
      RunAppend(sys, xs, ys[..|ys| - 1]);
      assert (xs + ys)[..|xs + ys| - 1] == xs + ys[..|ys| - 1];
    }
  }
}
