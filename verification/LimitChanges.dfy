/** pkg/mcp/middleware.go: how often a change of the configured limits discards all limiters. */
module LimitChanges {
  import opened RateLimiter
  import opened SessionLimits

  /** How often the limits of the rate-limited requests differ from those of the one before. */
  function Changes(limit: Limit, burst: int, events: seq<Event>): nat
    decreases |events|
  {
    if events == [] then 0
    else
      var e := events[0];
      if e.Enter? && RateLimited(e.limit, e.session) then
        (if e.limit != limit || e.burst != burst then 1 else 0) + Changes(e.limit, e.burst, events[1..])
      else Changes(limit, burst, events[1..])
  }

  lemma {:induction false} RunFromFirst(sys: Sys, events: seq<Event>)
    requires events != []
    ensures Run(sys, events) == Run(Step(sys, events[0]), events[1..])
    decreases |events|
  {
    var front, e := events[..|events| - 1], events[|events| - 1];
    if front == [] {
      assert events[1..] == [];
    } else {
      RunFromFirst(sys, front);
      assert events[1..][..|events| - 2] == front[1..];
    }
  }

  /**
   All limiters are discarded exactly as often as the limits change from one request to the
   next, in the order in which the requests take the mutex.
   */
  lemma {:induction false} ResetsAreChanges(sys: Sys, events: seq<Event>)
    ensures Run(sys, events).table.resets == sys.table.resets + Changes(sys.table.limit, sys.table.burst, events)
    decreases |events|
  {
    if events != [] {
      RunFromFirst(sys, events);
      ResetsAreChanges(Step(sys, events[0]), events[1..]);
    }
  }

  /** The limits that each rate-limited request of a run carries. */
  predicate Carries(e: Event, limit: Limit, burst: int) {
    e.Enter? && RateLimited(e.limit, e.session) && e.limit == limit && e.burst == burst
  }

  /** Every rate-limited request carries one of two limits. */
  predicate OldOrNew(events: seq<Event>, former: (Limit, int), latter: (Limit, int)) {
    forall e :: e in events && e.Enter? && RateLimited(e.limit, e.session) ==>
      Carries(e, former.0, former.1) || Carries(e, latter.0, latter.1)
  }

  /** A request carries the old limits past one that carried the new ones. */
  ghost predicate LateReader(events: seq<Event>, former: (Limit, int), latter: (Limit, int)) {
    exists i, j :: 0 <= i < j < |events| && Carries(events[i], latter.0, latter.1) && Carries(events[j], former.0, former.1)
  }

  lemma {:induction false} SettledOnNew(events: seq<Event>, former: (Limit, int), latter: (Limit, int))
    requires former != latter && OldOrNew(events, former, latter)
    ensures Changes(latter.0, latter.1, events) == 0 <==> forall e :: e in events ==> !Carries(e, former.0, former.1)
    decreases |events|
  {
    if events != [] {
      assert events == [events[0]] + events[1..];
      SettledOnNew(events[1..], former, latter);
    }
  }

  lemma LateReaderCons(e: Event, rest: seq<Event>, former: (Limit, int), latter: (Limit, int))
    ensures LateReader([e] + rest, former, latter)
       <==> LateReader(rest, former, latter)
            || (Carries(e, latter.0, latter.1) && exists x :: x in rest && Carries(x, former.0, former.1))
  {
    var events := [e] + rest;
    if i, j :| 0 <= i < j < |rest| && Carries(rest[i], latter.0, latter.1) && Carries(rest[j], former.0, former.1) {
      assert events[i + 1] == rest[i] && events[j + 1] == rest[j];
    }
    if x :| Carries(e, latter.0, latter.1) && x in rest && Carries(x, former.0, former.1) {
      var j :| 0 <= j < |rest| && rest[j] == x;
      assert events[0] == e && events[j + 1] == x;
    }
    if i, j :| 0 <= i < j < |events| && Carries(events[i], latter.0, latter.1) && Carries(events[j], former.0, former.1) {
      assert rest[j - 1] == events[j];
      assert i > 0 ==> rest[i - 1] == events[i];
    }
  }

  lemma {:induction false} ChangesOnce(events: seq<Event>, former: (Limit, int), latter: (Limit, int))
    requires former != latter && OldOrNew(events, former, latter) && exists e :: e in events && Carries(e, latter.0, latter.1)
    ensures Changes(former.0, former.1, events) == 1 <==> !LateReader(events, former, latter)
    decreases |events|
  {
    var e, rest := events[0], events[1..];
    assert events == [e] + rest;
    LateReaderCons(e, rest, former, latter);
    if Carries(e, latter.0, latter.1) {
      SettledOnNew(rest, former, latter);
      assert LateReader(rest, former, latter) ==> exists x :: x in rest && Carries(x, former.0, former.1);
    } else {
      ChangesOnce(rest, former, latter);
    }
  }

  /**
   One change of the configuration discards all limiters exactly once if and only if no request
   carries the old limits, read before the mutex was taken, past one that carries the new ones.
   */
  lemma {:induction false} OneChangeResetsOnceExactlyWhen(sys: Sys, events: seq<Event>, limit: Limit, burst: int)
    requires (sys.table.limit, sys.table.burst) != (limit, burst)
    requires OldOrNew(events, (sys.table.limit, sys.table.burst), (limit, burst))
    requires exists e :: e in events && Carries(e, limit, burst)
    ensures Run(sys, events).table.resets == sys.table.resets + 1
       <==> !LateReader(events, (sys.table.limit, sys.table.burst), (limit, burst))
  {
    ResetsAreChanges(sys, events);
    ChangesOnce(events, (sys.table.limit, sys.table.burst), (limit, burst));
  }

  /** One late reader makes it three: here and back, and here again. */
  lemma LateReaderResetsAgain(sys: Sys, s: string, limit: Limit, burst: int, t: int)
    requires s != "" && Positive(limit) && Positive(sys.table.limit) && (sys.table.limit, sys.table.burst) != (limit, burst)
    ensures var late := [Enter(0, s, limit, burst, t), Enter(1, s, sys.table.limit, sys.table.burst, t), Enter(2, s, limit, burst, t)];
            Run(sys, late).table.resets == sys.table.resets + 3
  {
    var x, y, z := Enter(0, s, limit, burst, t), Enter(1, s, sys.table.limit, sys.table.burst, t), Enter(2, s, limit, burst, t);
    ResetsAreChanges(sys, [x, y, z]);
    assert [x, y, z][1..] == [y, z] && [y, z][1..] == [z] && [z][1..] == [];
    assert Changes(sys.table.limit, sys.table.burst, [z]) == 1;
    assert Changes(limit, burst, [y, z]) == 2;
  }
}
