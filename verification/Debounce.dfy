/**
 pkg/kubernetes/watcher/cluster.go and pkg/kcp/workspace_watcher.go: the debounce timer between
 a poll that sees a change and the reload it asks for.

 Time is a number of nanoseconds. The ticker and the timers are punctual, and looking at the
 cluster takes no time; reloads may take any time and may fail.
 */
module Debounce {
  import opened Common
  import Runs

  /** What captureState returns; the workspace watcher has names only. */
  datatype View = View(names: seq<string>, isOpenShift: bool)

  datatype Config = Config(pollInterval: int, debounceWindow: int)

  /** Every timer ever armed is pending, fired at some time, or stopped before that. */
  datatype Timers = Timers(pending: map<nat, int>, fired: map<nat, int>, stopped: set<nat>, next: nat)

  /**
   `timer` is the debounceTimer field; `running` holds the timers whose reload has not returned;
   `stopping` says that Close has closed stopCh.
   */
  datatype State = State(now: int, polling: bool, nextPoll: int, known: View, timer: Option<nat>, timers: Timers,
                         running: set<nat>, stopping: bool)

  datatype Action =
    | Advance(to: int)
    | Poll(view: View)
    | Fire(id: nat)
    | Complete(id: nat, ok: bool, view: View)   // the reload returns; view is what the cluster looks like then
    | CloseStops                                // Close under mu: it stops the timer and closes stopCh
    | Exit                                      // the polling goroutine ends

  // ---------------------------------------------------------------- polls and timers

  function Armed(ts: Timers, deadline: int): Timers {
    ts.(pending := ts.pending[ts.next := deadline], next := ts.next + 1)
  }

  /** Stopping a timer that has fired, or none at all, does nothing. */
  function StopTimer(ts: Timers, timer: Option<nat>): Timers {
    if timer.Some? && timer.value in ts.pending then
      ts.(pending := ts.pending - {timer.value}, stopped := ts.stopped + {timer.value})
    else ts
  }

  function Polled(c: Config, s: State, view: View): State {
    if view == s.known then s
    else s.(timers := Armed(StopTimer(s.timers, s.timer), s.now + c.debounceWindow), timer := Some(s.timers.next))
  }

  class TimerQueue {
    var pending: map<nat, int>
    ghost var fired: map<nat, int>
    ghost var stopped: set<nat>
    var next: nat

    ghost function Abs(): Timers
      reads this
    {
      Timers(pending, fired, stopped, next)
    }

    constructor ()
      ensures Abs() == Timers(map[], map[], {}, 0)
    {
      pending, fired, stopped, next := map[], map[], {}, 0;
    }

    method AfterFunc(deadline: int) returns (id: nat)
      modifies this
      ensures id == old(next) && Abs() == Armed(old(Abs()), deadline)
    {
      id := next;
      pending := pending[id := deadline];
      next := next + 1;
    }

    method Stop(id: nat)
      modifies this
      ensures Abs() == StopTimer(old(Abs()), Some(id))
    {
      if id in pending {
        stopped := stopped + {id};
        pending := pending - {id};
      }
    }
  }

  /** Lengths first, then element by element: the loop decides inequality. */
  method Changed(current: View, known: View) returns (changed: bool)
    ensures changed <==> current != known
  {
    changed := current.isOpenShift != known.isOpenShift || |current.names| != |known.names|;
    if !changed {
      for i := 0 to |current.names|
        invariant !changed && forall j :: 0 <= j < i ==> current.names[j] == known.names[j]
      {
        if current.names[i] != known.names[i] {
          changed := true;
          break;
        }
      }
      if !changed {
        assert current.names == known.names;
      }
    }
  }

  class Debouncer {
    const config: Config
    var lastKnownState: View
    var debounceTimer: Option<nat>
    const queue: TimerQueue

    /** The object's part of a state of the machine. */
    ghost predicate Is(s: State)
      reads this, queue
    {
      s.known == lastKnownState && s.timer == debounceTimer && s.timers == queue.Abs()
    }

    constructor (config: Config, known: View)
      ensures lastKnownState == known && debounceTimer == None && queue.Abs() == Timers(map[], map[], {}, 0)
      ensures this.config == config && fresh(queue)
    {
      this.config, lastKnownState, debounceTimer := config, known, None;
      queue := new TimerQueue();
    }

    /** What the polling goroutine does under mu at a tick. */
    method Poll(ghost s: State, now: int, current: View)
      requires Is(s) && s.now == now
      modifies this, queue
      ensures Is(Polled(config, s, current))
    {
      var changed := Changed(current, lastKnownState);
      if changed {
        if debounceTimer.Some? {
          queue.Stop(debounceTimer.value);
        }
        var id := queue.AfterFunc(now + config.debounceWindow);
        debounceTimer := Some(id);
      }
    }

    /** The end of the timer's function: only a reload that worked replaces the last known state. */
    method Reloaded(ghost s: State, ok: bool, view: View)
      requires Is(s)
      modifies this
      ensures Is(if ok then s.(known := view) else s)
    {
      if ok {
        lastKnownState := view;
      }
    }
  }

  // ---------------------------------------------------------------- the timed machine

  /** A goroutine that is told to stop takes a tick that is due, or ends, before time goes on. */
  ghost predicate NothingDueBefore(s: State, to: int) {
    (s.polling ==> !s.stopping && to <= s.nextPoll) && forall id :: id in s.timers.pending ==> to <= s.timers.pending[id]
  }

  ghost function Step(c: Config, s: State, a: Action): Option<State> {
    match a
    case Advance(to) =>
      if s.now < to && NothingDueBefore(s, to) then Some(s.(now := to)) else None
    case Poll(view) =>
      if s.polling && s.now == s.nextPoll then Some(Polled(c, s, view).(nextPoll := s.nextPoll + c.pollInterval)) else None
    case Fire(id) =>
      if id in s.timers.pending && s.timers.pending[id] <= s.now then
        Some(s.(timers := s.timers.(pending := s.timers.pending - {id}, fired := s.timers.fired[id := s.now]),
                running := s.running + {id}))
      else None
    case Complete(id, ok, view) =>
      if id in s.running then Some((if ok then s.(known := view) else s).(running := s.running - {id})) else None
    case CloseStops =>
      Some(s.(timers := StopTimer(s.timers, s.timer), stopping := true))
    case Exit =>
      if s.polling && s.stopping then Some(s.(polling := false)) else None
  }

  ghost function Run(c: Config, s: State, actions: seq<Action>): Option<State> {
    Runs.Run((now, a) => Step(c, now, a), s, actions)
  }

  /** Watch has captured the state at time `now` and started the ticker. */
  function Watched(c: Config, now: int, known: View): State {
    State(now, true, now + c.pollInterval, known, None, Timers(map[], map[], {}, 0), {}, false)
  }

  predicate Sound(c: Config) {
    c.pollInterval > 0 && c.debounceWindow > 0
  }

  /** Each timer armed so far is in exactly one of the three places. */
  ghost predicate Accounted(ts: Timers) {
    && (forall id :: id in ts.pending || id in ts.fired || id in ts.stopped <==> 0 <= id < ts.next)
    && ts.pending.Keys !! ts.fired.Keys && ts.pending.Keys !! ts.stopped && ts.fired.Keys !! ts.stopped
  }

  ghost predicate Inv(c: Config, s: State) {
    && Sound(c)
    && Accounted(s.timers)
    && (s.timer.Some? ==> s.timer.value < s.timers.next)
    && (forall id :: id in s.timers.pending ==>
          s.timer == Some(id) && s.now <= s.timers.pending[id] <= s.nextPoll - c.pollInterval + c.debounceWindow)
    && (s.polling ==> s.nextPoll - c.pollInterval <= s.now <= s.nextPoll)
  }

  lemma StepKeepsInv(c: Config, s: State, a: Action)
    requires Inv(c, s) && Step(c, s, a).Some?
    ensures Inv(c, Step(c, s, a).value)
  {
  }

  lemma {:induction false} RunKeepsInv(c: Config, s: State, actions: seq<Action>)
    requires Inv(c, s) && Run(c, s, actions).Some?
    ensures Inv(c, Run(c, s, actions).value)
  {
    if actions != [] {
      RunKeepsInv(c, s, actions[..|actions| - 1]);
      StepKeepsInv(c, Run(c, s, actions[..|actions| - 1]).value, actions[|actions| - 1]);
    }
  }

  /** At no time are two timers pending, and a pending one is the one that the next change or Close will stop. */
  lemma {:induction false} OnePendingTimer(c: Config, now: int, known: View, actions: seq<Action>)
    requires Sound(c) && Run(c, Watched(c, now, known), actions).Some?
    ensures var s := Run(c, Watched(c, now, known), actions).value;
            && (forall id :: id in s.timers.pending ==> s.timer == Some(id))
            && (forall id, other :: id in s.timers.pending && other in s.timers.pending ==> id == other)
            && Accounted(s.timers)
  {
    RunKeepsInv(c, Watched(c, now, known), actions);
  }

  // ---------------------------------------------------------------- a window shorter than the poll interval

  predicate NoClose(actions: seq<Action>) {
    forall i :: 0 <= i < |actions| ==> actions[i] != CloseStops
  }

  /** Timer id will fire, or has fired, at `due`. */
  ghost predicate OnItsWay(s: State, id: nat, due: int) {
    || (id in s.timers.pending && s.timers.pending[id] == due)
    || (id in s.timers.fired && s.timers.fired[id] == due)
  }

  lemma StepKeepsOnItsWay(c: Config, s: State, a: Action, id: nat, due: int)
    requires Inv(c, s) && c.debounceWindow < c.pollInterval && a != CloseStops && Step(c, s, a).Some?
    requires OnItsWay(s, id, due)
    ensures OnItsWay(Step(c, s, a).value, id, due)
  {
  }

  lemma {:induction false} RunKeepsOnItsWay(c: Config, s: State, actions: seq<Action>, id: nat, due: int)
    requires Inv(c, s) && c.debounceWindow < c.pollInterval && NoClose(actions) && Run(c, s, actions).Some?
    requires OnItsWay(s, id, due)
    ensures OnItsWay(Run(c, s, actions).value, id, due)
  {
    if actions != [] {
      var n := |actions| - 1;
      RunKeepsOnItsWay(c, s, actions[..n], id, due);
      RunKeepsInv(c, s, actions[..n]);
      StepKeepsOnItsWay(c, Run(c, s, actions[..n]).value, actions[n], id, due);
    }
  }

  /**
   With a window shorter than the poll interval, each poll that sees a change fires a reload of
   its own, exactly one window later: by the time of the next poll it has fired.
   */
  lemma EachChangeFires(c: Config, s: State, view: View, rest: seq<Action>)
    requires Inv(c, s) && c.debounceWindow < c.pollInterval
    requires Step(c, s, Poll(view)).Some? && view != s.known
    requires NoClose(rest) && Run(c, Step(c, s, Poll(view)).value, rest).Some?
    requires Run(c, Step(c, s, Poll(view)).value, rest).value.now >= s.now + c.pollInterval
    ensures var last := Run(c, Step(c, s, Poll(view)).value, rest).value;
            s.timers.next in last.timers.fired && last.timers.fired[s.timers.next] == s.now + c.debounceWindow
  {
    var armed := Step(c, s, Poll(view)).value;
    StepKeepsInv(c, s, Poll(view));
    RunKeepsOnItsWay(c, armed, rest, s.timers.next, s.now + c.debounceWindow);
    RunKeepsInv(c, armed, rest);
  }

  /** Nobody stops a timer during this run: Close does not, and polls see what is known. */
  ghost predicate Undisturbed(c: Config, s: State, actions: seq<Action>) {
    actions == [] ||
    (var front, a := actions[..|actions| - 1], actions[|actions| - 1];
     && Undisturbed(c, s, front) && a != CloseStops
     && (a.Poll? && Run(c, s, front).Some? ==> a.view == Run(c, s, front).value.known))
  }

  lemma {:induction false} UndisturbedStaysOnItsWay(c: Config, s: State, actions: seq<Action>, id: nat, due: int)
    requires Inv(c, s) && Undisturbed(c, s, actions) && Run(c, s, actions).Some? && OnItsWay(s, id, due)
    ensures OnItsWay(Run(c, s, actions).value, id, due)
  {
    if actions != [] {
      var n := |actions| - 1;
      UndisturbedStaysOnItsWay(c, s, actions[..n], id, due);
      RunKeepsInv(c, s, actions[..n]);
    }
  }

  /**
   Whatever the window: the timer that a differing poll arms fires one window later, unless before that
   another poll differs or Close stops it. A poll that sees the known state again does not take it back.
   */
  lemma ChangeFiresUnlessDisturbed(c: Config, s: State, view: View, rest: seq<Action>)
    requires Inv(c, s) && Step(c, s, Poll(view)).Some? && view != s.known
    requires Undisturbed(c, Step(c, s, Poll(view)).value, rest) && Run(c, Step(c, s, Poll(view)).value, rest).Some?
    requires Run(c, Step(c, s, Poll(view)).value, rest).value.now > s.now + c.debounceWindow
    ensures var last := Run(c, Step(c, s, Poll(view)).value, rest).value;
            s.timers.next in last.timers.fired && last.timers.fired[s.timers.next] == s.now + c.debounceWindow
  {
    var armed := Step(c, s, Poll(view)).value;
    StepKeepsInv(c, s, Poll(view));
    UndisturbedStaysOnItsWay(c, armed, rest, s.timers.next, s.now + c.debounceWindow);
    RunKeepsInv(c, armed, rest);
  }

  function Differing(known: View, actions: seq<Action>): nat {
    if actions == [] then 0
    else
      var a := actions[|actions| - 1];
      Differing(known, actions[..|actions| - 1]) + if a.Poll? && a.view != known then 1 else 0
  }

  predicate ReloadsFail(actions: seq<Action>) {
    forall i :: 0 <= i < |actions| && actions[i].Complete? ==> !actions[i].ok
  }

  lemma StepRetries(c: Config, s: State, a: Action)
    requires Inv(c, s) && Step(c, s, a).Some? && (a.Complete? ==> !a.ok)
    ensures var next := Step(c, s, a).value;
            && next.known == s.known
            && next.timers.next == s.timers.next + (if a.Poll? && a.view != s.known then 1 else 0)
            && (c.debounceWindow < c.pollInterval && a != CloseStops ==> next.timers.stopped == s.timers.stopped)
  {
  }

  /**
   While reloads fail the last known state stays, so every poll that differs from it arms a timer
   again; with a short window none of these is stopped, so each asks for a reload.
   */
  lemma {:induction false} FailedReloadsAreRetried(c: Config, s: State, actions: seq<Action>)
    requires Inv(c, s) && ReloadsFail(actions) && Run(c, s, actions).Some?
    ensures var last := Run(c, s, actions).value;
            && last.known == s.known
            && last.timers.next == s.timers.next + Differing(s.known, actions)
            && (c.debounceWindow < c.pollInterval && NoClose(actions) ==> last.timers.stopped == s.timers.stopped)
  {
    if actions != [] {
      var n := |actions| - 1;
      FailedReloadsAreRetried(c, s, actions[..n]);
      RunKeepsInv(c, s, actions[..n]);
      StepRetries(c, Run(c, s, actions[..n]).value, actions[n]);
    }
  }

  // ---------------------------------------------------------------- a window longer than the poll interval

  predicate AllDiffer(known: View, actions: seq<Action>) {
    forall i :: 0 <= i < |actions| && actions[i].Poll? ==> actions[i].view != known
  }

  predicate KeepsPolling(actions: seq<Action>) {
    forall i :: 0 <= i < |actions| ==> actions[i] != Exit
  }

  /** What is pending was armed at the last poll. */
  ghost predicate ArmedLast(c: Config, s: State) {
    forall id :: id in s.timers.pending ==> s.timers.pending[id] == s.nextPoll - c.pollInterval + c.debounceWindow
  }

  /** With a window longer than the poll interval, a state that differs at every poll never causes a reload. */
  lemma {:induction false} SteadyChangeNeverFires(c: Config, now: int, known: View, actions: seq<Action>)
    requires Sound(c) && c.debounceWindow > c.pollInterval
    requires AllDiffer(known, actions) && KeepsPolling(actions) && Run(c, Watched(c, now, known), actions).Some?
    ensures var s := Run(c, Watched(c, now, known), actions).value;
            s.timers.fired == map[] && s.known == known && s.running == {} && s.polling && ArmedLast(c, s)
  {
    if actions != [] {
      var n := |actions| - 1;
      SteadyChangeNeverFires(c, now, known, actions[..n]);
      RunKeepsInv(c, Watched(c, now, known), actions[..n]);
    }
  }

  lemma Next(c: Config, s: State, acts: seq<Action>, now: State, a: Action) returns (longer: seq<Action>)
    requires Run(c, s, acts) == Some(now)
    ensures Run(c, s, longer) == Step(c, now, a)
  {
    Runs.Next((t, b) => Step(c, t, b), s, acts, now, a);
    longer := acts + [a];
  }

  /** One interval after the first poll, the second poll and the first timer are due together. */
  function BothDue(c: Config, now: int, known: View): State {
    var due := now + 2 * c.pollInterval;
    State(due, true, due, known, Some(0), Timers(map[0 := due], map[], {}, 1), {}, false)
  }

  lemma BothComeDue(c: Config, now: int, known: View, view: View) returns (acts: seq<Action>)
    requires Sound(c) && c.debounceWindow == c.pollInterval && view != known
    ensures Run(c, Watched(c, now, known), acts) == Some(BothDue(c, now, known))
  {
    var s := Watched(c, now, known);
    acts := Next(c, s, [], s, Advance(s.nextPoll));
    acts := Next(c, s, acts, s.(now := s.nextPoll), Poll(view));
    var armed := BothDue(c, now, known).(now := s.nextPoll);
    acts := Next(c, s, acts, armed, Advance(armed.nextPoll));
  }

  /** Exactly at the boundary the second poll and the first timer are due together, and either may win. */
  lemma EqualWindowGoesEitherWay(c: Config, now: int, known: View, view: View) returns (stops: seq<Action>, fires: seq<Action>)
    requires Sound(c) && c.debounceWindow == c.pollInterval && view != known
    ensures var s := Run(c, Watched(c, now, known), stops);
            s.Some? && s.value.timers.stopped == {0} && s.value.timers.fired == map[]
    ensures var s := Run(c, Watched(c, now, known), fires);
            s.Some? && s.value.timers.stopped == {} && s.value.timers.fired == map[0 := now + 2 * c.pollInterval]
  {
    var s := Watched(c, now, known);
    var acts := BothComeDue(c, now, known, view);
    stops := Next(c, s, acts, BothDue(c, now, known), Poll(view));
    fires := Next(c, s, acts, BothDue(c, now, known), Fire(0));
  }

  // ---------------------------------------------------------------- after Close

  /** Some run after Close's stop fires a timer that had not fired before. */
  ghost predicate FiresAfterClose(c: Config, s: State) {
    exists rest, id :: FiredSince(s, Run(c, Step(c, s, CloseStops).value, rest), id)
  }

  ghost predicate FiredSince(s: State, later: Option<State>, id: nat) {
    later.Some? && id in later.value.timers.fired && id !in s.timers.fired
  }

  /** Nothing is pending, and no tick is left for the goroutine to take. */
  ghost predicate Silent(s: State) {
    s.stopping && s.timers.pending == map[] && (s.polling ==> s.now < s.nextPoll)
  }

  lemma {:induction false} SilentStays(c: Config, s: State, actions: seq<Action>)
    requires Inv(c, s) && Silent(s) && Run(c, s, actions).Some?
    ensures Silent(Run(c, s, actions).value) && Run(c, s, actions).value.timers == s.timers
  {
    if actions != [] {
      SilentStays(c, s, actions[..|actions| - 1]);
    }
  }

  /** A tick is due when Close closes stopCh: the goroutine polls once more, ends, and one window later the timer fires. */
  lemma TickBeatsClose(c: Config, s: State, view: View) returns (rest: seq<Action>)
    requires Inv(c, s) && s.polling && s.now == s.nextPoll && view != s.known
    ensures FiredSince(s, Run(c, Step(c, s, CloseStops).value, rest), s.timers.next)
    ensures !Run(c, Step(c, s, CloseStops).value, rest).value.polling
  {
    StepKeepsInv(c, s, CloseStops);
    var closed, id := Step(c, s, CloseStops).value, s.timers.next;
    StepKeepsInv(c, closed, Poll(view));
    var polled := Step(c, closed, Poll(view)).value;
    var ended := polled.(polling := false);
    var due := ended.(now := s.now + c.debounceWindow);
    rest := Next(c, closed, [], closed, Poll(view));
    rest := Next(c, closed, rest, polled, Exit);
    assert polled.timers.pending == map[id := due.now];
    rest := Next(c, closed, rest, ended, Advance(due.now));
    rest := Next(c, closed, rest, due, Fire(id));
  }

  /** Close leaves a callback behind exactly when a tick is due at that moment. */
  lemma {:induction false} FiresAfterCloseExactlyWhen(c: Config, s: State)
    requires Inv(c, s)
    ensures FiresAfterClose(c, s) <==> s.polling && s.now == s.nextPoll
  {
    var closed := Step(c, s, CloseStops).value;
    StepKeepsInv(c, s, CloseStops);
    if s.polling && s.now == s.nextPoll {
      var rest := TickBeatsClose(c, s, s.known.(isOpenShift := !s.known.isOpenShift));
    } else {
      forall rest, id ensures !FiredSince(s, Run(c, closed, rest), id) {
        if Run(c, closed, rest).Some? {
          SilentStays(c, closed, rest);
        }
      }
    }
  }

  /** And then just one: no more than one timer is armed from then on, by the last poll. */
  lemma {:induction false} OneCallbackAtMost(c: Config, s: State, rest: seq<Action>)
    requires Inv(c, s) && Run(c, Step(c, s, CloseStops).value, rest).Some?
    ensures var last := Run(c, Step(c, s, CloseStops).value, rest).value;
            && Inv(c, last) && last.stopping
            && (last.timers.next == s.timers.next
                || (last.timers.next == s.timers.next + 1 && (last.polling ==> last.now < last.nextPoll)))
  {
    StepKeepsInv(c, s, CloseStops);
    if rest != [] {
      var n := |rest| - 1;
      OneCallbackAtMost(c, s, rest[..n]);
      StepKeepsInv(c, Run(c, Step(c, s, CloseStops).value, rest[..n]).value, rest[n]);
    }
  }

  // ---------------------------------------------------------------- a change that is missed

  /** From now on the cluster looks like this. */
  predicate Sees(actions: seq<Action>, view: View) {
    forall i :: 0 <= i < |actions| ==>
      (actions[i].Poll? ==> actions[i].view == view) && (actions[i].Complete? ==> actions[i].view == view)
  }

  /**
   What the cluster looks like when a reload returns becomes the known state, although the reload
   may have acted on an earlier one. Here the cluster turns from `reloaded` to `view` while the
   first reload runs, and stays so: no timer is ever armed for that change.
   */
  lemma {:induction false} ChangeDuringReloadIsMissed(c: Config, now: int, known: View, reloaded: View, view: View)
    returns (acts: seq<Action>, after: State)
    requires Sound(c) && c.debounceWindow < c.pollInterval && reloaded != known
    ensures Run(c, Watched(c, now, known), acts) == Some(after) && after.polling && after.timers.fired == map[0 := after.now]
    ensures forall rest :: Sees(rest, view) && Run(c, after, rest).Some? ==>
              Run(c, after, rest).value.known == view && Run(c, after, rest).value.timers.next == 1
  {
    var s := Watched(c, now, known);
    var due := s.nextPoll + c.debounceWindow;
    acts := Next(c, s, [], s, Advance(s.nextPoll));
    var ticked := s.(now := s.nextPoll);
    acts := Next(c, s, acts, ticked, Poll(reloaded));
    var armed := ticked.(timer := Some(0), timers := Timers(map[0 := due], map[], {}, 1), nextPoll := s.nextPoll + c.pollInterval);
    acts := Next(c, s, acts, armed, Advance(due));
    acts := Next(c, s, acts, armed.(now := due), Fire(0));
    var fired := armed.(now := due, timers := Timers(map[], map[0 := due], {}, 1), running := {0});
    assert armed.timers.pending - {0} == map[] && armed.timers.fired[0 := due] == map[0 := due] && armed.running + {0} == {0};
    acts := Next(c, s, acts, fired, Complete(0, true, view));
    after := fired.(known := view, running := {});
    forall rest | Sees(rest, view) && Run(c, after, rest).Some?
      ensures Run(c, after, rest).value.known == view && Run(c, after, rest).value.timers.next == 1
    {
      NothingNewToSee(c, after, rest, view);
    }
  }

  lemma {:induction false} NothingNewToSee(c: Config, s: State, rest: seq<Action>, view: View)
    requires s.known == view && Sees(rest, view) && Run(c, s, rest).Some?
    ensures Run(c, s, rest).value.known == view && Run(c, s, rest).value.timers.next == s.timers.next
  {
    if rest != [] {
      NothingNewToSee(c, s, rest[..|rest| - 1], view);
    }
  }
}
