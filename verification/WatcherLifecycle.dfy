/**
 The start, stop and restart protocol shared by pkg/kubernetes/watcher/cluster.go,
 pkg/kubernetes/watcher/kubeconfig.go and pkg/kcp/workspace_watcher.go.

 Any number of threads call Watch and Close. Each launched goroutine polls under mu and closes
 stoppedCh when it ends; Close drops mu while it waits for that. Debounce callbacks take mu at
 any time. The Kubeconfig variant may return from Watch without launching anything, and its
 goroutine may end by itself.
 */
module WatcherLifecycle {
  import opened Common
  import Runs

  /** How often the two channels of one generation were closed; the second time panics. */
  datatype Channels = Channels(stop: nat, stopped: nat)

  /** What Watch and Close change: `past` holds the channels that Close has replaced. */
  datatype Shared = Shared(started: bool, past: seq<Channels>, current: Channels)

  /** A Close that signalled remembers the generation it stopped. */
  datatype Pc =
    | Idle
    | Watching                     // in Watch, holding mu
    | Starting                     // has seen that started is not set, still holding mu
    | Launching                    // started is set, mu released, no goroutine yet
    | Closing                      // in Close, holding mu
    | Signalling                   // has seen that stopCh is still open, holding mu
    | Waiting(generation: nat)     // stopCh closed, mu released
    | Woken(generation: nat)       // stoppedCh received, wants mu
    | Finishing(generation: nat)   // holding mu again
    | Renewing(generation: nat)    // started is cleared, the channels are still the old ones

  /** The stoppedCh that a goroutine will close is fixed when its defer statement runs. */
  datatype Poller = New | Selecting(generation: nat) | Wanting(generation: nat) | Polling(generation: nat)

  datatype Holder = Free | ByThread(t: nat) | ByPoller(p: nat) | ByCallback(c: nat)

  datatype State = State(
    kubeconfig: bool,
    holder: Holder,
    shared: Shared,
    threads: map<nat, Pc>,
    pollers: map<nat, Poller>,
    callbacks: map<nat, bool>,     // true while holding mu
    bailed: bool)                  // Watch has returned with started set and no goroutine

  datatype Action =
    | WatchLock(t: nat) | WatchCheck(t: nat) | WatchSet(t: nat) | Launch(t: nat, p: nat) | Bail(t: nat)
    | CloseLock(t: nat) | CloseCheck(t: nat) | CloseSignal(t: nat)
    | Receive(t: nat) | Relock(t: nat) | ClearStarted(t: nat) | Renew(t: nat)
    | Begin(p: nat) | Tick(p: nat) | PollLock(p: nat) | PollDone(p: nat) | Stop(p: nat) | Quit(p: nat)
    | Fire(c: nat) | CallbackLock(c: nat) | CallbackDone(c: nat)

  // ---------------------------------------------------------------- the critical sections

  function StartOnce(sh: Shared): Shared {
    sh.(started := true)
  }

  predicate MustSignal(sh: Shared) {
    sh.started && sh.current.stop == 0
  }

  function Signalled(sh: Shared): Shared {
    sh.(current := sh.current.(stop := sh.current.stop + 1))
  }

  function Renewed(sh: Shared): Shared {
    Shared(false, sh.past + [sh.current], Channels(0, 0))
  }

  function Stopped(sh: Shared, generation: nat): Shared {
    if generation < |sh.past| then
      sh.(past := sh.past[generation := sh.past[generation].(stopped := sh.past[generation].stopped + 1)])
    else sh.(current := sh.current.(stopped := sh.current.stopped + 1))
  }

  class Channel {
    var closings: nat

    constructor ()
      ensures closings == 0
    {
      closings := 0;
    }

    /** Closing a closed channel panics. */
    method Close()
      requires closings == 0
      modifies this
      ensures closings == 1
    {
      closings := closings + 1;
    }
  }

  class Watcher {
    var started: bool
    var stopCh: Channel
    var stoppedCh: Channel

    ghost predicate Is(sh: Shared)
      reads this, stopCh, stoppedCh
    {
      && stopCh != stoppedCh
      && sh.started == started && sh.current == Channels(stopCh.closings, stoppedCh.closings)
    }

    constructor ()
      ensures Is(Shared(false, [], Channels(0, 0)))
    {
      started := false;
      stopCh := new Channel();
      stoppedCh := new Channel();
    }

    /** Watch under mu: whether a goroutine is to be launched. */
    method Watch(ghost sh: Shared) returns (launch: bool)
      requires Is(sh)
      modifies this
      ensures launch <==> !sh.started
      ensures Is(StartOnce(sh)) && stopCh == old(stopCh) && stoppedCh == old(stoppedCh)
    {
      if started { return false; }
      started := true;
      return true;
    }

    /** Close under mu, up to the point where it lets go of mu: whether it has signalled and must wait. */
    method Close(ghost sh: Shared) returns (wait: bool)
      requires Is(sh)
      modifies stopCh
      ensures wait <==> MustSignal(sh)
      ensures Is(if wait then Signalled(sh) else sh)
    {
      if !started { return false; }
      if stopCh.closings > 0 { return false; }
      stopCh.Close();
      return true;
    }

    /** Close under mu again: new channels, so that the watcher can be started again. */
    method Finish(ghost sh: Shared)
      requires Is(sh)
      modifies this
      ensures Is(Renewed(sh)) && fresh(stopCh) && fresh(stoppedCh)
    {
      started := false;
      stopCh := new Channel();
      stoppedCh := new Channel();
    }
  }

  // ---------------------------------------------------------------- the interleaved machine

  predicate HoldsLock(pc: Pc) {
    pc.Watching? || pc.Starting? || pc.Closing? || pc.Signalling? || pc.Finishing? || pc.Renewing?
  }

  predicate Closer(pc: Pc) {
    pc.Waiting? || pc.Woken? || pc.Finishing? || pc.Renewing?
  }

  function Go(s: State, t: nat, pc: Pc, holder: Holder): State {
    s.(threads := s.threads[t := pc], holder := holder)
  }

  function ThreadStep(s: State, a: Action, t: nat): Option<State>
    requires t in s.threads
  {
    var pc := s.threads[t];
    match a
    case WatchLock(_) =>
      if pc.Idle? && s.holder.Free? then Some(Go(s, t, Watching, ByThread(t))) else None
    case WatchCheck(_) =>
      if !pc.Watching? then None
      else if s.shared.started then Some(Go(s, t, Idle, Free))
      else Some(Go(s, t, Starting, s.holder))
    case WatchSet(_) =>
      if pc.Starting? then Some(Go(s, t, Launching, Free).(shared := StartOnce(s.shared))) else None
    case Launch(_, p) =>
      if pc.Launching? && p !in s.pollers then Some(Go(s, t, Idle, s.holder).(pollers := s.pollers[p := New])) else None
    case Bail(_) =>
      if pc.Launching? && s.kubeconfig then Some(Go(s, t, Idle, s.holder).(bailed := true)) else None
    case CloseLock(_) =>
      if pc.Idle? && s.holder.Free? then Some(Go(s, t, Closing, ByThread(t))) else None
    case CloseCheck(_) =>
      if !pc.Closing? then None
      else if !MustSignal(s.shared) then Some(Go(s, t, Idle, Free))
      else Some(Go(s, t, Signalling, s.holder))
    case CloseSignal(_) =>
      if pc.Signalling? then Some(Go(s, t, Waiting(|s.shared.past|), Free).(shared := Signalled(s.shared))) else None
    case Receive(_) =>
      if pc.Waiting? && s.shared.current.stopped > 0 then Some(Go(s, t, Woken(pc.generation), s.holder)) else None
    case Relock(_) =>
      if pc.Woken? && s.holder.Free? then Some(Go(s, t, Finishing(pc.generation), ByThread(t))) else None
    case ClearStarted(_) =>
      if pc.Finishing? then Some(Go(s, t, Renewing(pc.generation), s.holder).(shared := s.shared.(started := false)))
      else None
    case Renew(_) =>
      if pc.Renewing? then Some(Go(s, t, Idle, Free).(shared := Renewed(s.shared), bailed := false)) else None
    case _ => None
  }

  function PollerStep(s: State, a: Action, p: nat): Option<State>
    requires p in s.pollers
  {
    var pc := s.pollers[p];
    match a
    case Begin(_) =>
      if pc.New? then Some(s.(pollers := s.pollers[p := Selecting(|s.shared.past|)])) else None
    case Tick(_) =>
      if pc.Selecting? then Some(s.(pollers := s.pollers[p := Wanting(pc.generation)])) else None
    case PollLock(_) =>
      if pc.Wanting? && s.holder.Free? then
        Some(s.(pollers := s.pollers[p := Polling(pc.generation)], holder := ByPoller(p)))
      else None
    case PollDone(_) =>
      if pc.Polling? then Some(s.(pollers := s.pollers[p := Selecting(pc.generation)], holder := Free)) else None
    case Stop(_) =>
      if pc.Selecting? && s.shared.current.stop > 0 then
        Some(s.(pollers := s.pollers - {p}, shared := Stopped(s.shared, pc.generation)))
      else None
    case Quit(_) =>
      if pc.Selecting? && s.kubeconfig then
        Some(s.(pollers := s.pollers - {p}, shared := Stopped(s.shared, pc.generation)))
      else None
    case _ => None
  }

  function CallbackStep(s: State, a: Action): Option<State> {
    match a
    case Fire(c) =>
      if c !in s.callbacks then Some(s.(callbacks := s.callbacks[c := false])) else None
    case CallbackLock(c) =>
      if c in s.callbacks && !s.callbacks[c] && s.holder.Free? then
        Some(s.(callbacks := s.callbacks[c := true], holder := ByCallback(c)))
      else None
    case CallbackDone(c) =>
      if c in s.callbacks && s.callbacks[c] then Some(s.(callbacks := s.callbacks - {c}, holder := Free)) else None
    case _ => None
  }

  predicate OfThread(a: Action) {
    a.WatchLock? || a.WatchCheck? || a.WatchSet? || a.Launch? || a.Bail? || a.CloseLock? || a.CloseCheck?
    || a.CloseSignal? || a.Receive? || a.Relock? || a.ClearStarted? || a.Renew?
  }

  predicate OfPoller(a: Action) {
    a.Begin? || a.Tick? || a.PollLock? || a.PollDone? || a.Stop? || a.Quit?
  }

  function Step(s: State, a: Action): Option<State> {
    if OfThread(a) then (if a.t in s.threads then ThreadStep(s, a, a.t) else None)
    else if OfPoller(a) then (if a.p in s.pollers then PollerStep(s, a, a.p) else None)
    else CallbackStep(s, a)
  }

  ghost function Run(s: State, actions: seq<Action>): Option<State> {
    Runs.Run(Step, s, actions)
  }

  /** A watcher as its constructor leaves it, and the threads that will use it. */
  function Created(kubeconfig: bool, ids: set<nat>): State {
    State(kubeconfig, Free, Shared(false, [], Channels(0, 0)), map t | t in ids :: Idle, map[], map[], false)
  }

  // ---------------------------------------------------------------- what every step keeps

  predicate LockHeld(s: State) {
    && (forall t :: t in s.threads ==> (HoldsLock(s.threads[t]) <==> s.holder == ByThread(t)))
    && (forall p :: p in s.pollers ==> (s.pollers[p].Polling? <==> s.holder == ByPoller(p)))
    && (forall c :: c in s.callbacks ==> (s.callbacks[c] <==> s.holder == ByCallback(c)))
    && (match s.holder
        case Free => true
        case ByThread(t) => t in s.threads
        case ByPoller(p) => p in s.pollers
        case ByCallback(c) => c in s.callbacks)
  }

  /** A goroutine runs, or is about to be launched. */
  ghost predicate Live(s: State) {
    (exists p :: p in s.pollers) || exists t :: t in s.threads && s.threads[t].Launching?
  }

  ghost predicate AtMostOneLive(s: State) {
    && (forall t, u :: t in s.threads && u in s.threads && s.threads[t].Launching? && s.threads[u].Launching? ==> t == u)
    && (forall p, q :: p in s.pollers && q in s.pollers ==> p == q)
    && (forall t, p :: t in s.threads && s.threads[t].Launching? ==> p !in s.pollers)
  }

  ghost predicate AtMostOneCloser(s: State) {
    CloserUnique(s) && CloserExists(s)
  }

  ghost predicate CloserExists(s: State) {
    s.shared.current.stop > 0 ==> exists t :: t in s.threads && Closer(s.threads[t])
  }

  ghost predicate CloserUnique(s: State) {
    && (forall t, u :: t in s.threads && u in s.threads && Closer(s.threads[t]) && Closer(s.threads[u]) ==> t == u)
    && (forall t :: t in s.threads && Closer(s.threads[t]) ==>
          && s.threads[t].generation == |s.shared.past| && s.shared.current.stop == 1
          && (s.threads[t].Waiting? || s.shared.current.stopped == 1)
          && (s.shared.started <==> !s.threads[t].Renewing?))
  }

  /** What a thread has seen under mu is still so when it acts on it. */
  predicate SeenHolds(s: State) {
    && (forall t :: t in s.threads && s.threads[t].Starting? ==> !s.shared.started)
    && (forall t :: t in s.threads && s.threads[t].Signalling? ==> MustSignal(s.shared))
  }

  ghost predicate ChannelsInStep(s: State) {
    && (forall i :: 0 <= i < |s.shared.past| ==> s.shared.past[i] == Channels(1, 1))
    && s.shared.current.stop <= 1 && s.shared.current.stopped <= 1
    && (forall p :: p in s.pollers && !s.pollers[p].New? ==> s.pollers[p].generation == |s.shared.past|)
    && (Live(s) <==> s.shared.started && s.shared.current.stopped == 0 && !s.bailed)
    && (s.bailed ==> s.shared.started && s.shared.current.stopped == 0)
    && (!s.shared.started && s.shared.current.stop == 0 ==> s.shared.current.stopped == 0)
  }

  ghost predicate Inv(s: State) {
    LockHeld(s) && SeenHolds(s) && AtMostOneLive(s) && AtMostOneCloser(s) && ChannelsInStep(s)
  }

  /** A thread's step takes mu when it is free, lets go of it, or leaves it alone. */
  predicate LockMove(s: State, next: State, t: nat) {
    && t in s.threads && t in next.threads && next.threads == s.threads[t := next.threads[t]]
    && var held, holds := HoldsLock(s.threads[t]), HoldsLock(next.threads[t]);
       || (held == holds && next.holder == s.holder)
       || (held && !holds && next.holder == Free)
       || (!held && holds && s.holder == Free && next.holder == ByThread(t))
  }

  lemma ThreadMovesLock(s: State, a: Action)
    requires OfThread(a) && Step(s, a).Some?
    ensures LockMove(s, Step(s, a).value, a.t)
  {
  }

  lemma ThreadKeepsLock(s: State, a: Action)
    requires LockHeld(s) && OfThread(a) && Step(s, a).Some?
    ensures LockHeld(Step(s, a).value)
  {
    ThreadMovesLock(s, a);
    LockMoveKeepsLock(s, Step(s, a).value, a.t);
  }

  lemma LockMoveKeepsLock(s: State, next: State, t: nat)
    requires LockHeld(s) && LockMove(s, next, t) && next.callbacks == s.callbacks
    requires next.pollers == s.pollers || exists p: nat :: p !in s.pollers && next.pollers == s.pollers[p := New]
    ensures LockHeld(next)
  {
  }

  lemma PollerKeepsLock(s: State, a: Action)
    requires LockHeld(s) && OfPoller(a) && Step(s, a).Some?
    ensures LockHeld(Step(s, a).value)
  {
  }

  lemma CallbackKeepsLock(s: State, a: Action)
    requires LockHeld(s) && !OfThread(a) && !OfPoller(a) && Step(s, a).Some?
    ensures LockHeld(Step(s, a).value)
  {
  }

  /** Whatever started and stopCh say, only the thread that holds mu changes it. */
  lemma LockExcludes(s: State, a: Action, t: nat)
    requires LockHeld(s) && Step(s, a).Some? && t in s.threads && HoldsLock(s.threads[t])
    requires OfThread(a) ==> a.t != t
    ensures var next := Step(s, a).value;
            && t in next.threads && next.threads[t] == s.threads[t]
            && next.shared.started == s.shared.started && next.shared.current.stop == s.shared.current.stop
  {
    assert s.holder == ByThread(t);
  }

  lemma StepKeepsSeen(s: State, a: Action)
    requires LockHeld(s) && SeenHolds(s) && Step(s, a).Some?
    ensures SeenHolds(Step(s, a).value)
  {
    var next := Step(s, a).value;
    forall t | t in next.threads && (next.threads[t].Starting? || next.threads[t].Signalling?)
      ensures next.threads[t].Starting? ==> !next.shared.started
      ensures next.threads[t].Signalling? ==> MustSignal(next.shared)
    {
      if !OfThread(a) || a.t != t {
        LockExcludes(s, a, t);
      }
    }
  }

  /** Whoever is about to set started finds nobody closing and nothing running. */
  lemma StartsAlone(s: State, t: nat)
    requires Inv(s) && t in s.threads && s.threads[t].Starting?
    ensures s.shared.current == Channels(0, 0) && !Live(s)
    ensures forall u :: u in s.threads ==> !Closer(s.threads[u])
  {
    forall u | u in s.threads ensures !Closer(s.threads[u]) {
      assert HoldsLock(s.threads[u]) ==> u == t;
    }
  }

  /** A thread's step leaves the goroutines alone, prepares one where there is none, or launches or drops the one prepared. */
  ghost predicate LiveMove(s: State, next: State, t: nat) {
    && t in s.threads && t in next.threads && next.threads == s.threads[t := next.threads[t]]
    && var was, now := s.threads[t].Launching?, next.threads[t].Launching?;
       || (next.pollers == s.pollers && now == was)
       || (next.pollers == s.pollers && !was && now && !Live(s))
       || (was && !now && (next.pollers == s.pollers || exists p: nat :: p !in s.pollers && next.pollers == s.pollers[p := New]))
  }

  lemma ThreadMovesLive(s: State, a: Action)
    requires Inv(s) && OfThread(a) && Step(s, a).Some?
    ensures LiveMove(s, Step(s, a).value, a.t)
  {
    if a.WatchSet? {
      StartsAlone(s, a.t);
    }
  }

  lemma LiveMoveKeepsOne(s: State, next: State, t: nat)
    requires AtMostOneLive(s) && LiveMove(s, next, t)
    ensures AtMostOneLive(next)
  {
    if s.threads[t].Launching? {
      LaunchingAlone(s, t);
    }
  }

  lemma LaunchingAlone(s: State, t: nat)
    requires AtMostOneLive(s) && t in s.threads && s.threads[t].Launching?
    ensures s.pollers == map[] && Live(s)
    ensures forall u :: u in s.threads && u != t ==> !s.threads[u].Launching?
  {
    assert s.pollers.Keys == {};
  }

  /** What is live afterwards, told by the thread and the goroutines alone. */
  lemma LiveAfter(s: State, next: State, t: nat)
    requires AtMostOneLive(s) && LiveMove(s, next, t)
    ensures Live(next) <==> if s.threads[t].Launching? && !next.threads[t].Launching? then next.pollers != s.pollers
                            else next.threads[t].Launching? || Live(s)
  {
    if s.threads[t].Launching? {
      LaunchingAlone(s, t);
      if p: nat :| p !in s.pollers && next.pollers == s.pollers[p := New] {
        assert p in next.pollers;
      }
    } else if next.threads[t].Launching? {
      assert Live(next);
    } else {
      assert forall u :: u in s.threads && s.threads[u].Launching? <==> u in next.threads && next.threads[u].Launching?;
    }
  }

  lemma ThreadKeepsLive(s: State, a: Action)
    requires Inv(s) && OfThread(a) && Step(s, a).Some?
    ensures AtMostOneLive(Step(s, a).value)
  {
    ThreadMovesLive(s, a);
    LiveMoveKeepsOne(s, Step(s, a).value, a.t);
  }

  lemma ThreadKeepsCloserUnique(s: State, a: Action)
    requires Inv(s) && OfThread(a) && Step(s, a).Some?
    ensures CloserUnique(Step(s, a).value)
  {
    ThreadMovesCloser(s, a);
    CloserMoveKeepsUnique(s, Step(s, a).value, a.t);
  }

  /** A thread's step makes it the closer when nobody is, moves it on as the closer, or leaves that alone. */
  ghost predicate CloserMove(s: State, next: State, t: nat) {
    && t in s.threads && t in next.threads && next.threads == s.threads[t := next.threads[t]]
    && var was, now := s.threads[t], next.threads[t];
       || (!Closer(was) && !Closer(now) && next.shared.past == s.shared.past && next.shared.current == s.shared.current
           && (next.shared.started == s.shared.started || forall u :: u in s.threads ==> !Closer(s.threads[u])))
       || (!Closer(was) && now == Waiting(|s.shared.past|) && MustSignal(s.shared) && next.shared == Signalled(s.shared))
       || (Closer(was) && Closer(now) && now.generation == was.generation
           && next.shared.past == s.shared.past && next.shared.current == s.shared.current
           && (now.Waiting? || s.shared.current.stopped == 1) && (next.shared.started <==> !now.Renewing?))
       || (Closer(was) && !Closer(now))
  }

  lemma ThreadMovesCloser(s: State, a: Action)
    requires Inv(s) && OfThread(a) && Step(s, a).Some?
    ensures CloserMove(s, Step(s, a).value, a.t)
  {
    if s.threads[a.t].Starting? {
      StartsAlone(s, a.t);
    }
  }

  lemma CloserMoveKeepsUnique(s: State, next: State, t: nat)
    requires AtMostOneCloser(s) && CloserMove(s, next, t)
    ensures CloserUnique(next)
  {
    assert MustSignal(s.shared) ==> forall u :: u in s.threads ==> !Closer(s.threads[u]);
  }

  lemma ThreadKeepsCloserExists(s: State, a: Action)
    requires Inv(s) && OfThread(a) && Step(s, a).Some?
    ensures CloserExists(Step(s, a).value)
  {
    var next := Step(s, a).value;
    assert next.threads[a.t].Waiting? ==> Closer(next.threads[a.t]);
    if s.shared.current.stop > 0 {
      var t :| t in s.threads && Closer(s.threads[t]);
      assert t != a.t || !a.Renew? ==> t in next.threads && Closer(next.threads[t]);
    }
  }

  lemma ThreadKeepsChannels(s: State, a: Action)
    requires Inv(s) && OfThread(a) && Step(s, a).Some?
    ensures ChannelsInStep(Step(s, a).value)
  {
    ThreadMovesLive(s, a);
    LiveAfter(s, Step(s, a).value, a.t);
    if s.threads[a.t].Launching? {
      LaunchingAlone(s, a.t);
    } else if s.threads[a.t].Starting? {
      StartsAlone(s, a.t);
    } else if s.threads[a.t].Renewing? {
      assert Closer(s.threads[a.t]);
    }
  }

  lemma PollerKeepsLiveAndCloser(s: State, a: Action)
    requires Inv(s) && OfPoller(a) && Step(s, a).Some?
    ensures AtMostOneLive(Step(s, a).value)
    ensures AtMostOneCloser(Step(s, a).value)
  {
    assert a.p in s.pollers;
  }

  lemma PollerKeepsChannels(s: State, a: Action)
    requires Inv(s) && OfPoller(a) && Step(s, a).Some?
    ensures ChannelsInStep(Step(s, a).value)
  {
    var next := Step(s, a).value;
    assert a.p in s.pollers;
    assert a.Stop? || a.Quit? || a.p in next.pollers;
    assert forall t :: t in next.threads && next.threads[t].Launching? ==> t in s.threads && s.threads[t].Launching?;
  }

  lemma {:induction false} StepKeepsInv(s: State, a: Action)
    requires Inv(s) && Step(s, a).Some?
    ensures Inv(Step(s, a).value)
  {
    StepKeepsSeen(s, a);
    if OfThread(a) {
      ThreadKeepsLock(s, a);
      ThreadKeepsLive(s, a);
      ThreadKeepsCloserUnique(s, a);
      ThreadKeepsCloserExists(s, a);
      ThreadKeepsChannels(s, a);
    } else if OfPoller(a) {
      PollerKeepsLock(s, a);
      PollerKeepsLiveAndCloser(s, a);
      PollerKeepsChannels(s, a);
    } else {
      CallbackKeepsLock(s, a);
      CallbackKeepsRest(s, a);
    }
  }

  lemma CallbackKeepsRest(s: State, a: Action)
    requires Inv(s) && !OfThread(a) && !OfPoller(a) && Step(s, a).Some?
    ensures var next := Step(s, a).value; AtMostOneLive(next) && AtMostOneCloser(next) && ChannelsInStep(next)
  {
    var next := Step(s, a).value;
    assert next.threads == s.threads && next.pollers == s.pollers && next.shared == s.shared && next.bailed == s.bailed;
    assert Live(next) <==> Live(s);
  }

  lemma CreatedIsInv(kubeconfig: bool, ids: set<nat>)
    ensures Inv(Created(kubeconfig, ids))
  {
  }

  lemma {:induction false} RunKeepsInv(s: State, actions: seq<Action>)
    requires Inv(s) && Run(s, actions).Some?
    ensures Inv(Run(s, actions).value)
  {
    if actions != [] {
      RunKeepsInv(s, actions[..|actions| - 1]);
      StepKeepsInv(Run(s, actions[..|actions| - 1]).value, actions[|actions| - 1]);
    }
  }

  // ---------------------------------------------------------------- safety

  predicate ClosedAtMostOnce(c: Channels) {
    c.stop <= 1 && c.stopped <= 1
  }

  /**
   However many Watch and Close calls, polls and callbacks interleave: at most one goroutine
   runs or is about to be launched, and no channel of any generation is closed twice.
   */
  lemma LifecycleIsSafe(kubeconfig: bool, ids: set<nat>, actions: seq<Action>)
    requires Run(Created(kubeconfig, ids), actions).Some?
    ensures var s := Run(Created(kubeconfig, ids), actions).value;
            && (forall p, q :: p in s.pollers && q in s.pollers ==> p == q)
            && (forall t, p :: t in s.threads && s.threads[t].Launching? ==> p !in s.pollers)
            && (forall t, u :: t in s.threads && u in s.threads && s.threads[t].Launching? && s.threads[u].Launching? ==> t == u)
            && ClosedAtMostOnce(s.shared.current)
            && (forall i :: 0 <= i < |s.shared.past| ==> ClosedAtMostOnce(s.shared.past[i]))
  {
    CreatedIsInv(kubeconfig, ids);
    RunKeepsInv(Created(kubeconfig, ids), actions);
  }

  /**
   The Close that signalled returns only after the goroutine it stopped has ended: when it lets
   go of mu for the last time nothing runs, both channels of its generation have been closed
   once, and the watcher is as a new one. A Close that does not signal finds the watcher not
   started, or another Close at work.
   */
  lemma CloseEndsTheGoroutine(s: State, t: nat)
    requires Inv(s) && t in s.threads
    ensures Step(s, Renew(t)).Some? ==>
              var next := Step(s, Renew(t)).value;
              && !Live(s) && !Live(next) && next.pollers == map[]
              && next.shared == Shared(false, s.shared.past + [Channels(1, 1)], Channels(0, 0)) && !next.bailed
    ensures Step(s, CloseCheck(t)).Some? ==>
              (Step(s, CloseCheck(t)).value.threads[t] == Idle <==>
                 !s.shared.started || exists u :: u in s.threads && u != t && Closer(s.threads[u]))
  {
    if Step(s, Renew(t)).Some? {
      assert Closer(s.threads[t]);
      var next := Step(s, Renew(t)).value;
      assert next.pollers == s.pollers;
      assert forall u :: u in next.threads && next.threads[u].Launching? ==> u in s.threads && s.threads[u].Launching?;
    }
    if Step(s, CloseCheck(t)).Some? && s.shared.started {
      if s.shared.current.stop > 0 {
        var u :| u in s.threads && Closer(s.threads[u]);
        assert u != t;
      }
    }
  }

  // ---------------------------------------------------------------- schedules

  /** Taking one more step of a schedule that reaches `reached`. */
  lemma Then(s: State, acts: seq<Action>, reached: State, a: Action) returns (longer: seq<Action>)
    requires Run(s, acts) == Some(reached) && Step(reached, a).Some? && !NewCall(a) && NoNewCalls(acts)
    ensures Run(s, longer) == Step(reached, a) && NoNewCalls(longer)
  {
    Runs.Next(Step, s, acts, reached, a);
    longer := acts + [a];
  }

  /** Nothing new begins: no further Watch or Close call, tick, or timer. */
  predicate NewCall(a: Action) {
    a.WatchLock? || a.CloseLock? || a.Fire? || a.Tick?
  }

  predicate NoNewCalls(actions: seq<Action>) {
    forall i :: 0 <= i < |actions| ==> !NewCall(actions[i])
  }

  /** Another thread that holds mu goes on to the end of its critical section. */
  lemma ThreadLetsGo(s: State, t: nat, u: nat) returns (acts: seq<Action>, now: State)
    requires Inv(s) && t in s.threads && s.threads[t].Waiting? && s.holder == ByThread(u)
    ensures NoNewCalls(acts) && Run(s, acts) == Some(now) && Inv(now) && now.holder == Free && now.bailed == s.bailed
    ensures t in now.threads && now.threads[t] == s.threads[t]
  {
    acts, now := [], s;
    assert Closer(s.threads[t]) && !Closer(s.threads[u]) && !s.threads[u].Starting?;
    if s.threads[u].Watching? {
      acts, now := Advance(s, acts, now, WatchCheck(u), t);
    } else {
      if s.threads[u].Closing? {
        acts, now := Advance(s, acts, now, CloseCheck(u), t);
      }
      if now.holder != Free {
        acts, now := Advance(s, acts, now, CloseSignal(u), t);
      }
    }
  }

  /** Whoever holds mu can let go of it. */
  lemma LetGo(s: State, t: nat) returns (acts: seq<Action>, now: State)
    requires Inv(s) && t in s.threads && s.threads[t].Waiting?
    ensures NoNewCalls(acts) && Run(s, acts) == Some(now) && Inv(now) && now.holder == Free && now.bailed == s.bailed
    ensures t in now.threads && now.threads[t] == s.threads[t]
  {
    acts, now := [], s;
    match s.holder
    case Free =>
    case ByThread(u) => acts, now := ThreadLetsGo(s, t, u);
    case ByPoller(p) => acts, now := Advance(s, acts, now, PollDone(p), t);
    case ByCallback(c) => acts, now := Advance(s, acts, now, CallbackDone(c), t);
  }

  /** A goroutine that is about to be launched can be. */
  lemma Launched(s: State, t: nat) returns (acts: seq<Action>, now: State, p: nat)
    requires Inv(s) && t in s.threads && s.threads[t].Waiting? && s.holder == Free && Live(s)
    ensures NoNewCalls(acts) && Run(s, acts) == Some(now) && Inv(now) && now.holder == Free && p in now.pollers
    ensures t in now.threads && now.threads[t] == s.threads[t]
  {
    acts, now, p := [], s, 0;
    if q :| q in s.pollers {
      p := q;
    } else {
      var u :| u in s.threads && s.threads[u].Launching?;
      acts, now := Advance(s, acts, now, Launch(u, p), t);
    }
  }

  /** A poll that wants mu takes it and lets go of it again. */
  lemma PollsOnce(s: State, t: nat, p: nat) returns (acts: seq<Action>, now: State)
    requires Inv(s) && t in s.threads && s.threads[t].Waiting? && s.holder == Free && p in s.pollers && s.pollers[p].Wanting?
    ensures NoNewCalls(acts) && Run(s, acts) == Some(now) && Inv(now) && now.holder == Free
    ensures p in now.pollers && now.pollers[p].Selecting?
    ensures t in now.threads && now.threads[t] == s.threads[t]
  {
    var polling: State;
    acts, polling := Advance(s, [], s, PollLock(p), t);
    acts, now := Advance(s, acts, polling, PollDone(p), t);
  }

  /** A goroutine that polls, or is about to, comes back to its select. */
  lemma BackToSelect(s: State, t: nat, p: nat) returns (acts: seq<Action>, now: State)
    requires Inv(s) && t in s.threads && s.threads[t].Waiting? && s.holder == Free && p in s.pollers
    ensures NoNewCalls(acts) && Run(s, acts) == Some(now) && Inv(now) && now.holder == Free
    ensures p in now.pollers && now.pollers[p].Selecting?
    ensures t in now.threads && now.threads[t] == s.threads[t]
  {
    acts, now := [], s;
    if s.pollers[p].New? {
      acts, now := Advance(s, acts, now, Begin(p), t);
    } else if s.pollers[p].Wanting? {
      acts, now := PollsOnce(s, t, p);
    }
  }

  /** With mu free, a goroutine that has been told to stop ends. */
  lemma Drain(s: State, t: nat) returns (acts: seq<Action>)
    requires Inv(s) && t in s.threads && s.threads[t].Waiting? && s.holder == Free && !s.bailed
    ensures NoNewCalls(acts) && Run(s, acts).Some?
    ensures var next := Run(s, acts).value;
            && Inv(next) && next.holder == Free && t in next.threads && next.threads[t] == s.threads[t]
            && next.shared.current.stopped == 1
  {
    acts := [];
    if s.shared.current.stopped == 0 {
      var launch, s1, p := Launched(s, t);
      var back, s2 := BackToSelect(s1, t, p);
      Runs.Append(Step, s, launch, back);
      var s3: State;
      assert Closer(s2.threads[t]);
      acts, s3 := Advance(s, launch + back, s2, Stop(p), t);
    }
  }

  /** One step of somebody else in a schedule for t. */
  lemma Advance(s: State, acts: seq<Action>, now: State, a: Action, t: nat) returns (longer: seq<Action>, next: State)
    requires Inv(s) && Run(s, acts) == Some(now) && Inv(now) && NoNewCalls(acts) && !NewCall(a)
    requires t in now.threads && now.threads[t].Waiting? && Step(now, a).Some?
    requires OfThread(a) ==> a.t != t
    ensures NoNewCalls(longer) && Run(s, longer) == Some(next) && Some(next) == Step(now, a) && Inv(next)
    ensures t in next.threads && next.threads[t] == now.threads[t]
  {
    longer := Then(s, acts, now, a);
    next := Step(now, a).value;
    StepKeepsInv(now, a);
  }

  /** With mu free and stoppedCh closed, a waiting Close returns by itself. */
  lemma WakeAndReset(s: State, acts: seq<Action>, now: State, t: nat) returns (longer: seq<Action>)
    requires Run(s, acts) == Some(now) && NoNewCalls(acts)
    requires t in now.threads && now.threads[t].Waiting? && now.holder == Free && now.shared.current.stopped == 1
    ensures NoNewCalls(longer) && Run(s, longer).Some?
    ensures t in Run(s, longer).value.threads && Run(s, longer).value.threads[t] == Idle
    ensures !Run(s, longer).value.shared.started
  {
    longer := Then(s, acts, now, Receive(t));
    var g := now.threads[t].generation;
    var woken := Go(now, t, Woken(g), Free);
    longer := Then(s, longer, woken, Relock(t));
    var finishing := Go(woken, t, Finishing(g), ByThread(t));
    longer := Then(s, longer, finishing, ClearStarted(t));
    var renewing := Go(finishing, t, Renewing(g), ByThread(t)).(shared := now.shared.(started := false));
    longer := Then(s, longer, renewing, Renew(t));
    assert Run(s, longer) == Some(Go(renewing, t, Idle, Free).(shared := Renewed(renewing.shared), bailed := false));
  }

  /**
   Close cannot deadlock: from every state it can be waiting in, the calls, goroutine and
   callbacks already under way can be scheduled so that it returns, unless Watch had returned
   without launching a goroutine.
   */
  lemma WaitingCloseReturns(s: State, t: nat) returns (acts: seq<Action>)
    requires Inv(s) && t in s.threads && s.threads[t].Waiting? && !s.bailed
    ensures NoNewCalls(acts) && Run(s, acts).Some?
    ensures t in Run(s, acts).value.threads && Run(s, acts).value.threads[t] == Idle
    ensures !Run(s, acts).value.shared.started
  {
    var first, s1 := LetGo(s, t);
    var second := Drain(s1, t);
    var s2 := Run(s1, second).value;
    Runs.Append(Step, s, first, second);
    acts := WakeAndReset(s, first + second, s2, t);
  }

  predicate Stuck(s: State, t: nat) {
    t in s.threads && s.threads[t].Waiting? && s.bailed
  }

  lemma StaysStuck(s: State, t: nat, a: Action)
    requires Inv(s) && Stuck(s, t) && Step(s, a).Some?
    ensures Stuck(Step(s, a).value, t)
  {
    assert Closer(s.threads[t]) && s.shared.current.stopped == 0;
  }

  /** Once Watch has returned without a goroutine, nothing ever closes stoppedCh. */
  lemma {:induction false} StuckForGood(s: State, t: nat, actions: seq<Action>)
    requires Inv(s) && Stuck(s, t) && Run(s, actions).Some?
    ensures Stuck(Run(s, actions).value, t)
  {
    if actions != [] {
      var n := |actions| - 1;
      StuckForGood(s, t, actions[..n]);
      RunKeepsInv(s, actions[..n]);
      StaysStuck(Run(s, actions[..n]).value, t, actions[n]);
    }
  }

  /**
   Exactly when a waiting Close can still return: a goroutine was launched. Only Kubeconfig's
   Watch can miss that, by returning early after it has set started.
   */
  lemma CloseReturnsExactlyWhen(kubeconfig: bool, ids: set<nat>, actions: seq<Action>, t: nat)
    requires Run(Created(kubeconfig, ids), actions).Some?
    requires var s := Run(Created(kubeconfig, ids), actions).value;
             t in s.threads && s.threads[t].Waiting?
    ensures var s := Run(Created(kubeconfig, ids), actions).value;
            && (CanReturn(s, t) <==> !s.bailed)
            && (!kubeconfig ==> !s.bailed)
  {
    CreatedIsInv(kubeconfig, ids);
    RunKeepsInv(Created(kubeconfig, ids), actions);
    OnlyKubeconfigBails(Created(kubeconfig, ids), actions);
    var s := Run(Created(kubeconfig, ids), actions).value;
    if s.bailed {
      forall more | Run(s, more).Some?
        ensures t in Run(s, more).value.threads && Run(s, more).value.threads[t] != Idle
      {
        StuckForGood(s, t, more);
      }
    } else {
      var more := WaitingCloseReturns(s, t);
      assert Returns(s, more, t);
    }
  }

  ghost predicate Returns(s: State, actions: seq<Action>, t: nat) {
    && Run(s, actions).Some?
    && t in Run(s, actions).value.threads && Run(s, actions).value.threads[t] == Idle
  }

  ghost predicate CanReturn(s: State, t: nat) {
    exists actions :: Returns(s, actions, t)
  }

  lemma StepBails(s: State, a: Action)
    requires Step(s, a).Some?
    ensures Step(s, a).value.kubeconfig == s.kubeconfig
    ensures Step(s, a).value.bailed ==> s.bailed || s.kubeconfig
  {
  }

  lemma {:induction false} OnlyKubeconfigBails(s: State, actions: seq<Action>)
    requires Run(s, actions).Some? && !s.bailed
    ensures Run(s, actions).value.kubeconfig == s.kubeconfig
    ensures !s.kubeconfig ==> !Run(s, actions).value.bailed
  {
    if actions != [] {
      var n := |actions| - 1;
      OnlyKubeconfigBails(s, actions[..n]);
      StepBails(Run(s, actions[..n]).value, actions[n]);
    }
  }

  /** Watch, up to the go statement, by a thread that finds the watcher not started. */
  lemma SetsStarted(s: State, t: nat) returns (acts: seq<Action>)
    requires s.holder == Free && !s.shared.started && t in s.threads && s.threads[t] == Idle
    ensures Run(s, acts) == Some(Go(s, t, Launching, Free).(shared := StartOnce(s.shared)))
  {
    var s1 := Go(s, t, Watching, ByThread(t));
    acts := Next(s, [], s, WatchLock(t), s1);
    var seen := Go(s, t, Starting, ByThread(t));
    assert s.threads[t := Watching][t := Starting] == s.threads[t := Starting];
    acts := Next(s, acts, s1, WatchCheck(t), seen);
    assert s.threads[t := Starting][t := Launching] == s.threads[t := Launching];
    acts := Next(s, acts, seen, WatchSet(t), Go(s, t, Launching, Free).(shared := StartOnce(s.shared)));
  }

  /** Watch works after Close as it does on a new watcher. */
  lemma WatchStartsAgain(s: State, t: nat, p: nat) returns (acts: seq<Action>)
    requires Inv(s) && s.holder == Free && !s.shared.started && t in s.threads && s.threads[t] == Idle
    ensures Run(s, acts) == Some(s.(shared := StartOnce(s.shared), pollers := map[p := Selecting(|s.shared.past|)]))
  {
    NothingRuns(s);
    acts := SetsStarted(s, t);
    acts := LaunchesPoller(s, acts, t, p);
  }

  lemma NothingRuns(s: State)
    requires Inv(s) && !s.shared.started
    ensures s.pollers == map[]
  {
    assert forall p :: p in s.pollers ==> Live(s);
  }

  lemma LaunchesPoller(s: State, acts: seq<Action>, t: nat, p: nat) returns (longer: seq<Action>)
    requires s.pollers == map[] && s.holder == Free && t in s.threads && s.threads[t] == Idle
    requires Run(s, acts) == Some(Go(s, t, Launching, Free).(shared := StartOnce(s.shared)))
    ensures Run(s, longer) == Some(s.(shared := StartOnce(s.shared), pollers := map[p := Selecting(|s.shared.past|)]))
  {
    var launching := Go(s, t, Launching, Free).(shared := StartOnce(s.shared));
    var launched := s.(shared := StartOnce(s.shared), pollers := map[p := New]);
    assert s.threads[t := Launching][t := Idle] == s.threads;
    longer := Next(s, acts, launching, Launch(t, p), launched);
    assert launched.pollers[p := Selecting(|s.shared.past|)] == map[p := Selecting(|s.shared.past|)];
    longer := Next(s, longer, launched, Begin(p), launched.(pollers := map[p := Selecting(|s.shared.past|)]));
  }

  lemma Next(s: State, acts: seq<Action>, now: State, a: Action, next: State) returns (longer: seq<Action>)
    requires Run(s, acts) == Some(now) && Step(now, a) == Some(next)
    ensures Run(s, longer) == Some(next) && longer == acts + [a]
  {
    Runs.Next(Step, s, acts, now, a);
    longer := acts + [a];
  }

  /** How a Kubeconfig watcher gets stuck: Watch finds nothing to watch, and then Close waits for a goroutine that never was. */
  lemma KubeconfigGetsStuck(ids: set<nat>, t: nat) returns (acts: seq<Action>, s: State)
    requires t in ids
    ensures Run(Created(true, ids), acts) == Some(s) && Stuck(s, t) && !CanReturn(s, t)
  {
    var start := Created(true, ids);
    CreatedIsInv(true, ids);
    acts := SetsStarted(start, t);
    var launching := Go(start, t, Launching, Free).(shared := StartOnce(start.shared));
    var bailed := Go(launching, t, Idle, Free).(bailed := true);
    acts := Next(start, acts, launching, Bail(t), bailed);
    acts, s := ClosesInVain(start, acts, bailed, t);
    CloseReturnsExactlyWhen(true, ids, acts, t);
  }

  /** A Close that finds mu free and the watcher started signals, and then waits. */
  lemma ClosesInVain(start: State, acts: seq<Action>, now: State, t: nat) returns (longer: seq<Action>, s: State)
    requires Run(start, acts) == Some(now) && now.holder == Free && MustSignal(now.shared) && t in now.threads && now.threads[t] == Idle
    ensures Run(start, longer) == Some(s) && t in s.threads && s.threads[t].Waiting? && s.bailed == now.bailed
  {
    var closing := Go(now, t, Closing, ByThread(t));
    longer := Next(start, acts, now, CloseLock(t), closing);
    var signalling := Go(closing, t, Signalling, ByThread(t));
    longer := Next(start, longer, closing, CloseCheck(t), signalling);
    s := Go(signalling, t, Waiting(|now.shared.past|), Free).(shared := Signalled(now.shared));
    longer := Next(start, longer, signalling, CloseSignal(t), s);
  }

  // ---------------------------------------------------------------- what runs in between

  /** The goroutine ends only when it has been told to, unless it is Kubeconfig's. */
  predicate EndsWhenTold(s: State) {
    !s.kubeconfig && s.shared.current.stopped > 0 ==> s.shared.current.stop > 0
  }

  lemma StepEndsWhenTold(s: State, a: Action)
    requires Inv(s) && EndsWhenTold(s) && Step(s, a).Some?
    ensures EndsWhenTold(Step(s, a).value) && Step(s, a).value.kubeconfig == s.kubeconfig
  {
    if OfPoller(a) {
      assert a.p in s.pollers;
    }
  }

  lemma {:induction false} RunEndsWhenTold(s: State, actions: seq<Action>)
    requires Inv(s) && EndsWhenTold(s) && Run(s, actions).Some?
    ensures EndsWhenTold(Run(s, actions).value) && Run(s, actions).value.kubeconfig == s.kubeconfig
  {
    if actions != [] {
      var n := |actions| - 1;
      RunEndsWhenTold(s, actions[..n]);
      RunKeepsInv(s, actions[..n]);
      StepEndsWhenTold(Run(s, actions[..n]).value, actions[n]);
    }
  }

  /**
   From Watch to Close somebody is watching: in every run of a cluster or workspace watcher, while
   started is set and stopCh open, its goroutine runs or is about to be launched.
   */
  lemma RunsUntilTold(ids: set<nat>, actions: seq<Action>)
    requires Run(Created(false, ids), actions).Some?
    ensures var s := Run(Created(false, ids), actions).value; s.shared.started && s.shared.current.stop == 0 ==> Live(s)
  {
    CreatedIsInv(false, ids);
    RunKeepsInv(Created(false, ids), actions);
    RunEndsWhenTold(Created(false, ids), actions);
    OnlyKubeconfigBails(Created(false, ids), actions);
  }

  /** While mu is free the goroutine can always poll once more, told to stop or not. */
  lemma PollsAgain(s: State, p: nat) returns (acts: seq<Action>)
    requires s.holder == Free && p in s.pollers && s.pollers[p].Selecting?
    ensures Run(s, acts) == Some(s) && acts == [] + [Tick(p)] + [PollLock(p)] + [PollDone(p)]
  {
    var g := s.pollers[p].generation;
    var wanting := s.(pollers := s.pollers[p := Wanting(g)]);
    var polling := s.(pollers := s.pollers[p := Polling(g)], holder := ByPoller(p));
    assert wanting.pollers[p := Polling(g)] == polling.pollers && polling.pollers[p := Selecting(g)] == s.pollers;
    acts := Next(s, [], s, Tick(p), wanting);
    acts := Next(s, acts, wanting, PollLock(p), polling);
    acts := Next(s, acts, polling, PollDone(p), s);
  }

  /** And a debounce callback can come and go. */
  lemma CallbackRuns(s: State, c: nat) returns (acts: seq<Action>)
    requires s.holder == Free && c !in s.callbacks
    ensures Run(s, acts) == Some(s) && acts == [] + [Fire(c)] + [CallbackLock(c)] + [CallbackDone(c)]
  {
    var fired := s.(callbacks := s.callbacks[c := false]);
    var locked := s.(callbacks := s.callbacks[c := true], holder := ByCallback(c));
    assert fired.callbacks[c := true] == locked.callbacks && locked.callbacks - {c} == s.callbacks;
    acts := Next(s, [], s, Fire(c), fired);
    acts := Next(s, acts, fired, CallbackLock(c), locked);
    acts := Next(s, acts, locked, CallbackDone(c), s);
  }

  /** Started, not told to stop, and yet nothing runs: Kubeconfig's goroutine has ended by itself. */
  ghost predicate EndedByItself(s: State) {
    s.shared.started && s.shared.current == Channels(0, 1) && !Live(s)
  }

  lemma KubeconfigEndsByItself(s: State, p: nat)
    requires Inv(s) && s.kubeconfig && s.shared.current.stop == 0 && p in s.pollers && s.pollers[p].Selecting?
    ensures Step(s, Quit(p)).Some? && EndedByItself(Step(s, Quit(p)).value) && Inv(Step(s, Quit(p)).value)
  {
    StepKeepsInv(s, Quit(p));
    assert Live(s);
  }

  lemma StaysEnded(s: State, a: Action)
    requires Inv(s) && EndedByItself(s) && Step(s, a).Some? && !a.CloseSignal?
    ensures EndedByItself(Step(s, a).value)
  {
    StepKeepsInv(s, a);
    assert forall t :: t in s.threads ==> !Closer(s.threads[t]);
    assert forall p :: p !in s.pollers;
  }

  /** Then nothing is watched again before a Close, however often Watch is called. */
  lemma {:induction false} EndedUntilClosed(s: State, actions: seq<Action>)
    requires Inv(s) && EndedByItself(s) && Run(s, actions).Some?
    requires forall i :: 0 <= i < |actions| ==> !actions[i].CloseSignal?
    ensures EndedByItself(Run(s, actions).value)
  {
    if actions != [] {
      var n := |actions| - 1;
      EndedUntilClosed(s, actions[..n]);
      RunKeepsInv(s, actions[..n]);
      StaysEnded(Run(s, actions[..n]).value, actions[n]);
    }
  }
}
