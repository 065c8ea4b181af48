/**
 pkg/mcp/mcp.go: the reloads of many goroutines at once. Every access to shared state is a
 step of its own, any thread may take the next step, and reloadMu orders the calls.
 */
module ReloadProtocol {
  import opened Common
  import Runs
  import opened Configuration
  import opened ToolReload

  /** Where a thread is in ReloadConfiguration or reapplyToolsets. */
  datatype Phase =
    | Idle
    | Blocked(candidate: Option<StaticConfig>)
    | Holding(candidate: Option<StaticConfig>, cfg: StaticConfig)
    | Committing(call: Call, cfg: StaticConfig, batch: Surface<seq<Converted>>, previous: Surface<seq<string>>, next: nat)
    | Published(call: Call, cfg: StaticConfig, batch: Surface<seq<Converted>>)
    | Leaving(call: Call)

  /** `log` lists the calls in the order in which they released reloadMu, and `owners` the threads that made them. */
  datatype State = State(server: Server, reloadMu: Option<nat>, threads: map<nat, Phase>, log: seq<Call>, owners: seq<nat>)

  datatype Action =
    | BeginReload(t: nat, newConfig: StaticConfig)
    | BeginReapply(t: nat)
    | Lock(t: nat)
    | Convert(t: nat, clusters: Clusters)
    | CommitNext(t: nat)
    | Publish(t: nat)
    | Record(t: nat)
    | Unlock(t: nat)

  function Enter(s: State, t: nat, phase: Phase): State {
    s.(threads := s.threads[t := phase])
  }

  function CommitKind(registries: Surface<Registry>, previous: Surface<seq<string>>,
                      batch: Surface<seq<Converted>>, kind: nat): Surface<Registry>
  {
    match kind
    case 0 => registries.(tools := Committed(registries.tools, previous.tools, batch.tools))
    case 1 => registries.(prompts := Committed(registries.prompts, previous.prompts, batch.prompts))
    case 2 => registries.(resources := Committed(registries.resources, previous.resources, batch.resources))
    case _ => registries.(templates := Committed(registries.templates, previous.templates, batch.templates))
  }

  /** One step of one thread, or None where the thread cannot take it. */
  function Step(env: Env, s: State, a: Action): Option<State> {
    if a.t !in s.threads then None
    else
      var phase := s.threads[a.t];
      match a
      case BeginReload(t, newConfig) =>
        if phase != Idle then None
        else if env.validate(newConfig) then Some(Enter(s, t, Blocked(Some(newConfig))))
        else Some(s)
      case BeginReapply(t) =>
        if phase != Idle then None else Some(Enter(s, t, Blocked(None)))
      case Lock(t) =>
        if !phase.Blocked? || s.reloadMu.Some? then None
        else Some(Enter(s, t, Holding(phase.candidate, ChosenConfig(s.server, phase.candidate))).(reloadMu := Some(t)))
      case Convert(t, clusters) =>
        if !phase.Holding? then None
        else
          var call := Call(phase.candidate, clusters);
          var items := env.collect(phase.cfg, clusters);
          if AllConvertible(env, items) then
            Some(Enter(s, t, Committing(call, phase.cfg, Batch(env, items), s.server.enabled, 0)))
          else
            Some(Enter(s, t, Leaving(call)))
      case CommitNext(t) =>
        if !(phase.Committing? && phase.next < 4) then None
        else
          var registries := CommitKind(s.server.registries, phase.previous, phase.batch, phase.next);
          Some(Enter(s, t, phase.(next := phase.next + 1)).(server := s.server.(registries := registries)))
      case Publish(t) =>
        if !(phase.Committing? && phase.next == 4) then None
        else Some(Enter(s, t, Published(phase.call, phase.cfg, phase.batch)).(server := s.server.(config := phase.cfg)))
      case Record(t) =>
        if !phase.Published? then None
        else Some(Enter(s, t, Leaving(phase.call)).(server := s.server.(enabled := NamesSurface(phase.batch))))
      case Unlock(t) =>
        if !phase.Leaving? then None
        else Some(Enter(s, t, Idle).(reloadMu := None, log := s.log + [phase.call], owners := s.owners + [t]))
  }

  /** The state after these steps, in this order; None if some step was not possible. */
  ghost function Run(env: Env, s: State, actions: seq<Action>): Option<State> {
    Runs.Run((now, a) => Step(env, now, a), s, actions)
  }

  function Start(config: StaticConfig, ids: set<nat>): State {
    State(Initial(config), None, map t | t in ids :: Idle, [], [])
  }

  predicate Outside(phase: Phase) {
    phase.Idle? || phase.Blocked?
  }

  function FirstKinds(server: Server, batch: Surface<seq<Converted>>, n: nat): Surface<Registry>
    requires n <= 4
  {
    if n == 0 then server.registries
    else CommitKind(FirstKinds(server, batch, n - 1), server.enabled, batch, n - 1)
  }

  lemma FourKinds(server: Server, batch: Surface<seq<Converted>>)
    ensures FirstKinds(server, batch, 4) == CommittedSurface(server, batch)
  {
    assert FirstKinds(server, batch, 0) == server.registries;
    var one := FirstKinds(server, batch, 1);
    assert one == server.registries.(tools := Committed(server.registries.tools, server.enabled.tools, batch.tools));
    var two := FirstKinds(server, batch, 2);
    assert two == one.(prompts := Committed(server.registries.prompts, server.enabled.prompts, batch.prompts));
    var three := FirstKinds(server, batch, 3);
    assert three == two.(resources := Committed(server.registries.resources, server.enabled.resources, batch.resources));
  }

  /** How far the holder of reloadMu has come from `base`, the server as it found it. */
  predicate Progress(env: Env, base: Server, server: Server, phase: Phase) {
    match phase
    case Holding(candidate, cfg) => server == base && cfg == ChosenConfig(base, candidate)
    case Committing(call, cfg, batch, previous, next) =>
      && Accepts(env, base, call.candidate, call.clusters)
      && cfg == ChosenConfig(base, call.candidate)
      && batch == Batch(env, env.collect(cfg, call.clusters))
      && previous == base.enabled && next <= 4
      && server == base.(registries := FirstKinds(base, batch, next))
    case Published(call, cfg, batch) =>
      && Accepts(env, base, call.candidate, call.clusters)
      && cfg == ChosenConfig(base, call.candidate)
      && batch == Batch(env, env.collect(cfg, call.clusters))
      && server == base.(registries := CommittedSurface(base, batch), config := cfg)
    case Leaving(call) => server == Apply(env, base, call.candidate, call.clusters)
    case _ => false
  }

  /** Only the holder of reloadMu is inside, and it works on what the logged calls left behind. */
  ghost predicate Inv(env: Env, config: StaticConfig, s: State) {
    var base := Serve(env, config, s.log);
    && (s.reloadMu.None? ==> s.server == base)
    && (s.reloadMu.Some? ==> s.reloadMu.value in s.threads
                             && Progress(env, base, s.server, s.threads[s.reloadMu.value]))
    && (forall t :: t in s.threads && s.reloadMu != Some(t) ==> Outside(s.threads[t]))
  }

  /** Nobody else is inside: a step of another thread leaves the server and the holder alone. */
  lemma OutsiderKeepsInv(env: Env, config: StaticConfig, s: State, a: Action)
    requires Inv(env, config, s) && Step(env, s, a).Some? && s.reloadMu != Some(a.t)
    ensures Inv(env, config, Step(env, s, a).value)
  {
    assert Outside(s.threads[a.t]);
  }

  lemma HolderKeepsProgress(env: Env, base: Server, s: State, a: Action)
    requires a.t in s.threads && Progress(env, base, s.server, s.threads[a.t]) && Step(env, s, a).Some? && !a.Unlock?
    ensures var next := Step(env, s, a).value;
            && next.reloadMu == s.reloadMu && next.log == s.log && next.owners == s.owners
            && next.threads == s.threads[a.t := next.threads[a.t]]
            && Progress(env, base, next.server, next.threads[a.t])
  {
    if a.Publish? {
      FourKinds(base, s.threads[a.t].batch);
    }
  }

  lemma HolderLeaves(env: Env, config: StaticConfig, s: State, a: Action)
    requires Inv(env, config, s) && Step(env, s, a).Some? && s.reloadMu == Some(a.t) && a.Unlock?
    ensures Inv(env, config, Step(env, s, a).value)
  {
    ServedLast(env, config, s.log, s.threads[a.t].call);
  }

  lemma ServedLast(env: Env, config: StaticConfig, log: seq<Call>, call: Call)
    ensures Serve(env, config, log + [call]) == Apply(env, Serve(env, config, log), call.candidate, call.clusters)
  {
    assert (log + [call])[..|log|] == log;
  }

  lemma StepKeepsInv(env: Env, config: StaticConfig, s: State, a: Action)
    requires Inv(env, config, s) && Step(env, s, a).Some?
    ensures Inv(env, config, Step(env, s, a).value)
  {
    if s.reloadMu != Some(a.t) {
      OutsiderKeepsInv(env, config, s, a);
    } else if a.Unlock? {
      HolderLeaves(env, config, s, a);
    } else {
      HolderKeepsProgress(env, Serve(env, config, s.log), s, a);
    }
  }

  lemma {:induction false} RunKeepsInv(env: Env, config: StaticConfig, ids: set<nat>, actions: seq<Action>)
    requires Run(env, Start(config, ids), actions).Some?
    ensures Inv(env, config, Run(env, Start(config, ids), actions).value)
  {
    if actions != [] {
      var front := actions[..|actions| - 1];
      RunKeepsInv(env, config, ids, front);
      StepKeepsInv(env, config, Run(env, Start(config, ids), front).value, actions[|actions| - 1]);
    }
  }

  /**
   Whenever reloadMu is free, in any interleaving, the server is what the finished calls
   produce one at a time: its configuration is that of the latest reload that went through,
   its registries are the last-wins view of the latest converted batch, and the enabled
   lists name exactly the registered keys.
   */
  lemma ReloadsAreSerial(env: Env, config: StaticConfig, ids: set<nat>, actions: seq<Action>)
    requires KeepsNames(env) && Run(env, Start(config, ids), actions).Some?
    ensures var s := Run(env, Start(config, ids), actions).value;
            s.reloadMu.None? ==>
              && s.server == Serve(env, config, s.log)
              && s.server.config == LatestConfig(env, config, s.log)
              && s.server.registries == LastWinsSurface(LatestBatch(env, config, s.log))
              && s.server.enabled == NamesSurface(LatestBatch(env, config, s.log))
              && s.server.registries.tools.Keys == (set n | n in s.server.enabled.tools)
              && s.server.registries.prompts.Keys == (set n | n in s.server.enabled.prompts)
              && s.server.registries.resources.Keys == (set n | n in s.server.enabled.resources)
              && s.server.registries.templates.Keys == (set n | n in s.server.enabled.templates)
  {
    RunKeepsInv(env, config, ids, actions);
    var s := Run(env, Start(config, ids), actions).value;
    if s.reloadMu.None? {
      ConfigIsLatest(env, config, s.log);
      SurfaceIsLatestBatch(env, config, s.log);
      var batch := LatestBatch(env, config, s.log);
      KeysAreNames(batch.tools);
      KeysAreNames(batch.prompts);
      KeysAreNames(batch.resources);
      KeysAreNames(batch.templates);
    }
  }

  // ---------------------------------------------------------------- only validated configurations

  /** A caller is let in exactly with a configuration that validates, and without anything else changing. */
  lemma LetInExactlyWhenValid(env: Env, s: State, t: nat, newConfig: StaticConfig)
    requires t in s.threads && s.threads[t] == Idle
    ensures Step(env, s, BeginReload(t, newConfig)).Some?
    ensures var next := Step(env, s, BeginReload(t, newConfig)).value;
            next == if env.validate(newConfig) then s.(threads := s.threads[t := Blocked(Some(newConfig))]) else s
  {
  }

  predicate Vetted(env: Env, start: StaticConfig, config: StaticConfig) {
    config == start || env.validate(config)
  }

  /** What a call has been asked for, from the moment it is let in until it is logged. */
  function Underway(phase: Phase): seq<Option<StaticConfig>> {
    match phase
    case Idle => []
    case Blocked(candidate) => [candidate]
    case Holding(candidate, _) => [candidate]
    case Committing(call, _, _, _, _) => [call.candidate]
    case Published(call, _, _) => [call.candidate]
    case Leaving(call) => [call.candidate]
  }

  predicate PhaseVetted(env: Env, start: StaticConfig, phase: Phase) {
    && (forall c :: c in Underway(phase) && c.Some? ==> env.validate(c.value))
    && (phase.Holding? || phase.Committing? || phase.Published? ==> Vetted(env, start, phase.cfg))
  }

  ghost predicate AllVetted(env: Env, start: StaticConfig, s: State) {
    && Vetted(env, start, s.server.config)
    && (forall t :: t in s.threads ==> PhaseVetted(env, start, s.threads[t]))
    && (forall i :: 0 <= i < |s.log| && s.log[i].candidate.Some? ==> env.validate(s.log[i].candidate.value))
  }

  lemma {:induction false} RunKeepsVetted(env: Env, config: StaticConfig, ids: set<nat>, actions: seq<Action>)
    requires Run(env, Start(config, ids), actions).Some?
    ensures AllVetted(env, config, Run(env, Start(config, ids), actions).value)
  {
    if actions != [] {
      var front := actions[..|actions| - 1];
      RunKeepsVetted(env, config, ids, front);
      StepKeepsVetted(env, config, Run(env, Start(config, ids), front).value, actions[|actions| - 1]);
    }
  }

  lemma StepKeepsVetted(env: Env, config: StaticConfig, s: State, a: Action)
    requires AllVetted(env, config, s) && Step(env, s, a).Some?
    ensures AllVetted(env, config, Step(env, s, a).value)
  {
    assert PhaseVetted(env, config, s.threads[a.t]);
  }

  /**
   A lock-free reader never sees an unvetted configuration: at every moment the live one is the
   one the server started with or one that validates; and it is that of the latest finished
   reload, or one that converted completely and whose items are already in all four registries.
   No reload without a valid configuration is ever served.
   */
  lemma ReadersSeeVettedConfig(env: Env, config: StaticConfig, ids: set<nat>, actions: seq<Action>)
    requires Run(env, Start(config, ids), actions).Some?
    ensures var s := Run(env, Start(config, ids), actions).value;
            var base := Serve(env, config, s.log);
            && (s.server.config == config || env.validate(s.server.config))
            && (forall i :: 0 <= i < |s.log| && s.log[i].candidate.Some? ==> env.validate(s.log[i].candidate.value))
            && (|| s.server.config == LatestConfig(env, config, s.log)
                || exists call: Call ::
                     && Accepts(env, base, call.candidate, call.clusters)
                     && s.server.config == ChosenConfig(base, call.candidate)
                     && s.server.registries == CommittedSurface(base, Batch(env, env.collect(s.server.config, call.clusters))))
  {
    RunKeepsInv(env, config, ids, actions);
    RunKeepsVetted(env, config, ids, actions);
    var s := Run(env, Start(config, ids), actions).value;
    ConfigIsLatest(env, config, s.log);
    if s.reloadMu.Some? {
      var phase := s.threads[s.reloadMu.value];
      if phase.Published? || phase.Leaving? {
        assert Accepts(env, Serve(env, config, s.log), phase.call.candidate, phase.call.clusters)
            || s.server.config == LatestConfig(env, config, s.log);
      }
    }
  }

  // ---------------------------------------------------------------- every call is served once

  /** What a thread's calls were let in with, in order. */
  ghost function Requested(env: Env, actions: seq<Action>, t: nat): seq<Option<StaticConfig>> {
    if actions == [] then []
    else Requested(env, actions[..|actions| - 1], t) + Request(env, actions[|actions| - 1], t)
  }

  function Request(env: Env, a: Action, t: nat): seq<Option<StaticConfig>> {
    if a.BeginReload? && a.t == t && env.validate(a.newConfig) then [Some(a.newConfig)]
    else if a.BeginReapply? && a.t == t then [None]
    else []
  }

  /** What the thread's calls on the log were asked for, in order. */
  function ServedFor(log: seq<Call>, owners: seq<nat>, t: nat): seq<Option<StaticConfig>>
    requires |log| == |owners|
  {
    if log == [] then []
    else
      var n := |log| - 1;
      ServedFor(log[..n], owners[..n], t) + if owners[n] == t then [log[n].candidate] else []
  }

  lemma ServedNext(log: seq<Call>, owners: seq<nat>, call: Call, u: nat, t: nat)
    requires |log| == |owners|
    ensures ServedFor(log + [call], owners + [u], t) == ServedFor(log, owners, t) + if u == t then [call.candidate] else []
  {
    assert (log + [call])[..|log|] == log && (owners + [u])[..|owners|] == owners;
  }

  /** Until it is logged, a call stays what it was let in for. */
  lemma StepKeepsUnderway(env: Env, s: State, a: Action, t: nat)
    requires t in s.threads && Step(env, s, a).Some?
    ensures var next := Step(env, s, a).value;
            && t in next.threads
            && (if a.Unlock? then
                  && next.log == s.log + [s.threads[a.t].call] && next.owners == s.owners + [a.t]
                  && Underway(s.threads[a.t]) == [s.threads[a.t].call.candidate]
                  && Underway(next.threads[t]) == (if a.t == t then [] else Underway(s.threads[t]))
                else
                  && next.log == s.log && next.owners == s.owners
                  && Underway(next.threads[t]) == Underway(s.threads[t]) + Request(env, a, t))
  {
  }

  lemma StepServes(env: Env, s: State, a: Action, t: nat)
    requires |s.owners| == |s.log| && t in s.threads && Step(env, s, a).Some?
    ensures var next := Step(env, s, a).value;
            && |next.owners| == |next.log| && t in next.threads
            && ServedFor(next.log, next.owners, t) + Underway(next.threads[t])
               == ServedFor(s.log, s.owners, t) + Underway(s.threads[t]) + Request(env, a, t)
  {
    StepKeepsUnderway(env, s, a, t);
    var served, underway, request := ServedFor(s.log, s.owners, t), Underway(s.threads[t]), Request(env, a, t);
    if a.Unlock? {
      ServedNext(s.log, s.owners, s.threads[a.t].call, a.t, t);
      assert request == [];
    } else {
      assert served + (underway + request) == served + underway + request;
    }
  }

  /**
   Each thread's calls are served in the order in which they were let in, each of them once and
   for the configuration it brought, but for the one that is still under way.
   */
  lemma {:induction false} EveryCallIsServedOnce(env: Env, config: StaticConfig, ids: set<nat>, actions: seq<Action>, t: nat)
    requires t in ids && Run(env, Start(config, ids), actions).Some?
    ensures var s := Run(env, Start(config, ids), actions).value;
            && |s.owners| == |s.log| && t in s.threads
            && Requested(env, actions, t) == ServedFor(s.log, s.owners, t) + Underway(s.threads[t])
  {
    if actions != [] {
      var front, a := actions[..|actions| - 1], actions[|actions| - 1];
      EveryCallIsServedOnce(env, config, ids, front, t);
      StepServes(env, Run(env, Start(config, ids), front).value, a, t);
    }
  }

  // ---------------------------------------------------------------- every call comes to its end

  /** What the holder of reloadMu does next. */
  function NextAction(phase: Phase, t: nat, clusters: Clusters): Action {
    match phase
    case Committing(_, _, _, _, next) => if next < 4 then CommitNext(t) else Publish(t)
    case Published(_, _, _) => Record(t)
    case Leaving(_) => Unlock(t)
    case _ => Convert(t, clusters)
  }

  function Rank(phase: Phase): nat {
    match phase
    case Committing(_, _, _, _, next) => 3 + if next < 4 then 4 - next else 0
    case Published(_, _, _) => 2
    case Leaving(_) => 1
    case _ => 8
  }

  lemma RunFirst(env: Env, s: State, a: Action, rest: seq<Action>)
    requires Step(env, s, a).Some?
    ensures Run(env, s, [a] + rest) == Run(env, Step(env, s, a).value, rest)
  {
    Runs.Next((now, b) => Step(env, now, b), s, [], s, a);
    assert [] + [a] == [a];
    Runs.Append((now, b) => Step(env, now, b), s, [a], rest);
  }

  /** The call that the holder of reloadMu is making; `clusters` is what it will see if it has not looked yet. */
  function CallOf(phase: Phase, clusters: Clusters): Call
    requires !Outside(phase)
  {
    if phase.Holding? then Call(phase.candidate, clusters) else phase.call
  }

  /** Wherever the holder of reloadMu is, it can go on to the end by itself, and then its call has been applied. */
  lemma {:induction false} HolderFinishes(env: Env, base: Server, s: State, t: nat, clusters: Clusters)
    returns (acts: seq<Action>, next: State)
    requires s.reloadMu == Some(t) && t in s.threads && Progress(env, base, s.server, s.threads[t])
    ensures var call := CallOf(s.threads[t], clusters);
            && Run(env, s, acts) == Some(next)
            && next.threads == s.threads[t := Idle] && next.reloadMu == None && next.log == s.log + [call]
            && next.server == Apply(env, base, call.candidate, call.clusters)
    decreases Rank(s.threads[t])
  {
    var a := NextAction(s.threads[t], t, clusters);
    var after := Step(env, s, a).value;
    if a.Unlock? {
      acts, next := [a] + [], after;
      RunFirst(env, s, a, []);
    } else {
      HolderKeepsProgress(env, base, s, a);
      assert CallOf(after.threads[t], clusters) == CallOf(s.threads[t], clusters);
      var rest;
      rest, next := HolderFinishes(env, base, after, t, clusters);
      RunFirst(env, s, a, rest);
      acts := [a] + rest;
      assert next.threads == s.threads[t := Idle];
    }
  }

  /** One call alone, step by step, has the effect of the method: a candidate that does not validate has none. */
  lemma ReloadAlone(env: Env, s: State, t: nat, newConfig: StaticConfig, clusters: Clusters) returns (acts: seq<Action>, next: State)
    requires t in s.threads && s.threads[t] == Idle && s.reloadMu.None?
    ensures Run(env, s, acts) == Some(next) && next.threads == s.threads && next.reloadMu == None
    ensures next.server == if env.validate(newConfig) then Apply(env, s.server, Some(newConfig), clusters) else s.server
    ensures next.log == s.log + if env.validate(newConfig) then [Call(Some(newConfig), clusters)] else []
  {
    LetInExactlyWhenValid(env, s, t, newConfig);
    var begun := Step(env, s, BeginReload(t, newConfig)).value;
    if env.validate(newConfig) {
      var rest;
      rest, next := BlockedFinishes(env, begun, t, clusters);
      acts := [BeginReload(t, newConfig)] + rest;
      RunFirst(env, s, BeginReload(t, newConfig), rest);
      assert next.threads == s.threads;
    } else {
      acts, next := [BeginReload(t, newConfig)] + [], s;
      RunFirst(env, s, BeginReload(t, newConfig), []);
    }
  }

  /** A re-apply alone keeps the configuration. */
  lemma ReapplyAlone(env: Env, s: State, t: nat, clusters: Clusters) returns (acts: seq<Action>, next: State)
    requires t in s.threads && s.threads[t] == Idle && s.reloadMu.None?
    ensures Run(env, s, acts) == Some(next) && next.threads == s.threads && next.reloadMu == None
    ensures next.server == Apply(env, s.server, None, clusters) && next.log == s.log + [Call(None, clusters)]
  {
    var begun := Step(env, s, BeginReapply(t)).value;
    var rest;
    rest, next := BlockedFinishes(env, begun, t, clusters);
    acts := [BeginReapply(t)] + rest;
    RunFirst(env, s, BeginReapply(t), rest);
    assert next.threads == s.threads;
  }

  lemma BlockedFinishes(env: Env, s: State, t: nat, clusters: Clusters) returns (acts: seq<Action>, next: State)
    requires t in s.threads && s.threads[t].Blocked? && s.reloadMu.None?
    ensures Run(env, s, acts) == Some(next) && next.threads == s.threads[t := Idle] && next.reloadMu == None
    ensures next.server == Apply(env, s.server, s.threads[t].candidate, clusters)
    ensures next.log == s.log + [Call(s.threads[t].candidate, clusters)]
  {
    var held := Step(env, s, Lock(t)).value;
    var rest, last := HolderFinishes(env, s.server, held, t, clusters);
    RunFirst(env, s, Lock(t), rest);
    acts, next := [Lock(t)] + rest, last;
    assert next.threads == s.threads[t := Idle];
  }
}
