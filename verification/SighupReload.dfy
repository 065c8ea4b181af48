/**
 pkg/kubernetes-mcp-server/cmd/root.go and pkg/oauth/state.go: the SIGHUP loop, which keeps
 the MCP server's configuration, the published configuration and the OAuth snapshot together.

 Reading the files, the clusters' answers and the attempt to build an OIDC provider are
 inputs of each signal. A reload or re-apply of the server is one step here, which is what
 ReloadProtocol.ReloadsAreSerial justifies.
 */
module SighupReload {
  import opened Common
  import Runs
  import opened Configuration
  import opened ToolReload
  import LogSink

  /** An OIDC provider with its HTTP client, and what they were built from. */
  datatype Provider = Provider(
    authorizationURL: string,
    certificateAuthority: string,
    tlsMinVersion: string,
    tlsCipherSuites: seq<string>,
    instance: nat)

  datatype Snapshot = Snapshot(
    provider: Option<Provider>,
    authorizationURL: string,
    certificateAuthority: string,
    tlsMinVersion: string,
    tlsCipherSuites: seq<string>,
    oauthScopes: seq<string>,
    disableDynamicClientRegistration: bool)

  const EMPTY_SNAPSHOT := Snapshot(None, "", "", "", [], [], false)

  predicate HasProviderConfigChanged(s: Snapshot, other: Snapshot) {
    || s.authorizationURL != other.authorizationURL
    || s.certificateAuthority != other.certificateAuthority
    || s.tlsMinVersion != other.tlsMinVersion
    || s.tlsCipherSuites != other.tlsCipherSuites
  }

  predicate HasWellKnownConfigChanged(s: Snapshot, other: Snapshot) {
    || HasProviderConfigChanged(s, other)
    || s.disableDynamicClientRegistration != other.disableDynamicClientRegistration
    || s.oauthScopes != other.oauthScopes
  }

  function SnapshotFromConfig(cfg: StaticConfig, provider: Option<Provider>): Snapshot {
    Snapshot(provider, cfg.authorizationURL, cfg.certificateAuthority, cfg.tlsMinVersion, cfg.tlsCipherSuites,
             cfg.oauthScopes, cfg.disableDynamicClientRegistration)
  }

  /** `attempt` is the provider that discovery would yield, or None where building it fails. */
  function CreateOIDCProviderAndClient(cfg: StaticConfig, attempt: Option<nat>): Result<Option<Provider>, string> {
    if cfg.authorizationURL == "" then Ok(None)
    else if attempt.None? then Err("unable to setup OIDC provider")
    else Ok(Some(Provider(cfg.authorizationURL, cfg.certificateAuthority, cfg.tlsMinVersion, cfg.tlsCipherSuites, attempt.value)))
  }

  /** The stored provider is the one built from the snapshot's own URL, CA and TLS fields. */
  predicate Coherent(s: Snapshot) {
    match s.provider
    case None => s.authorizationURL == ""
    case Some(p) =>
      && s.authorizationURL != ""
      && p.authorizationURL == s.authorizationURL
      && p.certificateAuthority == s.certificateAuthority
      && p.tlsMinVersion == s.tlsMinVersion
      && p.tlsCipherSuites == s.tlsCipherSuites
  }

  // ---------------------------------------------------------------- the loop, step by step

  datatype Position =
    | Head
    | Read(newConfig: StaticConfig)
    | Applied(newConfig: StaticConfig)
    | Logged(newConfig: StaticConfig)
    | Stored(newConfig: StaticConfig)

  /**
   `log` is the destination last applied to the log sink, if there is one; a snapshot that was
   never stored counts as the empty one. `rebuildFailed` records whether the last accepted
   reload failed to rebuild the provider.
   */
  datatype Process = Process(server: Server, log: Option<string>, cfgState: StaticConfig, oauth: Snapshot, position: Position,
                             rebuildFailed: bool)

  datatype Action =
    | Receive(fromDisk: Option<StaticConfig>)
    | ReloadServer(clusters: Clusters)
    | ReloadLog(openFails: bool)
    | StoreConfig
    | UpdateOAuth(attempt: Option<nat>)
    | Reapply(clusters: Clusters)

  /** A log file that cannot be opened leaves the previous destination. */
  function LogReloaded(log: Option<string>, logFile: string, openFails: bool): Option<string> {
    if log.None? || (LogSink.NeedsFile(logFile) && openFails) then log else Some(logFile)
  }

  function AfterUpdate(p: Process, newConfig: StaticConfig, attempt: Option<nat>): Process {
    var newSnapshot := SnapshotFromConfig(newConfig, p.oauth.provider);
    var q := p.(position := Head, rebuildFailed := false);
    if HasProviderConfigChanged(p.oauth, newSnapshot) then
      var built := CreateOIDCProviderAndClient(newConfig, attempt);
      if built.Err? then q.(rebuildFailed := true)
      else q.(oauth := newSnapshot.(provider := built.value))
    else if HasWellKnownConfigChanged(p.oauth, newSnapshot) then q.(oauth := newSnapshot)
    else q
  }

  /** One step; re-applies of the watchers come at any point of the loop. */
  function Step(env: Env, p: Process, a: Action): Option<Process> {
    match a
    case Receive(fromDisk) =>
      if p.position != Head then None
      else if fromDisk.None? then Some(p)
      else Some(p.(position := Read(fromDisk.value)))
    case ReloadServer(clusters) =>
      if !p.position.Read? then None
      else
        var newConfig := p.position.newConfig;
        if env.validate(newConfig) && Accepts(env, p.server, Some(newConfig), clusters) then
          Some(p.(server := ToolReload.Apply(env, p.server, Some(newConfig), clusters), position := Applied(newConfig)))
        else Some(p.(position := Head))
    case ReloadLog(openFails) =>
      if !p.position.Applied? then None
      else
        var newConfig := p.position.newConfig;
        Some(p.(log := LogReloaded(p.log, newConfig.logFile, openFails), position := Logged(newConfig)))
    case StoreConfig =>
      if !p.position.Logged? then None
      else Some(p.(cfgState := p.position.newConfig, position := Stored(p.position.newConfig)))
    case UpdateOAuth(attempt) =>
      if !p.position.Stored? then None else Some(AfterUpdate(p, p.position.newConfig, attempt))
    case Reapply(clusters) =>
      Some(p.(server := ToolReload.Apply(env, p.server, None, clusters)))
  }

  ghost function Run(env: Env, p: Process, actions: seq<Action>): Option<Process> {
    Runs.Run((now, a) => Step(env, now, a), p, actions)
  }

  /** What Run has set up when the handler starts; the log sink has applied the first configuration. */
  function Startup(env: Env, config: StaticConfig, clusters: Clusters, attempt: Option<nat>, hasSink: bool): Option<Process> {
    var built := CreateOIDCProviderAndClient(config, attempt);
    if built.Err? || !Accepts(env, Initial(config), Some(config), clusters) then None
    else Some(Process(ToolReload.Apply(env, Initial(config), Some(config), clusters),
                      if hasSink then Some(config.logFile) else None, config,
                      SnapshotFromConfig(config, built.value), Head, false))
  }

  /** What a provider is built from is the same in both, field by field. */
  predicate SameProviderFields(s: Snapshot, cfg: StaticConfig) {
    && s.authorizationURL == cfg.authorizationURL
    && s.certificateAuthority == cfg.certificateAuthority
    && s.tlsMinVersion == cfg.tlsMinVersion
    && s.tlsCipherSuites == cfg.tlsCipherSuites
  }

  /** The snapshot says what the configuration says about OAuth, field by field. */
  predicate SaysAs(s: Snapshot, cfg: StaticConfig) {
    && SameProviderFields(s, cfg)
    && s.oauthScopes == cfg.oauthScopes
    && s.disableDynamicClientRegistration == cfg.disableDynamicClientRegistration
  }

  /** The provider that this attempt yields for a configuration with an authorization URL. */
  predicate BuiltFor(provider: Option<Provider>, cfg: StaticConfig, instance: nat) {
    provider == Some(Provider(cfg.authorizationURL, cfg.certificateAuthority, cfg.tlsMinVersion, cfg.tlsCipherSuites, instance))
  }

  /** The snapshot holds everything the published configuration says about OAuth. */
  predicate InStep(p: Process) {
    SaysAs(p.oauth, p.cfgState)
  }

  /** The provider the snapshot would need is not the one it has. */
  predicate NeedsRebuild(p: Process) {
    !SameProviderFields(p.oauth, p.cfgState)
  }

  /**
   What an accepted configuration makes of a snapshot. When the fields of the provider are the
   same it stays, and scopes and registration are taken over whatever the attempt. Otherwise
   there is no provider without a URL, the attempt's where it worked, and no change where it did not.
   */
  predicate Follows(was: Snapshot, now: Snapshot, cfg: StaticConfig, attempt: Option<nat>) {
    if SameProviderFields(was, cfg) then SaysAs(now, cfg) && now.provider == was.provider
    else if cfg.authorizationURL == "" then SaysAs(now, cfg) && now.provider == None
    else if attempt.None? then now == was
    else SaysAs(now, cfg) && BuiltFor(now.provider, cfg, attempt.value)
  }

  /** It is the failed attempt that leaves the snapshot behind. */
  predicate RebuildFails(was: Snapshot, cfg: StaticConfig, attempt: Option<nat>) {
    !SameProviderFields(was, cfg) && cfg.authorizationURL != "" && attempt.None?
  }

  lemma UpdateFollows(p: Process, newConfig: StaticConfig, attempt: Option<nat>)
    ensures var q := AfterUpdate(p, newConfig, attempt);
            && Follows(p.oauth, q.oauth, newConfig, attempt)
            && (q.rebuildFailed <==> RebuildFails(p.oauth, newConfig, attempt))
            && q.position == Head && q.server == p.server && q.cfgState == p.cfgState && q.log == p.log
  {
  }

  /** The server starts when the first configuration converts and its provider, if it names one, can be built. */
  lemma StartupExactlyWhen(env: Env, config: StaticConfig, clusters: Clusters, attempt: Option<nat>, hasSink: bool)
    ensures var p := Startup(env, config, clusters, attempt, hasSink);
            && (p.Some? <==> (config.authorizationURL == "" || attempt.Some?) && Accepts(env, Initial(config), Some(config), clusters))
            && (p.Some? ==>
                  && p.value.server.config == config == p.value.cfgState && SaysAs(p.value.oauth, config)
                  && (if config.authorizationURL == "" then p.value.oauth.provider == None
                      else BuiltFor(p.value.oauth.provider, config, attempt.value))
                  && p.value.log == (if hasSink then Some(config.logFile) else None)
                  && p.value.position == Head && !p.value.rebuildFailed)
  {
  }

  predicate Inv(p: Process) {
    && Coherent(p.oauth)
    && (match p.position
        case Head => p.server.config == p.cfgState
        case Read(_) => p.server.config == p.cfgState
        case Applied(newConfig) => p.server.config == newConfig
        case Logged(newConfig) => p.server.config == newConfig
        case Stored(newConfig) => p.server.config == p.cfgState == newConfig)
    && (p.position.Head? || p.position.Read? ==>
          (p.rebuildFailed ==> NeedsRebuild(p) && p.cfgState.authorizationURL != "") && (!p.rebuildFailed ==> InStep(p)))
  }

  lemma StepKeepsInv(env: Env, p: Process, a: Action)
    requires Inv(p) && Step(env, p, a).Some?
    ensures Inv(Step(env, p, a).value)
  {
  }

  lemma {:induction false} RunKeepsInv(env: Env, p: Process, actions: seq<Action>)
    requires Inv(p) && Run(env, p, actions).Some?
    ensures Inv(Run(env, p, actions).value)
  {
    if actions != [] {
      var front := actions[..|actions| - 1];
      RunKeepsInv(env, p, front);
      StepKeepsInv(env, Run(env, p, front).value, actions[|actions| - 1]);
    }
  }

  /**
   After any signals and re-applies, at each loop head the MCP server and the published
   state hold the same configuration, the snapshot's provider was built from the snapshot's
   own fields, and the snapshot says in every field what the configuration says except right
   after a failed rebuild: then its provider fields are those of an earlier configuration.
   */
  lemma CopiesAgreeAtLoopHead(env: Env, config: StaticConfig, clusters: Clusters, attempt: Option<nat>, hasSink: bool,
                              actions: seq<Action>)
    requires Startup(env, config, clusters, attempt, hasSink).Some?
    requires Run(env, Startup(env, config, clusters, attempt, hasSink).value, actions).Some?
    ensures var p := Run(env, Startup(env, config, clusters, attempt, hasSink).value, actions).value;
            && Coherent(p.oauth)
            && (p.position == Head ==>
                  && p.server.config == p.cfgState
                  && (!p.rebuildFailed ==> SaysAs(p.oauth, p.cfgState) && (p.oauth.provider.None? <==> p.cfgState.authorizationURL == ""))
                  && (p.rebuildFailed ==> !SameProviderFields(p.oauth, p.cfgState) && p.cfgState.authorizationURL != ""))
  {
    RunKeepsInv(env, Startup(env, config, clusters, attempt, hasSink).value, actions);
  }

  /** A re-apply comes at any point of the loop, changes the server alone, and keeps its configuration. */
  lemma ReapplyIsTheServers(env: Env, p: Process, clusters: Clusters)
    ensures var q := Step(env, p, Reapply(clusters));
            && q.Some? && q.value == p.(server := q.value.server)
            && q.value.server == ToolReload.Apply(env, p.server, None, clusters) && q.value.server.config == p.server.config
  {
  }

  /** As long as no snapshot was stored, a configuration without OAuth settings is the only one that needs no provider. */
  lemma NoSnapshotYet(cfg: StaticConfig)
    ensures EMPTY_SNAPSHOT.provider == None && EMPTY_SNAPSHOT.oauthScopes == [] && !EMPTY_SNAPSHOT.disableDynamicClientRegistration
    ensures SameProviderFields(EMPTY_SNAPSHOT, cfg) <==>
              cfg.authorizationURL == "" && cfg.certificateAuthority == "" && cfg.tlsMinVersion == "" && cfg.tlsCipherSuites == []
  {
  }

  lemma StepLeavesOAuth(env: Env, p: Process, a: Action)
    requires Step(env, p, a).Some? && !a.UpdateOAuth?
    ensures Step(env, p, a).value.oauth == p.oauth
  {
  }

  lemma {:induction false} OnlyUpdatesTouchOAuth(env: Env, p: Process, actions: seq<Action>)
    requires Run(env, p, actions).Some? && forall a :: a in actions ==> !a.UpdateOAuth?
    ensures Run(env, p, actions).value.oauth == p.oauth
  {
    if actions != [] {
      var front := actions[..|actions| - 1];
      assert actions == front + [actions[|actions| - 1]];
      OnlyUpdatesTouchOAuth(env, p, front);
      StepLeavesOAuth(env, Run(env, p, front).value, actions[|actions| - 1]);
    }
  }

  /**
   A failed rebuild is retried. Take any run from a loop head up to the next completed
   update, with signals that were rejected and re-applies in between. The snapshot then follows
   the configuration that was accepted: as long as its provider fields differ from the
   snapshot's, every update tries to build the provider anew.
   */
  lemma NextReloadRetries(env: Env, p: Process, actions: seq<Action>, attempt: Option<nat>)
    requires Inv(p) && p.position == Head && (forall a :: a in actions ==> !a.UpdateOAuth?)
    requires Run(env, p, actions + [UpdateOAuth(attempt)]).Some?
    ensures var q := Run(env, p, actions + [UpdateOAuth(attempt)]).value;
            && q.position == Head && q.server.config == q.cfgState && Coherent(q.oauth)
            && Follows(p.oauth, q.oauth, q.cfgState, attempt)
            && (q.rebuildFailed <==> RebuildFails(p.oauth, q.cfgState, attempt))
  {
    var all := actions + [UpdateOAuth(attempt)];
    assert all[..|all| - 1] == actions;
    RunKeepsInv(env, p, actions);
    OnlyUpdatesTouchOAuth(env, p, actions);
    RunKeepsInv(env, p, all);
    UpdateFollows(Run(env, p, actions).value, Run(env, p, all).value.cfgState, attempt);
  }

  // ---------------------------------------------------------------- the handler object

  datatype Signal = Signal(fromDisk: Option<StaticConfig>, clusters: Clusters, openFails: bool, attempt: Option<nat>)

  /** One signal with nothing in between. */
  function Handle(env: Env, p: Process, s: Signal): Process
    requires p.position == Head
    ensures Handle(env, p, s).position == Head
  {
    if s.fromDisk.None? then p
    else
      var newConfig := s.fromDisk.value;
      if !(env.validate(newConfig) && Accepts(env, p.server, Some(newConfig), s.clusters)) then p
      else
        var q := p.(server := ToolReload.Apply(env, p.server, Some(newConfig), s.clusters),
                    log := LogReloaded(p.log, newConfig.logFile, s.openFails), cfgState := newConfig);
        AfterUpdate(q, newConfig, s.attempt)
  }

  /** The loop body and the steps are the same thing. */
  lemma HandleIsTheSteps(env: Env, p: Process, s: Signal)
    requires p.position == Head && s.fromDisk.Some?
    ensures var received := Step(env, p, Receive(s.fromDisk)).value;
            var reloaded := Step(env, received, ReloadServer(s.clusters)).value;
            Handle(env, p, s)
            == if reloaded.position == Head then reloaded
               else
                 var logged := Step(env, reloaded, ReloadLog(s.openFails)).value;
                 Step(env, Step(env, logged, StoreConfig).value, UpdateOAuth(s.attempt)).value
  {
  }

  /** What one signal does: nothing, unless the files can be read, validate and convert; and then each part by itself. */
  lemma HandleMeaning(env: Env, p: Process, s: Signal)
    requires p.position == Head
    ensures var q := Handle(env, p, s);
            if s.fromDisk.None? || !env.validate(s.fromDisk.value) || !Accepts(env, p.server, s.fromDisk, s.clusters) then q == p
            else
              var cfg := s.fromDisk.value;
              && q.server == ToolReload.Apply(env, p.server, Some(cfg), s.clusters) && q.server.config == cfg == q.cfgState
              && q.log == (if p.log.None? || (cfg.logFile != "" && cfg.logFile != LogSink.STDERR && s.openFails) then p.log
                           else Some(cfg.logFile))
              && Follows(p.oauth, q.oauth, cfg, s.attempt)
              && (q.rebuildFailed <==> RebuildFails(p.oauth, cfg, s.attempt))
  {
  }

  lemma HandleKeepsInv(env: Env, p: Process, s: Signal)
    requires p.position == Head && Inv(p)
    ensures Inv(Handle(env, p, s))
  {
    if s.fromDisk.Some? {
      HandleIsTheSteps(env, p, s);
      var received := Next(env, p, Receive(s.fromDisk));
      var reloaded := Next(env, received, ReloadServer(s.clusters));
      if reloaded.position != Head {
        var logged := Next(env, reloaded, ReloadLog(s.openFails));
        var stored := Next(env, logged, StoreConfig);
        var _ := Next(env, stored, UpdateOAuth(s.attempt));
      }
    }
  }

  lemma Next(env: Env, p: Process, a: Action) returns (q: Process)
    requires Inv(p) && Step(env, p, a).Some?
    ensures Some(q) == Step(env, p, a) && Inv(q)
  {
    StepKeepsInv(env, p, a);
    q := Step(env, p, a).value;
  }

  /** A log file that cannot be opened is never fatal: everything but the log is as if it had been. */
  lemma LogFailureIsNotFatal(env: Env, p: Process, s: Signal)
    requires p.position == Head && p.log.Some?
    ensures var opens, fails := Handle(env, p, s.(openFails := false)), Handle(env, p, s.(openFails := true));
            && fails.(log := opens.log) == opens
            && (fails.log == opens.log || (fails.log == p.log && opens.log == Some(s.fromDisk.value.logFile)))
  {
  }

  class SignalHandler {
    const server: ServerObject
    var cfgState: StaticConfig
    var oauthState: Option<Snapshot>
    const logSink: LogSink.SinkObject?
    ghost var rebuildFailed: bool

    ghost predicate Valid()
      reads this, logSink, if logSink == null then {} else {logSink.disk}
    {
      server.Valid() && (logSink != null ==> logSink.Valid())
    }

    ghost function Abs(): Process
      reads this, server, server.tools, server.prompts, server.resources, server.templates, logSink
    {
      Process(server.Abs(), if logSink == null then None else Some(logSink.lastLogFile), cfgState,
              if oauthState.Some? then oauthState.value else EMPTY_SNAPSHOT, Head, rebuildFailed)
    }

    constructor (server: ServerObject, cfgState: StaticConfig, oauthState: Option<Snapshot>, logSink: LogSink.SinkObject?)
      requires server.Valid() && (logSink != null ==> logSink.Valid())
      ensures Valid() && this.server == server && this.logSink == logSink && this.oauthState == oauthState
      ensures Abs().server == server.Abs() && Abs().cfgState == cfgState && !Abs().rebuildFailed
    {
      this.server := server;
      this.cfgState := cfgState;
      this.oauthState := oauthState;
      this.logSink := logSink;
      this.rebuildFailed := false;
    }

    /** The end of the loop body: the OAuth snapshot follows the configuration, unless the provider cannot be rebuilt. */
    method UpdateOAuth(newConfig: StaticConfig, attempt: Option<nat>)
      requires Valid()
      modifies this`oauthState, this`rebuildFailed
      ensures Valid()
      ensures Abs() == AfterUpdate(old(Abs()), newConfig, attempt)
    {
      rebuildFailed := false;
      var currentSnapshot := EMPTY_SNAPSHOT;
      if oauthState.Some? { currentSnapshot := oauthState.value; }
      var newSnapshot := SnapshotFromConfig(newConfig, currentSnapshot.provider);
      if HasProviderConfigChanged(currentSnapshot, newSnapshot) {
        var built := CreateOIDCProviderAndClient(newConfig, attempt);
        if built.Err? {
          rebuildFailed := true;
          return;
        }
        oauthState := Some(newSnapshot.(provider := built.value));
      } else if HasWellKnownConfigChanged(currentSnapshot, newSnapshot) {
        oauthState := Some(newSnapshot);
      }
    }

    /** The loop body once the server has the new configuration. */
    method FollowReload(newConfig: StaticConfig, openFails: bool, attempt: Option<nat>)
      requires Valid()
      modifies this, logSink, if logSink == null then {} else {logSink.disk}
      ensures Valid()
      ensures Abs() == AfterUpdate(old(Abs()).(log := LogReloaded(old(Abs()).log, newConfig.logFile, openFails), cfgState := newConfig),
                                   newConfig, attempt)
      ensures logSink != null ==> LogSink.Applies(old(logSink.Abs()), old(logSink.disk.files), logSink.Abs(), logSink.disk.files,
                                                  newConfig.logFile, openFails)
    {
      if logSink != null {
        var _ := logSink.ApplyDestination(newConfig.logFile, openFails);
      }
      cfgState := newConfig;
      UpdateOAuth(newConfig, attempt);
    }

    method HandleSignal(env: Env, s: Signal)
      requires Valid()
      modifies this, server, server.tools, server.prompts, server.resources, server.templates
      modifies logSink, if logSink == null then {} else {logSink.disk}
      ensures Valid()
      ensures Abs() == Handle(env, old(Abs()), s)
      ensures logSink != null ==>
                if s.fromDisk.Some? && env.validate(s.fromDisk.value) && Accepts(env, old(server.Abs()), s.fromDisk, s.clusters) then
                  LogSink.Applies(old(logSink.Abs()), old(logSink.disk.files), logSink.Abs(), logSink.disk.files,
                                  s.fromDisk.value.logFile, s.openFails)
                else logSink.Abs() == old(logSink.Abs()) && logSink.disk.files == old(logSink.disk.files)
    {
      if s.fromDisk.None? { return; }
      var newConfig := s.fromDisk.value;
      var ok := server.ReloadConfiguration(env, newConfig, s.clusters);
      if !ok { return; }
      FollowReload(newConfig, s.openFails, s.attempt);
    }

    /** The loop over the signal channel: after each signal the copies agree again. */
    method HandleSignals(env: Env, signals: seq<Signal>)
      requires Valid() && Inv(Abs())
      modifies this, server, server.tools, server.prompts, server.resources, server.templates
      modifies logSink, if logSink == null then {} else {logSink.disk}
      ensures Valid() && Inv(Abs())
      ensures server.Abs().config == cfgState
    {
      for i := 0 to |signals|
        invariant Valid() && Inv(Abs())
      {
        HandleKeepsInv(env, Abs(), signals[i]);
        HandleSignal(env, signals[i]);
      }
    }
  }
}
