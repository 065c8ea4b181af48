/**
 pkg/kcp/provider.go between two resets: the workspace managers that lookups create on demand.

 Creating a manager is an input that may fail. A lookup reads the map under mu's read lock and,
 when it finds nothing, looks again under the write lock before it creates; GetTargetManagers
 holds the write lock from the first workspace to the last.
 */
module KcpProvider {
  import opened Common
  import Runs
  import opened SortedStrings

  // ---------------------------------------------------------------- the provider object

  class Manager {
    const workspace: string

    constructor (workspace: string)
      ensures this.workspace == workspace
    {
      this.workspace := workspace;
    }
  }

  datatype LookupError = UnknownTarget | CreationFailed

  class Provider {
    const defaultWorkspace: string
    var managers: map<string, Manager?>

    /** What reset leaves: every workspace known, and the default one's manager in place. */
    constructor (workspaces: seq<string>, defaultWorkspace: string, base: Manager)
      ensures this.defaultWorkspace == defaultWorkspace
      ensures managers.Keys == (set ws | ws in workspaces) + {defaultWorkspace}
      ensures managers[defaultWorkspace] == base
      ensures forall ws :: ws in managers && ws != defaultWorkspace ==> managers[ws] == null
    {
      var m: map<string, Manager?> := map[];
      for i := 0 to |workspaces|
        invariant m.Keys == set ws | ws in workspaces[..i]
        invariant forall ws :: ws in m ==> m[ws] == null
      {
        m := m[workspaces[i] := null];
      }
      assert workspaces[..|workspaces|] == workspaces;
      this.defaultWorkspace := defaultWorkspace;
      managers := m[defaultWorkspace := base];
    }

    /** Lookup with the write lock held: `fails` holds the workspaces whose manager cannot be created now. */
    method ManagerForWorkspace(workspace: string, fails: set<string>) returns (r: Result<Manager, LookupError>)
      modifies this
      ensures managers.Keys == old(managers.Keys)
      ensures forall ws :: ws in managers && ws != workspace ==> managers[ws] == old(managers[ws])
      ensures workspace !in old(managers) ==> r == Err(UnknownTarget)
      ensures workspace in managers && old(managers[workspace]) == null && workspace in fails ==>
                r == Err(CreationFailed) && managers == old(managers)
      ensures workspace in managers && old(managers[workspace]) == null && workspace !in fails ==>
                r.Ok? && fresh(r.value) && r.value.workspace == workspace && managers[workspace] == r.value
      ensures workspace in managers && old(managers[workspace]) != null ==>
                r == Ok(old(managers[workspace])) && managers == old(managers)
    {
      if workspace in managers && managers[workspace] != null {
        var m: Manager := managers[workspace];
        return Ok(m);
      }
      if workspace !in managers {
        return Err(UnknownTarget);
      }
      if workspace in fails {
        return Err(CreationFailed);
      }
      var m := new Manager(workspace);
      managers := managers[workspace := m];
      return Ok(m);
    }

    /** The manager for a tool call: that of the workspace asked for, or of the default one when none is named. */
    method GetDerived(workspace: string, fails: set<string>) returns (r: Result<Manager, LookupError>)
      modifies this
      ensures var asked := if workspace == "" then defaultWorkspace else workspace;
              && managers.Keys == old(managers.Keys)
              && (forall ws :: ws in managers && ws != asked ==> managers[ws] == old(managers[ws]))
              && (asked !in managers ==> r == Err(UnknownTarget))
              && (asked in managers && old(managers[asked]) != null ==> r == Ok(old(managers[asked])) && managers == old(managers))
              && (asked in managers && old(managers[asked]) == null ==>
                    if asked in fails then r == Err(CreationFailed) && managers == old(managers)
                    else r.Ok? && fresh(r.value) && r.value.workspace == asked && managers[asked] == r.value)
    {
      var asked := workspace;
      if asked == "" {
        asked := defaultWorkspace;
      }
      r := ManagerForWorkspace(asked, fails);
    }

    method GetTargets() returns (names: seq<string>)
      ensures StrictlySorted(names) && forall ws :: ws in names <==> ws in managers
    {
      names := SortedKeys(managers.Keys);
    }

    /**
     All managers in the order of the sorted names, or the first failure. What existed stays,
     and what was created on the way to a failure stays too.
     */
    method GetTargetManagers(fails: set<string>) returns (names: seq<string>, r: Result<seq<Manager>, LookupError>)
      modifies this
      ensures StrictlySorted(names) && forall ws :: ws in names <==> ws in old(managers)
      ensures managers.Keys == old(managers.Keys)
      ensures forall ws :: ws in managers && old(managers[ws]) != null ==> managers[ws] == old(managers[ws])
      ensures forall ws :: ws in managers && managers[ws] != old(managers[ws]) ==> fresh(managers[ws]) && ws !in fails
      ensures r.Ok? <==> forall ws :: ws in old(managers) && old(managers[ws]) == null ==> ws !in fails
      ensures r.Ok? ==> |r.value| == |names| && forall k :: 0 <= k < |names| ==> managers[names[k]] == r.value[k]
      ensures r.Err? ==> r.error == CreationFailed
    {
      names := GetTargets();
      var got: seq<Manager> := [];
      for i := 0 to |names|
        invariant |got| == i && managers.Keys == old(managers.Keys)
        invariant forall ws :: ws in managers && old(managers[ws]) != null ==> managers[ws] == old(managers[ws])
        invariant forall ws :: ws in managers && managers[ws] != old(managers[ws]) ==> fresh(managers[ws]) && ws !in fails
        invariant forall k :: i <= k < |names| ==> managers[names[k]] == old(managers[names[k]])
        invariant forall k :: 0 <= k < i ==> managers[names[k]] == got[k]
        invariant forall k :: 0 <= k < i ==> old(managers[names[k]]) != null || names[k] !in fails
      {
        assert names[i] in names;
        Distinct(names);
        var one := ManagerForWorkspace(names[i], fails);
        if one.Err? {
          return names, Err(one.error);
        }
        got := got + [one.value];
      }
      r := Ok(got);
    }
  }

  lemma Distinct(names: seq<string>)
    requires StrictlySorted(names)
    ensures forall i, j :: 0 <= i < j < |names| ==> names[i] != names[j]
  {
    forall i, j | 0 <= i < j < |names| ensures names[i] != names[j] {
      LessTotal(names[i], names[j]);
    }
  }

  // ---------------------------------------------------------------- lookups and listings interleaved

  datatype Pc =
    | Idle
    | Looking(workspace: string)
    | Wanting(workspace: string)                           // found nothing under the read lock
    | Checking(workspace: string)                          // holds the write lock from here on
    | Creating(workspace: string)
    | WantingAll
    | Listing(names: seq<string>, got: seq<nat>)           // holds the write lock
    | ListCreating(names: seq<string>, got: seq<nat>)      // holds the write lock

  datatype Answer =
    | Found(workspace: string, id: nat)
    | Unknown(workspace: string)
    | Failed(workspace: string)
    | Listed(names: seq<string>, ids: seq<nat>)
    | ListFailed(workspace: string)

  datatype Record = Record(t: nat, answer: Answer)

  /** `created` and `answers` record every creation that worked and every call that returned, with its thread. */
  datatype State = State(
    defaultWorkspace: string,
    managers: map<string, Option<nat>>,
    nextId: nat,
    writer: Option<nat>,
    threads: map<nat, Pc>,
    created: seq<string>,
    answers: seq<Record>)

  datatype Action =
    | Call(t: nat, workspace: string) | Read(t: nat) | Lock(t: nat) | Check(t: nat) | Create(t: nat, ok: bool)
    | CallAll(t: nat) | LockAll(t: nat, names: seq<string>) | Next(t: nat) | CreateNext(t: nat, ok: bool)

  predicate HoldsLock(pc: Pc) {
    pc.Checking? || pc.Creating? || pc.Listing? || pc.ListCreating?
  }

  function Go(s: State, t: nat, pc: Pc): State {
    s.(threads := s.threads[t := pc])
  }

  function Returns(s: State, t: nat, answer: Answer): State
    requires t in s.threads
  {
    Go(s, t, Idle).(answers := s.answers + [Record(t, answer)], writer := if HoldsLock(s.threads[t]) then None else s.writer)
  }

  function Creates(s: State, workspace: string): State {
    s.(managers := s.managers[workspace := Some(s.nextId)], nextId := s.nextId + 1, created := s.created + [workspace])
  }

  predicate Has(s: State, workspace: string) {
    workspace in s.managers && s.managers[workspace].Some?
  }

  ghost function LookupStep(s: State, a: Action, pc: Pc): Option<State>
    requires a.t in s.threads && pc == s.threads[a.t]
  {
    match a
    case Call(t, ws) =>
      if pc == Idle then Some(Go(s, t, Looking(if ws == "" then s.defaultWorkspace else ws))) else None
    case Read(t) =>
      if !pc.Looking? || s.writer.Some? then None
      else if Has(s, pc.workspace) then Some(Returns(s, t, Found(pc.workspace, s.managers[pc.workspace].value)))
      else Some(Go(s, t, Wanting(pc.workspace)))
    case Lock(t) =>
      if pc.Wanting? && s.writer == None then Some(Go(s, t, Checking(pc.workspace)).(writer := Some(t))) else None
    case Check(t) =>
      if !pc.Checking? then None
      else if Has(s, pc.workspace) then Some(Returns(s, t, Found(pc.workspace, s.managers[pc.workspace].value)))
      else if pc.workspace !in s.managers then Some(Returns(s, t, Unknown(pc.workspace)))
      else Some(Go(s, t, Creating(pc.workspace)))
    case Create(t, ok) =>
      if !pc.Creating? then None
      else if !ok then Some(Returns(s, t, Failed(pc.workspace)))
      else Some(Returns(Creates(s, pc.workspace), t, Found(pc.workspace, s.nextId)))
    case _ => None
  }

  ghost function ListStep(s: State, a: Action, pc: Pc): Option<State>
    requires a.t in s.threads && pc == s.threads[a.t]
  {
    match a
    case CallAll(t) =>
      if pc == Idle then Some(Go(s, t, WantingAll)) else None
    case LockAll(t, names) =>
      if pc.WantingAll? && s.writer == None && Lists(names, s.managers) then
        Some(Go(s, t, Listing(names, [])).(writer := Some(t)))
      else None
    case Next(t) =>
      if !pc.Listing? then None
      else if |pc.got| >= |pc.names| then Some(Returns(s, t, Listed(pc.names, pc.got)))
      else
        var ws := pc.names[|pc.got|];
        if Has(s, ws) then Some(Go(s, t, Listing(pc.names, pc.got + [s.managers[ws].value])))
        else if ws !in s.managers then Some(Returns(s, t, ListFailed(ws)))
        else Some(Go(s, t, ListCreating(pc.names, pc.got)))
    case CreateNext(t, ok) =>
      if !pc.ListCreating? || |pc.got| >= |pc.names| then None
      else
        var ws := pc.names[|pc.got|];
        if !ok then Some(Returns(s, t, ListFailed(ws)))
        else Some(Go(Creates(s, ws), t, Listing(pc.names, pc.got + [s.nextId])))
    case _ => None
  }

  /** The names that getTargetsUnsync yields: there is one such sequence for a map. */
  ghost predicate Lists(names: seq<string>, managers: map<string, Option<nat>>) {
    StrictlySorted(names) && forall ws :: ws in names <==> ws in managers
  }

  ghost function Step(s: State, a: Action): Option<State> {
    if a.t !in s.threads then None
    else if a.Call? || a.Read? || a.Lock? || a.Check? || a.Create? then LookupStep(s, a, s.threads[a.t])
    else ListStep(s, a, s.threads[a.t])
  }

  ghost function Run(s: State, actions: seq<Action>): Option<State> {
    Runs.Run(Step, s, actions)
  }

  /** What reset leaves: any workspaces, some with a manager already. */
  function AfterReset(defaultWorkspace: string, managers: map<string, Option<nat>>, nextId: nat, ids: set<nat>): State {
    State(defaultWorkspace, managers, nextId, None, map t | t in ids :: Idle, [], [])
  }

  // ---------------------------------------------------------------- what every step keeps

  ghost predicate LockHeld(s: State) {
    && (forall t :: t in s.threads ==> (HoldsLock(s.threads[t]) <==> s.writer == Some(t)))
    && (s.writer.Some? ==> s.writer.value in s.threads)
  }

  /** What a thread knows while it holds the lock is still so. */
  ghost predicate Knows(s: State, pc: Pc) {
    match pc
    case Creating(ws) => ws in s.managers && s.managers[ws].None?
    case Listing(names, got) => |got| <= |names| && Lists(names, s.managers) && Collected(s.managers, names, got)
    case ListCreating(names, got) =>
      && |got| < |names| && Lists(names, s.managers) && Collected(s.managers, names, got)
      && s.managers[names[|got|]].None?
    case _ => true
  }

  ghost predicate Collected(managers: map<string, Option<nat>>, names: seq<string>, got: seq<nat>) {
    |got| <= |names| && forall k :: 0 <= k < |got| ==> names[k] in managers && managers[names[k]] == Some(got[k])
  }

  ghost predicate Agrees(managers: map<string, Option<nat>>, answer: Answer) {
    match answer
    case Found(ws, id) => ws in managers && managers[ws] == Some(id)
    case Unknown(ws) => ws !in managers
    case Failed(ws) => ws in managers
    case ListFailed(ws) => ws in managers
    case Listed(names, ids) => |ids| == |names| && Lists(names, managers) && Collected(managers, names, ids)
  }

  ghost predicate Inv(s: State) {
    && LockHeld(s)
    && (forall t :: t in s.threads ==> Knows(s, s.threads[t]))
    && (forall i :: 0 <= i < |s.answers| ==> Agrees(s.managers, s.answers[i].answer))
    && (forall i :: 0 <= i < |s.created| ==> Has(s, s.created[i]))
    && (forall i, j :: 0 <= i < j < |s.created| ==> s.created[i] != s.created[j])
  }

  /** Managers are only ever added, for workspaces that are known, to those that have none. */
  ghost predicate Grows(m: map<string, Option<nat>>, n: map<string, Option<nat>>) {
    n.Keys == m.Keys && forall ws :: ws in m && m[ws].Some? ==> n[ws] == m[ws]
  }

  lemma GrowthKeepsAnswers(m: map<string, Option<nat>>, n: map<string, Option<nat>>, answer: Answer)
    requires Grows(m, n) && Agrees(m, answer)
    ensures Agrees(n, answer)
  {
  }

  lemma StepGrows(s: State, a: Action)
    requires Inv(s) && Step(s, a).Some?
    ensures Grows(s.managers, Step(s, a).value.managers)
  {
    assert Knows(s, s.threads[a.t]);
  }

  lemma StepKeepsLock(s: State, a: Action)
    requires LockHeld(s) && Step(s, a).Some?
    ensures LockHeld(Step(s, a).value)
  {
  }

  lemma OwnStepKeepsKnows(s: State, a: Action)
    requires Inv(s) && Step(s, a).Some?
    ensures var next := Step(s, a).value; a.t in next.threads && Knows(next, next.threads[a.t])
  {
    assert Knows(s, s.threads[a.t]);
  }

  /** Only the thread that holds the write lock changes the managers. */
  lemma LockExcludes(s: State, a: Action, t: nat)
    requires Inv(s) && Step(s, a).Some? && t in s.threads && t != a.t && HoldsLock(s.threads[t])
    ensures var next := Step(s, a).value; next.managers == s.managers
  {
  }

  lemma ThreadsLeaveEachOther(s: State, a: Action)
    requires Step(s, a).Some?
    ensures var next := Step(s, a).value; a.t in next.threads && next.threads == s.threads[a.t := next.threads[a.t]]
  {
  }

  lemma StepKeepsKnows(s: State, a: Action)
    requires Inv(s) && Step(s, a).Some?
    ensures var next := Step(s, a).value; forall t :: t in next.threads ==> Knows(next, next.threads[t])
  {
    var next := Step(s, a).value;
    ThreadsLeaveEachOther(s, a);
    OwnStepKeepsKnows(s, a);
    forall t | t in next.threads && t != a.t ensures Knows(next, next.threads[t]) {
      assert Knows(s, s.threads[t]);
      if HoldsLock(s.threads[t]) {
        LockExcludes(s, a, t);
      }
    }
  }

  lemma StepKeepsRecords(s: State, a: Action)
    requires Inv(s) && Step(s, a).Some?
    ensures var next := Step(s, a).value;
            && (forall i :: 0 <= i < |next.answers| ==> Agrees(next.managers, next.answers[i].answer))
            && (forall i :: 0 <= i < |next.created| ==> Has(next, next.created[i]))
            && (forall i, j :: 0 <= i < j < |next.created| ==> next.created[i] != next.created[j])
  {
    assert Knows(s, s.threads[a.t]);
    StepGrows(s, a);
    var next := Step(s, a).value;
    forall i | 0 <= i < |s.answers| ensures Agrees(next.managers, s.answers[i].answer) {
      GrowthKeepsAnswers(s.managers, next.managers, s.answers[i].answer);
    }
  }

  lemma {:induction false} RunKeepsInv(s: State, actions: seq<Action>)
    requires Inv(s) && Run(s, actions).Some?
    ensures Inv(Run(s, actions).value) && Grows(s.managers, Run(s, actions).value.managers)
  {
    if actions != [] {
      var n := |actions| - 1;
      RunKeepsInv(s, actions[..n]);
      var before := Run(s, actions[..n]).value;
      StepKeepsLock(before, actions[n]);
      StepKeepsKnows(before, actions[n]);
      StepKeepsRecords(before, actions[n]);
      StepGrows(before, actions[n]);
    }
  }

  lemma CreatesWhatIsMissing(s: State, a: Action, ws: string)
    requires Inv(s) && Step(s, a).Some? && Has(s, ws)
    ensures ws in Step(s, a).value.created ==> ws in s.created
  {
    assert Knows(s, s.threads[a.t]);
  }

  /** A workspace that reset knew about with a manager never has another one created. */
  lemma {:induction false} KnownManagersStay(s: State, actions: seq<Action>, ws: string)
    requires Inv(s) && Run(s, actions).Some? && Has(s, ws) && ws !in s.created
    ensures ws !in Run(s, actions).value.created
  {
    if actions != [] {
      var n := |actions| - 1;
      KnownManagersStay(s, actions[..n], ws);
      RunKeepsInv(s, actions[..n]);
      CreatesWhatIsMissing(Run(s, actions[..n]).value, actions[n], ws);
    }
  }

  lemma OneListing(names: seq<string>, others: seq<string>, managers: map<string, Option<nat>>)
    requires Lists(names, managers) && Lists(others, managers)
    ensures names == others
  {
    SortedListingUnique(names, others);
  }

  // ---------------------------------------------------------------- every call is answered, about what it asked for

  datatype Request = Lookup(workspace: string) | All

  /** What the calls of a thread ask for, in order; no name stands for the default workspace. */
  function Requests(defaultWorkspace: string, actions: seq<Action>, t: nat): seq<Request> {
    if actions == [] then []
    else Requests(defaultWorkspace, actions[..|actions| - 1], t) + RequestOf(defaultWorkspace, actions[|actions| - 1], t)
  }

  function RequestOf(defaultWorkspace: string, a: Action, t: nat): seq<Request> {
    if a.Call? && a.t == t then [Lookup(if a.workspace != "" then a.workspace else defaultWorkspace)]
    else if a.CallAll? && a.t == t then [All]
    else []
  }

  function Underway(pc: Pc): seq<Request> {
    match pc
    case Idle => []
    case Looking(ws) => [Lookup(ws)]
    case Wanting(ws) => [Lookup(ws)]
    case Checking(ws) => [Lookup(ws)]
    case Creating(ws) => [Lookup(ws)]
    case _ => [All]
  }

  function AnsweredBy(answer: Answer): Request {
    match answer
    case Found(ws, _) => Lookup(ws)
    case Unknown(ws) => Lookup(ws)
    case Failed(ws) => Lookup(ws)
    case _ => All
  }

  /** What the answers to a thread's calls were about, in order. */
  function Answered(answers: seq<Record>, t: nat): seq<Request> {
    if answers == [] then []
    else
      var last := answers[|answers| - 1];
      Answered(answers[..|answers| - 1], t) + if last.t == t then [AnsweredBy(last.answer)] else []
  }

  lemma AnsweredNext(answers: seq<Record>, last: Record, t: nat)
    ensures Answered(answers + [last], t) == Answered(answers, t) + if last.t == t then [AnsweredBy(last.answer)] else []
  {
    assert (answers + [last])[..|answers|] == answers;
  }

  /** A step answers its thread's request, or takes one up, or goes on with it. */
  ghost predicate Serves(s: State, next: State, t: nat, request: seq<Request>) {
    && next.defaultWorkspace == s.defaultWorkspace && t in s.threads && t in next.threads
    && next.threads == s.threads[t := next.threads[t]]
    && (|| (next.answers == s.answers && Underway(next.threads[t]) == Underway(s.threads[t]) + request)
        || (exists answer :: next.answers == s.answers + [Record(t, answer)] && [AnsweredBy(answer)] == Underway(s.threads[t])
              && next.threads[t] == Idle && request == []))
  }

  lemma StepServesRequest(s: State, a: Action)
    requires Step(s, a).Some?
    ensures Serves(s, Step(s, a).value, a.t, RequestOf(s.defaultWorkspace, a, a.t))
  {
    var next := Step(s, a).value;
    if next.answers != s.answers {
      var last := next.answers[|s.answers|];
      assert next.answers == s.answers + [Record(a.t, last.answer)];
    }
  }

  lemma ServesOwn(s: State, next: State, t: nat, request: seq<Request>)
    requires Serves(s, next, t, request)
    ensures Answered(next.answers, t) + Underway(next.threads[t]) == Answered(s.answers, t) + Underway(s.threads[t]) + request
  {
    var answered, underway := Answered(s.answers, t), Underway(s.threads[t]);
    if next.answers == s.answers {
      assert answered + (underway + request) == answered + underway + request;
    } else {
      var answer :| next.answers == s.answers + [Record(t, answer)] && [AnsweredBy(answer)] == underway && next.threads[t] == Idle;
      AnsweredNext(s.answers, Record(t, answer), t);
    }
  }

  lemma ServesOther(s: State, next: State, t: nat, request: seq<Request>, u: nat)
    requires Serves(s, next, t, request) && u != t && u in s.threads
    ensures u in next.threads && next.threads[u] == s.threads[u] && Answered(next.answers, u) == Answered(s.answers, u)
  {
    if next.answers != s.answers {
      var answer :| next.answers == s.answers + [Record(t, answer)];
      AnsweredNext(s.answers, Record(t, answer), u);
    }
  }

  /**
   In every run each call of a thread is answered once, in order, and about what it asked for: a
   lookup about the workspace it named, or about the default one when it named none.
   */
  lemma {:induction false} EveryCallIsAnswered(s: State, actions: seq<Action>, t: nat)
    requires t in s.threads && s.threads[t] == Idle && s.answers == [] && Run(s, actions).Some?
    ensures var last := Run(s, actions).value;
            && last.defaultWorkspace == s.defaultWorkspace && t in last.threads
            && Requests(s.defaultWorkspace, actions, t) == Answered(last.answers, t) + Underway(last.threads[t])
  {
    if actions != [] {
      var front := actions[..|actions| - 1];
      EveryCallIsAnswered(s, front, t);
      var now, a := Run(s, front).value, actions[|actions| - 1];
      StepServesRequest(now, a);
      if a.t == t {
        ServesOwn(now, Step(now, a).value, t, RequestOf(s.defaultWorkspace, a, t));
      } else {
        ServesOther(now, Step(now, a).value, a.t, RequestOf(s.defaultWorkspace, a, a.t), t);
      }
    }
  }

  // ---------------------------------------------------------------- where managers come from

  /** The manager was there after the reset, or is the one created for this workspace. */
  ghost predicate MadeFor(managers: map<string, Option<nat>>, nextId: nat, created: seq<string>, workspace: string, id: nat) {
    || (workspace in managers && managers[workspace] == Some(id))
    || (exists i :: 0 <= i < |created| && created[i] == workspace && id == nextId + i)
  }

  ghost predicate Origins(managers: map<string, Option<nat>>, nextId: nat, s: State) {
    && s.nextId == nextId + |s.created|
    && (forall ws :: Has(s, ws) ==> MadeFor(managers, nextId, s.created, ws, s.managers[ws].value))
  }

  lemma MadeForStays(managers: map<string, Option<nat>>, nextId: nat, created: seq<string>, ws: string, id: nat, more: string)
    requires MadeFor(managers, nextId, created, ws, id)
    ensures MadeFor(managers, nextId, created + [more], ws, id)
  {
    if !(ws in managers && managers[ws] == Some(id)) {
      var i :| 0 <= i < |created| && created[i] == ws && id == nextId + i;
      assert (created + [more])[i] == ws;
    }
  }

  lemma StepKeepsOrigins(managers: map<string, Option<nat>>, nextId: nat, s: State, a: Action)
    requires Origins(managers, nextId, s) && Step(s, a).Some?
    ensures Origins(managers, nextId, Step(s, a).value)
  {
    var next := Step(s, a).value;
    if next.created != s.created {
      var made := next.created[|s.created|];
      assert next.created == s.created + [made] && next.managers == s.managers[made := Some(s.nextId)];
      forall ws | Has(next, ws) ensures MadeFor(managers, nextId, next.created, ws, next.managers[ws].value) {
        if ws != made {
          MadeForStays(managers, nextId, s.created, ws, s.managers[ws].value, made);
        }
      }
    }
  }

  lemma {:induction false} RunKeepsOrigins(s: State, actions: seq<Action>)
    requires s.created == [] && Run(s, actions).Some?
    ensures Origins(s.managers, s.nextId, Run(s, actions).value)
  {
    if actions != [] {
      var front := actions[..|actions| - 1];
      RunKeepsOrigins(s, front);
      StepKeepsOrigins(s.managers, s.nextId, Run(s, front).value, actions[|actions| - 1]);
    }
  }

  /** Only a workspace without a manager after the reset can fail to get one. */
  lemma {:induction false} FailuresWereMissing(s: State, actions: seq<Action>)
    requires Inv(s) && s.answers == [] && Run(s, actions).Some?
    ensures var last := Run(s, actions).value;
            forall i :: 0 <= i < |last.answers| && (last.answers[i].answer.Failed? || last.answers[i].answer.ListFailed?) ==>
              last.answers[i].answer.workspace in s.managers && s.managers[last.answers[i].answer.workspace].None?
  {
    if actions != [] {
      var front, a := actions[..|actions| - 1], actions[|actions| - 1];
      FailuresWereMissing(s, front);
      RunKeepsInv(s, front);
      var now := Run(s, front).value;
      assert Knows(now, now.threads[a.t]);
    }
  }

  // ---------------------------------------------------------------- one call alone

  /** A lookup with nobody in between, step by step, does what the method does. */
  lemma LookupAlone(s: State, t: nat, workspace: string, fails: set<string>) returns (acts: seq<Action>, next: State)
    requires t in s.threads && s.threads[t] == Idle && s.writer == None
    ensures Run(s, acts) == Some(next)
    ensures var asked := if workspace == "" then s.defaultWorkspace else workspace;
            if asked !in s.managers then next == s.(answers := s.answers + [Record(t, Unknown(asked))])
            else if s.managers[asked].Some? then
              next == s.(answers := s.answers + [Record(t, Found(asked, s.managers[asked].value))])
            else if asked in fails then next == s.(answers := s.answers + [Record(t, Failed(asked))])
            else next == s.(managers := s.managers[asked := Some(s.nextId)], nextId := s.nextId + 1, created := s.created + [asked],
                            answers := s.answers + [Record(t, Found(asked, s.nextId))])
  {
    var asked := if workspace == "" then s.defaultWorkspace else workspace;
    var looking := Go(s, t, Looking(asked));
    acts := Then(s, [], s, Call(t, workspace), looking);
    next := Step(looking, Read(t)).value;
    acts := Then(s, acts, looking, Read(t), next);
    if Has(s, asked) {
      assert next.threads == s.threads;
    } else {
      var wanting := Go(s, t, Wanting(asked));
      assert next == wanting;
      var rest;
      rest, next := CreateAlone(wanting, t, asked, fails);
      Runs.Append(Step, s, acts, rest);
      acts := acts + rest;
      assert next.threads == s.threads;
    }
  }

  lemma Then(s: State, acts: seq<Action>, now: State, a: Action, next: State) returns (longer: seq<Action>)
    requires Run(s, acts) == Some(now) && Step(now, a) == Some(next)
    ensures Run(s, longer) == Some(next)
  {
    Runs.Next(Step, s, acts, now, a);
    longer := acts + [a];
  }

  lemma CreateAlone(s: State, t: nat, asked: string, fails: set<string>) returns (acts: seq<Action>, next: State)
    requires t in s.threads && s.threads[t] == Wanting(asked) && s.writer == None && !Has(s, asked)
    ensures Run(s, acts) == Some(next) && next.threads == s.threads[t := Idle] && next.writer == None
    ensures next.defaultWorkspace == s.defaultWorkspace
    ensures if asked in s.managers && asked !in fails then
              && next.managers == s.managers[asked := Some(s.nextId)] && next.nextId == s.nextId + 1
              && next.created == s.created + [asked] && next.answers == s.answers + [Record(t, Found(asked, s.nextId))]
            else
              && next.managers == s.managers && next.nextId == s.nextId && next.created == s.created
              && next.answers == s.answers + [Record(t, if asked in s.managers then Failed(asked) else Unknown(asked))]
  {
    var checking := Go(s, t, Checking(asked)).(writer := Some(t));
    acts := Then(s, [], s, Lock(t), checking);
    next := Step(checking, Check(t)).value;
    acts := Then(s, acts, checking, Check(t), next);
    if asked in s.managers {
      var creating := next;
      next := Step(creating, Create(t, asked !in fails)).value;
      acts := Then(s, acts, creating, Create(t, asked !in fails), next);
    }
    assert next.threads == s.threads[t := Idle];
  }

  /** What a listing answers, given the workspaces whose manager cannot be created. */
  ghost predicate ListAnswer(before: map<string, Option<nat>>, after: map<string, Option<nat>>, names: seq<string>, fails: set<string>,
                             answer: Answer)
  {
    if forall ws :: ws in before && before[ws].None? ==> ws !in fails then
      answer.Listed? && answer.names == names && |answer.ids| == |names| && Collected(after, names, answer.ids)
    else
      answer.ListFailed? && answer.workspace in fails && answer.workspace in before && before[answer.workspace].None?
  }

  /** The next name of a listing. */
  lemma ListOne(s: State, t: nat, fails: set<string>) returns (acts: seq<Action>, next: State)
    requires t in s.threads && s.threads[t].Listing? && s.writer == Some(t)
    requires |s.threads[t].got| < |s.threads[t].names| && s.threads[t].names[|s.threads[t].got|] in s.managers
    ensures Run(s, acts) == Some(next)
    ensures var names, got := s.threads[t].names, s.threads[t].got;
            var ws := names[|got|];
            next == if Has(s, ws) then Go(s, t, Listing(names, got + [s.managers[ws].value]))
                    else if ws in fails then Returns(s, t, ListFailed(ws))
                    else Go(Creates(s, ws), t, Listing(names, got + [s.nextId]))
  {
    var names, got := s.threads[t].names, s.threads[t].got;
    var ws := names[|got|];
    next := Step(s, Next(t)).value;
    acts := Then(s, [], s, Next(t), next);
    if !Has(s, ws) {
      var creating := next;
      next := Step(creating, CreateNext(t, ws !in fails)).value;
      acts := Then(s, acts, creating, CreateNext(t, ws !in fails), next);
      assert creating.threads[t := next.threads[t]] == s.threads[t := next.threads[t]];
    }
  }

  /** Creating a manager that can be created makes no difference to what the listing answers. */
  lemma SameListAnswer(before: map<string, Option<nat>>, mid: map<string, Option<nat>>, after: map<string, Option<nat>>, ws: string,
                       names: seq<string>, fails: set<string>, answer: Answer)
    requires mid == before || (ws in before && before[ws].None? && ws !in fails && mid.Keys == before.Keys && mid[ws].Some?
                               && forall other :: other in before && other != ws ==> mid[other] == before[other])
    requires ListAnswer(mid, after, names, fails, answer)
    ensures ListAnswer(before, after, names, fails, answer)
  {
  }

  lemma ListOneKnows(s: State, t: nat, fails: set<string>, next: State)
    requires t in s.threads && s.threads[t].Listing? && Knows(s, s.threads[t]) && |s.threads[t].got| < |s.threads[t].names|
    requires var names, got := s.threads[t].names, s.threads[t].got;
             var ws := names[|got|];
             next == if Has(s, ws) then Go(s, t, Listing(names, got + [s.managers[ws].value]))
                     else Go(Creates(s, ws), t, Listing(names, got + [s.nextId]))
    ensures Knows(next, next.threads[t]) && Grows(s.managers, next.managers)
  {
    var names, got := s.threads[t].names, s.threads[t].got;
    assert names[|got|] in names;
  }

  lemma {:induction false} ListRest(s: State, t: nat, fails: set<string>) returns (acts: seq<Action>, next: State, answer: Answer)
    requires t in s.threads && s.threads[t].Listing? && s.writer == Some(t) && Knows(s, s.threads[t])
    ensures Run(s, acts) == Some(next) && next.threads == s.threads[t := Idle] && next.writer == None
    ensures next.answers == s.answers + [Record(t, answer)]
    ensures Grows(s.managers, next.managers) && forall ws :: ws in s.managers && next.managers[ws] != s.managers[ws] ==> ws !in fails
    ensures ListAnswer(s.managers, next.managers, s.threads[t].names, fails, answer)
    decreases |s.threads[t].names| - |s.threads[t].got|
  {
    var names, got := s.threads[t].names, s.threads[t].got;
    if |got| == |names| {
      next, answer := Step(s, Next(t)).value, Listed(names, got);
      acts := Then(s, [], s, Next(t), next);
    } else {
      var ws := names[|got|];
      assert ws in names;
      var first, after := ListOne(s, t, fails);
      if !Has(s, ws) && ws in fails {
        acts, next, answer := first, after, ListFailed(ws);
      } else {
        ListOneKnows(s, t, fails, after);
        var rest;
        rest, next, answer := ListRest(after, t, fails);
        Runs.Append(Step, s, first, rest);
        acts := first + rest;
        assert next.threads == s.threads[t := Idle];
        SameListAnswer(s.managers, after.managers, next.managers, ws, names, fails, answer);
      }
    }
  }

  /** A listing with nobody in between, step by step, does what the method does. */
  lemma ListAlone(s: State, t: nat, names: seq<string>, fails: set<string>) returns (acts: seq<Action>, next: State, answer: Answer)
    requires t in s.threads && s.threads[t] == Idle && s.writer == None && Lists(names, s.managers)
    ensures Run(s, acts) == Some(next) && next.threads == s.threads && next.writer == None
    ensures next.answers == s.answers + [Record(t, answer)]
    ensures Grows(s.managers, next.managers) && forall ws :: ws in s.managers && next.managers[ws] != s.managers[ws] ==> ws !in fails
    ensures ListAnswer(s.managers, next.managers, names, fails, answer)
  {
    var wanting := Go(s, t, WantingAll);
    var listing := Go(wanting, t, Listing(names, [])).(writer := Some(t));
    var first := Then(s, [], s, CallAll(t), wanting);
    first := Then(s, first, wanting, LockAll(t, names), listing);
    var rest;
    rest, next, answer := ListRest(listing, t, fails);
    Runs.Append(Step, s, first, rest);
    acts := first + rest;
    assert next.threads == s.threads;
  }

  // ---------------------------------------------------------------- the whole

  /** A lookup or a listing that returned this manager for this workspace. */
  ghost predicate Gave(s: State, workspace: string, id: nat) {
    exists i :: 0 <= i < |s.answers| && GaveIn(s.answers[i].answer, workspace, id)
  }

  ghost predicate GaveIn(answer: Answer, workspace: string, id: nat) {
    || answer == Found(workspace, id)
    || (answer.Listed? && exists k :: 0 <= k < |answer.names| && k < |answer.ids|
                                      && answer.names[k] == workspace && answer.ids[k] == id)
  }

  /**
   Between two resets, under any interleaving of lookups and listings: the target set never
   changes, each workspace's manager is created at most once and never for a workspace that had
   one, all calls that succeed return the same manager for a workspace, which is the one that
   reset left there or that was created for it, exactly the workspaces that reset did not find are
   unknown, only workspaces without a manager can fail to get one, and every complete listing
   names every target once, in the same order.
   */
  lemma ManagersAreStable(defaultWorkspace: string, managers: map<string, Option<nat>>, nextId: nat, ids: set<nat>,
                          actions: seq<Action>)
    requires Run(AfterReset(defaultWorkspace, managers, nextId, ids), actions).Some?
    ensures var s := Run(AfterReset(defaultWorkspace, managers, nextId, ids), actions).value;
            && s.managers.Keys == managers.Keys
            && (forall i, j :: 0 <= i < j < |s.created| ==> s.created[i] != s.created[j])
            && (forall i :: 0 <= i < |s.created| ==> s.created[i] in managers && managers[s.created[i]].None?)
            && (forall ws, a: nat, b: nat :: Gave(s, ws, a) && Gave(s, ws, b) ==> a == b)
            && (forall ws, a: nat :: Gave(s, ws, a) ==> MadeFor(managers, nextId, s.created, ws, a))
            && (forall ws, a: nat :: Gave(s, ws, a) && ws in managers && managers[ws].Some? ==> managers[ws].value == a)
            && (forall i :: 0 <= i < |s.answers| ==> AnswerFits(managers, s.answers[i].answer))
            && (forall i, j :: 0 <= i < |s.answers| && 0 <= j < |s.answers| && s.answers[i].answer.Listed? && s.answers[j].answer.Listed? ==>
                  s.answers[i].answer.names == s.answers[j].answer.names)
  {
    var start := AfterReset(defaultWorkspace, managers, nextId, ids);
    RunKeepsInv(start, actions);
    RunKeepsOrigins(start, actions);
    FailuresWereMissing(start, actions);
    var s := Run(start, actions).value;
    forall i | 0 <= i < |s.created| ensures s.created[i] in managers && managers[s.created[i]].None? {
      if Has(start, s.created[i]) {
        KnownManagersStay(start, actions, s.created[i]);
      }
    }
    forall ws, a: nat | Gave(s, ws, a) ensures ws in s.managers && s.managers[ws] == Some(a) {
      var i :| 0 <= i < |s.answers| && GaveIn(s.answers[i].answer, ws, a);
      assert Agrees(s.managers, s.answers[i].answer);
    }
    forall i | 0 <= i < |s.answers| ensures AnswerFits(managers, s.answers[i].answer) {
      assert Agrees(s.managers, s.answers[i].answer);
    }
    forall i, j | 0 <= i < |s.answers| && 0 <= j < |s.answers| && s.answers[i].answer.Listed? && s.answers[j].answer.Listed?
      ensures s.answers[i].answer.names == s.answers[j].answer.names
    {
      assert AnswerFits(managers, s.answers[i].answer) && AnswerFits(managers, s.answers[j].answer);
      OneListing(s.answers[i].answer.names, s.answers[j].answer.names, managers);
    }
  }

  /** The kind of answer that what reset left allows. */
  ghost predicate AnswerFits(managers: map<string, Option<nat>>, answer: Answer) {
    match answer
    case Found(ws, _) => ws in managers
    case Unknown(ws) => ws !in managers
    case Failed(ws) => ws in managers && managers[ws].None?
    case ListFailed(ws) => ws in managers && managers[ws].None?
    case Listed(names, ids) => Lists(names, managers) && |ids| == |names|
  }
}
