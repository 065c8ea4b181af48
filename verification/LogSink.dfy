/**
 pkg/logging/sink.go: the log destination that reloads swap under writers' feet.

 Opening a file is an input that may fail; files are numbered in the order in which they are
 opened. Write holds mu's read lock, and the swap of Reload and Close its write lock.
 */
module LogSink {
  import opened Common
  import Runs

  const STDERR := "stderr"

  datatype Writer = Unset | Discard | HttpOut | ErrOut | ToFile(id: nat)

  /** What Reload and Close replace. */
  datatype Sink = Sink(httpMode: bool, writer: Writer, file: Option<nat>, lastLogFile: string, applied: bool)

  datatype File = File(path: string, open: bool, closes: nat)

  /** applyDestination does nothing when a destination without a file is asked for again. */
  predicate Unchanged(s: Sink, logFile: string) {
    s.applied && logFile == s.lastLogFile && (logFile == "" || logFile == STDERR)
  }

  predicate NeedsFile(logFile: string) {
    logFile != "" && logFile != STDERR
  }

  /** The writer that a log_file setting asks for; `id` is the file opened for it, if one is needed. */
  function Destination(httpMode: bool, logFile: string, id: nat): Writer {
    if logFile == "" then (if httpMode then HttpOut else Discard)
    else if logFile == STDERR then ErrOut
    else ToFile(id)
  }

  function Noted(s: Sink, logFile: string): Sink {
    s.(lastLogFile := logFile, applied := true)
  }

  function Swapped(s: Sink, writer: Writer, file: Option<nat>): Sink {
    s.(writer := writer, file := file)
  }

  function ClosedAt(files: seq<File>, id: Option<nat>): seq<File> {
    if id.None? || id.value >= |files| then files
    else files[id.value := files[id.value].(open := false, closes := files[id.value].closes + 1)]
  }

  /** A setting that is a path, and not one of the two that need no file. */
  predicate IsPath(logFile: string) {
    logFile != "" && logFile != "stderr"
  }

  /**
   Where a log_file setting sends the log: with none, to the HTTP server's output, and nowhere in
   stdio mode, where standard output is the protocol's; to standard error; or to the file opened for it.
   */
  predicate Names(httpMode: bool, logFile: string, writer: Writer, newFile: nat) {
    && (logFile == "" && httpMode ==> writer == HttpOut)
    && (logFile == "" && !httpMode ==> writer == Discard)
    && (logFile == "stderr" ==> writer == ErrOut)
    && (IsPath(logFile) ==> writer == ToFile(newFile))
  }

  /**
   What applying a setting makes of a sink and its files: nothing when the open fails, or the
   destination needs no file and is in place already; otherwise the new destination is in place,
   its file opened and the old one closed.
   */
  predicate Applies(was: Sink, before: seq<File>, now: Sink, after: seq<File>, logFile: string, openFails: bool) {
    if (IsPath(logFile) && openFails) || (!IsPath(logFile) && was.applied && logFile == was.lastLogFile) then
      now == was && after == before
    else
      && now.httpMode == was.httpMode && now.lastLogFile == logFile && now.applied
      && Names(was.httpMode, logFile, now.writer, |before|)
      && now.file == (if IsPath(logFile) then Some(|before|) else None)
      && after == ClosedAt(if IsPath(logFile) then before + [File(logFile, true, 0)] else before, was.file)
  }

  // ---------------------------------------------------------------- the sink object

  class FileTable {
    var files: seq<File>

    constructor ()
      ensures files == []
    {
      files := [];
    }

    method Open(path: string) returns (id: nat)
      modifies this
      ensures id == |old(files)| && files == old(files) + [File(path, true, 0)]
    {
      id := |files|;
      files := files + [File(path, true, 0)];
    }

    method Close(id: nat)
      requires id < |files|
      modifies this
      ensures files == old(files)[id := old(files)[id].(open := false, closes := old(files)[id].closes + 1)]
    {
      files := files[id := files[id].(open := false, closes := files[id].closes + 1)];
    }
  }

  /** The sink between critical sections: what it writes to is open, and it owns that file alone. */
  predicate Settled(s: Sink, files: seq<File>) {
    && Matches(s.writer, s.file)
    && (s.file.Some? ==> s.file.value < |files| && files[s.file.value].open)
    && (forall i :: 0 <= i < |files| && files[i].open ==> s.file == Some(i))
    && (forall i :: 0 <= i < |files| ==> files[i].closes == if files[i].open then 0 else 1)
  }

  /** One more file is open, which the sink is about to get. */
  predicate SettledBut(s: Sink, files: seq<File>, newFile: Option<nat>) {
    && (s.file.Some? ==> s.file.value < |files| && files[s.file.value].open)
    && (newFile.Some? ==> newFile.value < |files| && files[newFile.value].open && newFile != s.file)
    && (forall i :: 0 <= i < |files| && files[i].open ==> s.file == Some(i) || newFile == Some(i))
    && (forall i :: 0 <= i < |files| ==> files[i].closes == if files[i].open then 0 else 1)
  }

  predicate Matches(writer: Writer, file: Option<nat>) {
    match writer case ToFile(id) => file == Some(id) case _ => file.None?
  }

  class SinkObject {
    const httpMode: bool
    var writer: Writer
    var file: Option<nat>
    var lastLogFile: string
    var applied: bool
    const disk: FileTable

    function Abs(): Sink
      reads this
    {
      Sink(httpMode, writer, file, lastLogFile, applied)
    }

    ghost predicate Valid()
      reads this, disk
    {
      Settled(Abs(), disk.files)
    }

    constructor (httpMode: bool)
      ensures Valid() && Abs() == Sink(httpMode, Unset, None, "", false) && fresh(disk)
    {
      this.httpMode, writer, file, lastLogFile, applied := httpMode, Unset, None, "", false;
      disk := new FileTable();
    }

    /** The writer that a Write reaches; before the first Reload the text is dropped. */
    method Write() returns (to: Writer)
      requires Valid()
      ensures to == if writer.Unset? then Discard else writer
      ensures to.ToFile? ==> to.id < |disk.files| && disk.files[to.id].open
    {
      if writer.Unset? { return Discard; }
      return writer;
    }

    /** The part under the write lock: `newFile` is open already, and nobody else's. */
    method Swap(newWriter: Writer, newFile: Option<nat>)
      requires Matches(newWriter, newFile) && SettledBut(Abs(), disk.files, newFile)
      modifies this`writer, this`file, disk
      ensures Valid()
      ensures writer == newWriter && file == newFile && disk.files == ClosedAt(old(disk.files), old(file))
    {
      var oldFile := file;
      writer, file := newWriter, newFile;
      if oldFile.Some? {
        disk.Close(oldFile.value);
      }
    }

    /** A failed open changes nothing at all; otherwise the old file is closed and the new destination is in place. */
    method ApplyDestination(logFile: string, openFails: bool) returns (ok: bool)
      requires Valid()
      modifies this, disk
      ensures Valid()
      ensures ok <==> !IsPath(logFile) || !openFails
      ensures Applies(old(Abs()), old(disk.files), Abs(), disk.files, logFile, openFails)
    {
      if applied && logFile == lastLogFile && (logFile == "" || logFile == STDERR) { return true; }
      var newFile: Option<nat> := None;
      var newWriter := Discard;
      if logFile == "" {
        if httpMode { newWriter := HttpOut; }
      } else if logFile == STDERR {
        newWriter := ErrOut;
      } else {
        if openFails { return false; }
        var f := disk.Open(logFile);
        newFile, newWriter := Some(f), ToFile(f);
      }
      lastLogFile, applied := logFile, true;
      Swap(newWriter, newFile);
      ok := true;
    }

    /** Close is idempotent, and what is logged after it goes to stderr. */
    method Close()
      requires Valid()
      modifies this, disk
      ensures Valid()
      ensures Abs() == Swapped(old(Abs()), ErrOut, None)
      ensures old(file).None? ==> disk.files == old(disk.files)
    {
      writer := ErrOut;
      var oldFile := file;
      file := None;
      if oldFile.Some? {
        disk.Close(oldFile.value);
      }
    }
  }

  // ---------------------------------------------------------------- writers, reloads and Close interleaved

  datatype Phase =
    | Idle
    | Writing(current: Writer)                                // holds the read lock, has read s.writer
    | Opened(logFile: string, writer: Writer, file: Option<nat>)
    | Ready(logFile: string, writer: Writer, file: Option<nat>)      // lastLogFile is set
    | Locked(writer: Writer, file: Option<nat>, noted: bool)         // holds the write lock from here on
    | Taken(previous: Option<nat>, file: Option<nat>, noted: bool)   // the writer is in place, the old file read
    | Closing(previous: Option<nat>, noted: bool)                    // the new file stored, the old one still open
    | ClosePending

  /** `writes` records where each Write went and whether that was open; `closed` is set by Close until the next swap. */
  datatype State = State(sink: Sink, files: seq<File>, threads: map<nat, Phase>, writes: seq<WriteRecord>, closed: bool)

  datatype WriteRecord = WriteRecord(writer: Writer, reachedClosedFile: bool)

  datatype Action =
    | BeginWrite(t: nat)
    | DoWrite(t: nat)
    | EndWrite(t: nat)
    | BeginReload(t: nat, logFile: string, openFails: bool)
    | Note(t: nat)
    | BeginClose(t: nat)
    | Lock(t: nat)
    | SwapWriter(t: nat)
    | StoreFile(t: nat)
    | CloseOld(t: nat)

  predicate IsOpen(files: seq<File>, id: nat) {
    id < |files| && files[id].open
  }

  predicate Exclusive(phase: Phase) {
    phase.Locked? || phase.Taken? || phase.Closing?
  }

  predicate Reloading(phase: Phase) {
    phase.Opened? || phase.Ready? || (Exclusive(phase) && phase.noted)
  }

  /** RLock needs no writer inside, Lock nobody at all. */
  ghost predicate MayRead(s: State) {
    forall t :: t in s.threads ==> !Exclusive(s.threads[t])
  }

  ghost predicate MayLock(s: State) {
    forall t :: t in s.threads ==> !Exclusive(s.threads[t]) && !s.threads[t].Writing?
  }

  function Go(s: State, t: nat, phase: Phase): State {
    s.(threads := s.threads[t := phase])
  }

  ghost function Step(s: State, a: Action): Option<State> {
    if a.t !in s.threads then None
    else
      var phase := s.threads[a.t];
      match a
      case BeginWrite(t) =>
        if phase == Idle && MayRead(s) then Some(Go(s, t, Writing(s.sink.writer))) else None
      case DoWrite(t) =>
        if !phase.Writing? then None
        else
          var bad := phase.current.ToFile? && !IsOpen(s.files, phase.current.id);
          Some(s.(writes := s.writes + [WriteRecord(phase.current, bad)]))
      case EndWrite(t) =>
        if phase.Writing? then Some(Go(s, t, Idle)) else None
      case BeginReload(t, logFile, openFails) =>
        if phase != Idle then None
        else if Unchanged(s.sink, logFile) then Some(s)
        else if !NeedsFile(logFile) then Some(Go(s, t, Opened(logFile, Destination(s.sink.httpMode, logFile, 0), None)))
        else if openFails then Some(s)
        else
          var id := |s.files|;
          Some(Go(s, t, Opened(logFile, ToFile(id), Some(id))).(files := s.files + [File(logFile, true, 0)]))
      case Note(t) =>
        if !phase.Opened? then None
        else Some(Go(s, t, Ready(phase.logFile, phase.writer, phase.file)).(sink := Noted(s.sink, phase.logFile)))
      case BeginClose(t) =>
        if phase == Idle then Some(Go(s, t, ClosePending)) else None
      case Lock(t) =>
        if !MayLock(s) then None
        else if phase.Ready? then Some(Go(s, t, Locked(phase.writer, phase.file, true)))
        else if phase.ClosePending? then Some(Go(s, t, Locked(ErrOut, None, false)))
        else None
      case SwapWriter(t) =>
        if !phase.Locked? then None
        else Some(Go(s, t, Taken(s.sink.file, phase.file, phase.noted))
                  .(sink := s.sink.(writer := phase.writer), closed := !phase.noted))
      case StoreFile(t) =>
        if !phase.Taken? then None
        else Some(Go(s, t, Closing(phase.previous, phase.noted)).(sink := s.sink.(file := phase.file)))
      case CloseOld(t) =>
        if !phase.Closing? then None
        else if phase.previous.None? || phase.previous.value >= |s.files| then Some(Go(s, t, Idle))
        else
          var f := s.files[phase.previous.value];
          Some(Go(s, t, Idle).(files := s.files[phase.previous.value := f.(open := false, closes := f.closes + 1)]))
  }

  ghost function Run(s: State, actions: seq<Action>): Option<State> {
    Runs.Run(Step, s, actions)
  }

  /** New has applied the first destination before anyone can write. */
  function Started(sink: Sink, files: seq<File>, ids: set<nat>): State {
    State(sink, files, map t | t in ids :: Idle, [], false)
  }

  /** The file a thread holds: opened and not swapped in yet, or swapped out and not closed yet. */
  function Held(phase: Phase): Option<nat> {
    match phase
    case Opened(_, _, file) => file
    case Ready(_, _, file) => file
    case Locked(_, file, _) => file
    case Taken(_, file, _) => file
    case Closing(previous, _) => previous
    case _ => None
  }

  predicate PhaseMatches(phase: Phase) {
    match phase
    case Opened(_, writer, file) => Matches(writer, file)
    case Ready(_, writer, file) => Matches(writer, file)
    case Locked(writer, file, noted) => Matches(writer, file) && (noted || writer == ErrOut)
    case _ => true
  }

  ghost predicate LockDiscipline(s: State) {
    forall t, u :: t in s.threads && u in s.threads && t != u && Exclusive(s.threads[t]) ==>
      !Exclusive(s.threads[u]) && !s.threads[u].Writing?
  }

  ghost predicate WritersMatch(s: State) {
    && (forall t :: t in s.threads ==> PhaseMatches(s.threads[t]) && SwapMatches(s.sink, s.threads[t]))
    && ((forall t :: t in s.threads ==> !s.threads[t].Taken?) ==> Matches(s.sink.writer, s.sink.file))
  }

  /** In the middle of a swap the writer goes with the file about to be stored, and the file taken is the sink's. */
  predicate SwapMatches(sink: Sink, phase: Phase) {
    phase.Taken? ==> Matches(sink.writer, phase.file) && phase.previous == sink.file
  }

  /** Whoever is in the middle of a Write writes to the sink's present writer. */
  ghost predicate WritersCurrent(s: State) {
    forall t :: t in s.threads && s.threads[t].Writing? ==> s.threads[t].current == s.sink.writer
  }

  /** What the sink owns and what a thread holds is open, and belongs to it alone. */
  ghost predicate Ownership(s: State) {
    && (s.sink.file.Some? ==> IsOpen(s.files, s.sink.file.value))
    && (forall t :: t in s.threads ==> OwnOpen(s, t))
    && (forall t, u :: t in s.threads && u in s.threads && t != u ==> Apart(s.threads[t], s.threads[u]))
  }

  predicate OwnOpen(s: State, t: nat)
    requires t in s.threads
  {
    Held(s.threads[t]).Some? ==> IsOpen(s.files, Held(s.threads[t]).value) && Held(s.threads[t]) != s.sink.file
  }

  predicate Apart(p: Phase, q: Phase) {
    Held(p).Some? ==> Held(p) != Held(q)
  }

  /** Every open file is the sink's own or held by exactly one thread, and files close once. */
  ghost predicate NoLeaks(s: State) {
    && (forall i :: 0 <= i < |s.files| && s.files[i].open ==>
          s.sink.file == Some(i) || exists t :: t in s.threads && Held(s.threads[t]) == Some(i))
    && (forall i :: 0 <= i < |s.files| ==> s.files[i].closes == if s.files[i].open then 0 else 1)
  }

  ghost predicate CleanWrites(s: State) {
    forall i :: 0 <= i < |s.writes| ==> !s.writes[i].reachedClosedFile
  }

  ghost predicate Inv(s: State) {
    LockDiscipline(s) && WritersMatch(s) && WritersCurrent(s) && Ownership(s) && NoLeaks(s) && CleanWrites(s)
  }

  lemma StepKeepsLocks(s: State, a: Action)
    requires LockDiscipline(s) && Step(s, a).Some?
    ensures LockDiscipline(Step(s, a).value)
  {
  }

  lemma StepKeepsWriters(s: State, a: Action)
    requires LockDiscipline(s) && WritersMatch(s) && Step(s, a).Some?
    ensures WritersMatch(Step(s, a).value)
  {
    var next := Step(s, a).value;
    ThreadsLeaveEachOther(s, a);
    if Exclusive(s.threads[a.t]) {
      assert forall u :: u in s.threads && u != a.t ==> !s.threads[u].Taken?;
    }
    assert a.SwapWriter? ==> next.threads[a.t].Taken?;
    assert !Exclusive(s.threads[a.t]) ==> next.sink.writer == s.sink.writer && next.sink.file == s.sink.file;
    assert PhaseMatches(next.threads[a.t]) && SwapMatches(next.sink, next.threads[a.t]);
  }

  lemma ThreadsLeaveEachOther(s: State, a: Action)
    requires Step(s, a).Some?
    ensures var next := Step(s, a).value;
            a.t in next.threads && next.threads.Keys == s.threads.Keys
            && forall u :: u in s.threads && u != a.t ==> next.threads[u] == s.threads[u]
  {
  }

  /** No swap happens while somebody is in the middle of a Write. */
  lemma StepKeepsWritersCurrent(s: State, a: Action)
    requires LockDiscipline(s) && WritersCurrent(s) && Step(s, a).Some?
    ensures WritersCurrent(Step(s, a).value)
  {
  }

  lemma StepKeepsCleanWrites(s: State, a: Action)
    requires Inv(s) && Step(s, a).Some?
    ensures CleanWrites(Step(s, a).value)
  {
    if a.DoWrite? {
      assert forall t :: t in s.threads ==> !s.threads[t].Taken?;
    }
  }

  /** What a step of thread t does to the files: nothing, open one, swap with the sink, or close the one it holds. */
  ghost predicate Moves(s: State, next: State, t: nat) {
    && t in s.threads && t in next.threads && next.threads == s.threads[t := next.threads[t]]
    && var was, now := Held(s.threads[t]), Held(next.threads[t]);
       || (next.files == s.files && next.sink.file == s.sink.file && now == was)
       || (next.files == s.files && next.sink.file == was && now == s.sink.file)
       || (next.sink.file == s.sink.file && was.None? && now == Some(|s.files|) && Opens(s.files, next.files))
       || (next.sink.file == s.sink.file && now.None? && was.Some? && Closes(s.files, next.files, was.value))
  }

  ghost predicate Opens(files: seq<File>, next: seq<File>) {
    exists path :: next == files + [File(path, true, 0)]
  }

  predicate Closes(files: seq<File>, next: seq<File>, id: nat) {
    && id < |files|
    && next == files[id := files[id].(open := false, closes := files[id].closes + 1)]
  }

  lemma StepMoves(s: State, a: Action)
    requires WritersMatch(s) && Ownership(s) && Step(s, a).Some?
    ensures Moves(s, Step(s, a).value, a.t)
  {
    if a.BeginReload? {
      ReloadMoves(s, a);
    } else if a.CloseOld? {
      CloseMoves(s, a);
    }
  }

  lemma ReloadMoves(s: State, a: Action)
    requires a.BeginReload? && Step(s, a).Some?
    ensures Moves(s, Step(s, a).value, a.t)
  {
    assert Opens(s.files, s.files + [File(a.logFile, true, 0)]);
  }

  lemma CloseMoves(s: State, a: Action)
    requires a.CloseOld? && Ownership(s) && Step(s, a).Some?
    ensures Moves(s, Step(s, a).value, a.t)
  {
    assert OwnOpen(s, a.t);
  }

  lemma MovesKeepOwnership(s: State, next: State, t: nat)
    requires Ownership(s) && Moves(s, next, t)
    ensures Ownership(next)
  {
    assert OwnOpen(s, t);
    forall u | u in s.threads && u != t
      ensures OwnOpen(next, u) && Apart(next.threads[t], s.threads[u]) && Apart(s.threads[u], next.threads[t])
    {
      assert Apart(s.threads[t], s.threads[u]) && Apart(s.threads[u], s.threads[t]) && OwnOpen(s, u);
    }
    assert OwnOpen(next, t);
  }

  lemma MovesKeepNoLeaks(s: State, next: State, t: nat)
    requires Ownership(s) && NoLeaks(s) && Moves(s, next, t)
    ensures NoLeaks(next)
  {
    assert OwnOpen(s, t);
    forall i | 0 <= i < |next.files| && next.files[i].open
      ensures next.sink.file == Some(i) || exists u :: u in next.threads && Held(next.threads[u]) == Some(i)
    {
      if i == |s.files| || next.sink.file == Some(i) || Held(next.threads[t]) == Some(i) {
      } else {
        var u :| u in s.threads && Held(s.threads[u]) == Some(i);
        assert Held(next.threads[u]) == Some(i);
      }
    }
  }

  lemma {:induction false} RunKeepsInv(s: State, actions: seq<Action>)
    requires Inv(s) && Run(s, actions).Some?
    ensures Inv(Run(s, actions).value)
  {
    if actions != [] {
      var before := Run(s, actions[..|actions| - 1]).value;
      RunKeepsInv(s, actions[..|actions| - 1]);
      var a := actions[|actions| - 1];
      StepKeepsLocks(before, a);
      StepKeepsWriters(before, a);
      StepKeepsWritersCurrent(before, a);
      StepKeepsCleanWrites(before, a);
      StepMoves(before, a);
      MovesKeepOwnership(before, Run(s, actions).value, a.t);
      MovesKeepNoLeaks(before, Run(s, actions).value, a.t);
    }
  }

  /**
   With any number of writers, reloads and Closes at once: no Write reaches a closed file,
   no file is closed twice, and the only open files are the sink's own and those a thread
   has opened but not swapped in, or swapped out but not closed yet.
   */
  lemma FilesAreSafe(sink: Sink, files: seq<File>, ids: set<nat>, actions: seq<Action>)
    requires Settled(sink, files) && Run(Started(sink, files, ids), actions).Some?
    ensures var s := Run(Started(sink, files, ids), actions).value;
            && (forall i :: 0 <= i < |s.writes| ==> !s.writes[i].reachedClosedFile)
            && (forall i :: 0 <= i < |s.files| ==> s.files[i].closes <= 1)
            && (forall i :: 0 <= i < |s.files| && s.files[i].open ==>
                  s.sink.file == Some(i) || exists t :: t in s.threads && Held(s.threads[t]) == Some(i))
            && (s.sink.writer.ToFile? ==> s.sink.writer.id < |s.files| && s.files[s.sink.writer.id].open)
  {
    var start := Started(sink, files, ids);
    RunKeepsInv(start, actions);
    var s := Run(start, actions).value;
    if t :| t in s.threads && s.threads[t].Taken? {
      assert OwnOpen(s, t) && SwapMatches(s.sink, s.threads[t]);
    }
  }

  // ---------------------------------------------------------------- a single reloader

  /** Writing to what log_file names. */
  predicate WritesTo(httpMode: bool, logFile: string, writer: Writer, files: seq<File>) {
    && (logFile == "" && httpMode ==> writer == HttpOut)
    && (logFile == "" && !httpMode ==> writer == Discard)
    && (logFile == "stderr" ==> writer == ErrOut)
    && (IsPath(logFile) ==> writer.ToFile? && writer.id < |files| && files[writer.id].path == logFile)
  }

  /** The log_file of the last Reload call that did not fail. */
  function LastAccepted(first: string, actions: seq<Action>): string {
    if actions == [] then first
    else
      var a := actions[|actions| - 1];
      if a.BeginReload? && !(NeedsFile(a.logFile) && a.openFails) then a.logFile
      else LastAccepted(first, actions[..|actions| - 1])
  }

  /**
   The writer that this last accepted call asked for: what its log_file names, and for a file the
   very one it opened, the next of all files, even when the path is the same as before.
   */
  ghost function LastAsked(start: State, actions: seq<Action>): Writer {
    if actions == [] then start.sink.writer
    else
      var front, a := actions[..|actions| - 1], actions[|actions| - 1];
      if a.BeginReload? && !(NeedsFile(a.logFile) && a.openFails) then
        Destination(start.sink.httpMode, a.logFile, if Run(start, front).Some? then |Run(start, front).value.files| else 0)
      else LastAsked(start, front)
  }

  /** Only these threads call Reload. */
  predicate OnlyReload(reloaders: set<nat>, actions: seq<Action>) {
    forall i :: 0 <= i < |actions| && actions[i].BeginReload? ==> actions[i].t in reloaders
  }

  ghost predicate Alone(s: State, r: nat) {
    && s.sink.applied && r in s.threads
    && (forall t :: t in s.threads && Reloading(s.threads[t]) ==> t == r)
    && (s.closed ==> s.sink.writer == ErrOut)
  }

  /** How far thread r's current Reload has come. */
  ghost predicate InStep(s: State, r: nat, accepted: string, asked: Writer) {
    && r in s.threads
    && WritesTo(s.sink.httpMode, accepted, asked, s.files)
    && (match s.threads[r]
        case Opened(logFile, writer, _) => logFile == accepted && writer == asked
        case Ready(_, writer, _) => s.sink.lastLogFile == accepted && writer == asked
        case Locked(writer, _, noted) => s.sink.lastLogFile == accepted && (noted ==> writer == asked)
        case _ => s.sink.lastLogFile == accepted)
    && (s.closed || Superseded(s.threads[r]) || s.sink.writer == asked)
  }

  /** Until the swap the writer is still an earlier one. */
  predicate Superseded(phase: Phase) {
    phase.Opened? || phase.Ready? || (phase.Locked? && phase.noted)
  }

  lemma StepStaysAlone(s: State, a: Action, r: nat)
    requires WritersMatch(s) && Alone(s, r) && Step(s, a).Some?
    requires a.BeginReload? ==> a.t == r
    ensures Alone(Step(s, a).value, r)
  {
  }

  lemma FilesKeepPaths(s: State, a: Action)
    requires Step(s, a).Some?
    ensures var next := Step(s, a).value;
            && |s.files| <= |next.files|
            && (forall i :: 0 <= i < |s.files| ==> next.files[i].path == s.files[i].path)
  {
  }

  lemma OtherStaysInStep(s: State, a: Action, r: nat, accepted: string, asked: Writer)
    requires Alone(s, r) && InStep(s, r, accepted, asked) && Step(s, a).Some? && a.t != r && !a.BeginReload?
    ensures InStep(Step(s, a).value, r, accepted, asked)
  {
    FilesKeepPaths(s, a);
  }

  lemma OwnStaysInStep(s: State, a: Action, r: nat, accepted: string, asked: Writer)
    requires Alone(s, r) && InStep(s, r, accepted, asked) && Step(s, a).Some? && a.t == r && !a.BeginReload?
    ensures InStep(Step(s, a).value, r, accepted, asked)
  {
    FilesKeepPaths(s, a);
  }

  lemma ReloadStaysInStep(s: State, a: Action, r: nat, accepted: string, asked: Writer)
    requires Alone(s, r) && InStep(s, r, accepted, asked) && Step(s, a).Some? && a.t == r && a.BeginReload?
    ensures if NeedsFile(a.logFile) && a.openFails then InStep(Step(s, a).value, r, accepted, asked)
            else InStep(Step(s, a).value, r, a.logFile, Destination(s.sink.httpMode, a.logFile, |s.files|))
  {
    FilesKeepPaths(s, a);
  }

  lemma {:induction false} RunStaysInStep(s: State, actions: seq<Action>, r: nat, accepted: string)
    requires Inv(s) && Alone(s, r) && InStep(s, r, accepted, s.sink.writer) && Run(s, actions).Some? && OnlyReload({r}, actions)
    ensures Alone(Run(s, actions).value, r)
    ensures InStep(Run(s, actions).value, r, LastAccepted(accepted, actions), LastAsked(s, actions))
  {
    if actions != [] {
      var n := |actions| - 1;
      RunStaysInStep(s, actions[..n], r, accepted);
      RunKeepsInv(s, actions[..n]);
      RunKeepsMode(s, actions[..n]);
      var before, a := Run(s, actions[..n]).value, actions[n];
      var was, asked := LastAccepted(accepted, actions[..n]), LastAsked(s, actions[..n]);
      StepStaysAlone(before, a, r);
      if a.BeginReload? {
        ReloadStaysInStep(before, a, r, was, asked);
      } else if a.t == r {
        OwnStaysInStep(before, a, r, was, asked);
      } else {
        OtherStaysInStep(before, a, r, was, asked);
      }
    }
  }

  lemma {:induction false} RunKeepsMode(s: State, actions: seq<Action>)
    requires Run(s, actions).Some?
    ensures Run(s, actions).value.sink.httpMode == s.sink.httpMode
  {
    if actions != [] {
      RunKeepsMode(s, actions[..|actions| - 1]);
    }
  }

  /**
   With a single reloader, whenever it is between two Reload calls the sink writes to the very
   writer that the last accepted one asked for, a file that call itself opened even when its path
   was the same as before, or to stderr if Close has swapped since: whatever writers and Closes do
   meanwhile, and however many reloads failed.
   */
  lemma WriterIsLastAccepted(sink: Sink, files: seq<File>, ids: set<nat>, actions: seq<Action>, r: nat)
    requires Settled(sink, files) && sink.applied && WritesTo(sink.httpMode, sink.lastLogFile, sink.writer, files)
    requires r in ids && OnlyReload({r}, actions)
    requires Run(Started(sink, files, ids), actions).Some?
    ensures var s, asked := Run(Started(sink, files, ids), actions).value, LastAsked(Started(sink, files, ids), actions);
            && r in s.threads
            && (s.threads[r] == Idle ==>
                  && s.sink.lastLogFile == LastAccepted(sink.lastLogFile, actions)
                  && WritesTo(sink.httpMode, s.sink.lastLogFile, asked, s.files)
                  && s.sink.writer == if s.closed then ErrOut else asked)
  {
    var s := Started(sink, files, ids);
    RunStaysInStep(s, actions, r, sink.lastLogFile);
    RunKeepsMode(s, actions);
  }

  /** So while nobody has closed the sink, standard output gets the log in HTTP mode without a log_file, and only then. */
  lemma HttpOutExactlyWhen(sink: Sink, files: seq<File>, ids: set<nat>, actions: seq<Action>, r: nat)
    requires Settled(sink, files) && sink.applied && WritesTo(sink.httpMode, sink.lastLogFile, sink.writer, files)
    requires r in ids && OnlyReload({r}, actions)
    requires Run(Started(sink, files, ids), actions).Some?
    ensures var s := Run(Started(sink, files, ids), actions).value;
            r in s.threads && s.threads[r] == Idle && !s.closed ==>
              (s.sink.writer == HttpOut <==> sink.httpMode && LastAccepted(sink.lastLogFile, actions) == "")
  {
    WriterIsLastAccepted(sink, files, ids, actions, r);
  }

  // ---------------------------------------------------------------- standard output in stdio mode

  predicate PhaseWriter(phase: Phase, writer: Writer) {
    match phase
    case Writing(current) => current == writer
    case Opened(_, w, _) => w == writer
    case Ready(_, w, _) => w == writer
    case Locked(w, _, _) => w == writer
    case _ => false
  }

  ghost predicate NowhereHttpOut(s: State) {
    && !s.sink.httpMode && s.sink.writer != HttpOut
    && (forall t :: t in s.threads ==> !PhaseWriter(s.threads[t], HttpOut))
    && (forall i :: 0 <= i < |s.writes| ==> s.writes[i].writer != HttpOut)
  }

  lemma StepKeepsOffHttpOut(s: State, a: Action)
    requires NowhereHttpOut(s) && Step(s, a).Some?
    ensures NowhereHttpOut(Step(s, a).value)
  {
    assert !PhaseWriter(s.threads[a.t], HttpOut);
  }

  /**
   A stdio server never logs to standard output, where the protocol runs: in no interleaving of
   writers, reloads and Closes, with any settings, does a Write go there.
   */
  lemma {:induction false} StdioLogsStayOffStdout(sink: Sink, files: seq<File>, ids: set<nat>, actions: seq<Action>)
    requires !sink.httpMode && sink.writer != HttpOut && Run(Started(sink, files, ids), actions).Some?
    ensures NowhereHttpOut(Run(Started(sink, files, ids), actions).value)
  {
    if actions != [] {
      var front := actions[..|actions| - 1];
      StdioLogsStayOffStdout(sink, files, ids, front);
      StepKeepsOffHttpOut(Run(Started(sink, files, ids), front).value, actions[|actions| - 1]);
    }
  }

  // ---------------------------------------------------------------- two reloaders

  /** The part of a Reload before the lock. */
  lemma Prepares(s: State, t: nat, logFile: string) returns (acts: seq<Action>, next: State)
    requires t in s.threads && s.threads[t] == Idle && !Unchanged(s.sink, logFile)
    ensures Run(s, acts) == Some(next) && OnlyReload({t}, acts)
    ensures var id := |s.files|;
            next == Go(s, t, Ready(logFile, Destination(s.sink.httpMode, logFile, if NeedsFile(logFile) then id else 0),
                                   if NeedsFile(logFile) then Some(id) else None))
                    .(sink := Noted(s.sink, logFile),
                      files := if NeedsFile(logFile) then s.files + [File(logFile, true, 0)] else s.files)
  {
    var a := BeginReload(t, logFile, false);
    var begun := Step(s, a).value;
    Runs.Next(Step, s, [], s, a);
    Runs.Next(Step, s, [] + [a], begun, Note(t));
    var ready := Ready(logFile, begun.threads[t].writer, begun.threads[t].file);
    next := Step(begun, Note(t)).value;
    assert next.threads == s.threads[t := ready];
    acts := [] + [a] + [Note(t)];
  }

  /** What the holder of the write lock does. */
  lemma Replaces(s: State, t: nat, writer: Writer, file: Option<nat>, noted: bool) returns (acts: seq<Action>, next: State)
    requires t in s.threads && s.threads[t] == Locked(writer, file, noted)
    requires s.sink.file.Some? ==> IsOpen(s.files, s.sink.file.value)
    ensures Run(s, acts) == Some(next) && OnlyReload({}, acts)
    ensures next == Go(s, t, Idle).(sink := Swapped(s.sink, writer, file), files := ClosedAt(s.files, s.sink.file), closed := !noted)
  {
    var taken := Go(s, t, Taken(s.sink.file, file, noted)).(sink := s.sink.(writer := writer), closed := !noted);
    Runs.Next(Step, s, [], s, SwapWriter(t));
    acts := [] + [SwapWriter(t)];
    var stored := Go(taken, t, Closing(s.sink.file, noted)).(sink := Swapped(s.sink, writer, file));
    Runs.Next(Step, s, acts, taken, StoreFile(t));
    acts := acts + [StoreFile(t)];
    Runs.Next(Step, s, acts, stored, CloseOld(t));
    acts := acts + [CloseOld(t)];
    next := Step(stored, CloseOld(t)).value;
    assert next.threads == s.threads[t := Idle];
  }

  /** The part of a Reload under the lock. */
  lemma Installs(s: State, t: nat) returns (acts: seq<Action>, next: State)
    requires t in s.threads && s.threads[t].Ready? && MayLock(s)
    requires s.sink.file.Some? ==> IsOpen(s.files, s.sink.file.value)
    ensures Run(s, acts) == Some(next) && OnlyReload({}, acts)
    ensures next == Go(s, t, Idle).(sink := Swapped(s.sink, s.threads[t].writer, s.threads[t].file),
                                    files := ClosedAt(s.files, s.sink.file), closed := false)
  {
    var writer, file := s.threads[t].writer, s.threads[t].file;
    var locked := Go(s, t, Locked(writer, file, true));
    Runs.Next(Step, s, [], s, Lock(t));
    assert [] + [Lock(t)] == [Lock(t)];
    var rest, last := Replaces(locked, t, writer, file, true);
    Runs.Append(Step, s, [Lock(t)], rest);
    acts, next := [Lock(t)] + rest, last;
    assert next.threads == s.threads[t := Idle];
  }

  predicate AtRest(s: State) {
    forall t :: t in s.threads ==> s.threads[t] == Idle
  }

  /** A Reload of a file starts, another thread's Reload of "" starts too. */
  lemma BothPrepare(s: State, t: nat, u: nat, logFile: string) returns (acts: seq<Action>, next: State)
    requires t in s.threads && u in s.threads && t != u && AtRest(s) && NeedsFile(logFile)
    ensures Run(s, acts) == Some(next) && OnlyReload({t, u}, acts)
    ensures var id := |s.files|;
            && next.threads == s.threads[t := Ready(logFile, ToFile(id), Some(id))]
                                        [u := Ready("", Destination(s.sink.httpMode, "", 0), None)]
            && next.sink == s.sink.(lastLogFile := "", applied := true)
            && next.files == s.files + [File(logFile, true, 0)] && next.closed == s.closed
  {
    var first, now := Prepares(s, t, logFile);
    var second, last := Prepares(now, u, "");
    Runs.Append(Step, s, first, second);
    acts, next := first + second, last;
  }

  /** The second reload swaps first, so the first one has the last word on the writer but not on lastLogFile. */
  lemma BothInstall(s: State, t: nat, u: nat) returns (acts: seq<Action>, next: State)
    requires t in s.threads && u in s.threads && t != u && s.threads[t].Ready? && s.threads[u].Ready?
    requires s.threads[u].file.None? && MayLock(s)
    requires s.sink.file.Some? ==> IsOpen(s.files, s.sink.file.value)
    ensures Run(s, acts) == Some(next) && OnlyReload({}, acts)
    ensures next.threads == s.threads[u := Idle][t := Idle]
    ensures next.sink == s.sink.(writer := s.threads[t].writer, file := s.threads[t].file)
    ensures next.files == ClosedAt(s.files, s.sink.file) && !next.closed
  {
    var second, now := Installs(s, u);
    var first, last := Installs(now, t);
    Runs.Append(Step, s, second, first);
    acts, next := second + first, last;
  }

  /**
   Two concurrent reloads never leave the sink at a closed file (FilesAreSafe), but from any
   state at rest they can leave it writing to a file while lastLogFile says "": asking for ""
   once more is then ignored.
   */
  lemma TwoReloadersDisagree(s: State, t: nat, u: nat, logFile: string) returns (acts: seq<Action>, next: State)
    requires t in s.threads && u in s.threads && t != u && AtRest(s) && NeedsFile(logFile)
    requires s.sink.file.Some? ==> IsOpen(s.files, s.sink.file.value)
    ensures Run(s, acts) == Some(next) && OnlyReload({t, u}, acts)
    ensures AtRest(next) && !next.closed && next.sink.lastLogFile == "" && next.sink.writer == ToFile(|s.files|)
    ensures |s.files| < |next.files| && next.files[|s.files|] == File(logFile, true, 0)
    ensures Step(next, BeginReload(u, "", false)) == Some(next)
  {
    var start, now := BothPrepare(s, t, u, logFile);
    var finish, last := BothInstall(now, t, u);
    Runs.Append(Step, s, start, finish);
    acts, next := start + finish, last;
  }

  /** In every run in which only these threads reload, at rest the writer is what lastLogFile names, or Close came last. */
  ghost predicate AlwaysAgree(sink: Sink, files: seq<File>, ids: set<nat>, reloaders: set<nat>) {
    forall actions :: OnlyReload(reloaders, actions) && Run(Started(sink, files, ids), actions).Some? ==>
      AgreesAtRest(Run(Started(sink, files, ids), actions).value)
  }

  predicate AgreesAtRest(s: State) {
    AtRest(s) ==> s.closed || WritesTo(s.sink.httpMode, s.sink.lastLogFile, s.sink.writer, s.files)
  }

  /** The writer and lastLogFile agree in all runs at rest exactly when at most one thread reloads. */
  lemma AgreeExactlyWhenOneReloads(sink: Sink, files: seq<File>, ids: set<nat>, reloaders: set<nat>)
    requires Settled(sink, files) && sink.applied && WritesTo(sink.httpMode, sink.lastLogFile, sink.writer, files)
    requires reloaders <= ids && ids != {}
    ensures AlwaysAgree(sink, files, ids, reloaders) <==> forall t, u :: t in reloaders && u in reloaders ==> t == u
  {
    var start := Started(sink, files, ids);
    if t, u :| t in reloaders && u in reloaders && t != u {
      var acts, next := TwoReloadersDisagree(start, t, u, "a.log");
      assert OnlyReload(reloaders, acts) && !AgreesAtRest(next);
    } else {
      var r :| r in ids && (reloaders == {} || r in reloaders);
      forall actions | OnlyReload(reloaders, actions) && Run(start, actions).Some?
        ensures AgreesAtRest(Run(start, actions).value)
      {
        WriterIsLastAccepted(sink, files, ids, actions, r);
        RunKeepsMode(start, actions);
      }
    }
  }

  // ---------------------------------------------------------------- one call alone

  /** A Reload with nobody in between, step by step, does what the method does. */
  lemma ReloadAlone(s: State, t: nat, logFile: string, openFails: bool) returns (acts: seq<Action>, next: State)
    requires t in s.threads && AtRest(s) && (s.sink.file.Some? ==> IsOpen(s.files, s.sink.file.value))
    ensures Run(s, acts) == Some(next) && next.threads == s.threads && next.writes == s.writes
    ensures Applies(s.sink, s.files, next.sink, next.files, logFile, openFails)
  {
    if Unchanged(s.sink, logFile) || (NeedsFile(logFile) && openFails) {
      acts, next := [BeginReload(t, logFile, openFails)], s;
      Runs.Next(Step, s, [], s, BeginReload(t, logFile, openFails));
      assert [] + acts == acts;
    } else {
      var first, now := Prepares(s, t, logFile);
      var second, last := Installs(now, t);
      Runs.Append(Step, s, first, second);
      acts, next := first + second, last;
      assert next.threads == s.threads;
    }
  }

  /** A Write alone goes to the sink's writer, and is recorded once. */
  lemma WriteAlone(s: State, t: nat) returns (acts: seq<Action>, next: State)
    requires t in s.threads && AtRest(s)
    requires s.sink.writer.ToFile? ==> IsOpen(s.files, s.sink.writer.id)
    ensures Run(s, acts) == Some(next)
    ensures next == s.(writes := s.writes + [WriteRecord(s.sink.writer, false)])
  {
    var begun := Go(s, t, Writing(s.sink.writer));
    var done := begun.(writes := s.writes + [WriteRecord(s.sink.writer, false)]);
    Runs.Next(Step, s, [], s, BeginWrite(t));
    acts := [] + [BeginWrite(t)];
    Runs.Next(Step, s, acts, begun, DoWrite(t));
    acts := acts + [DoWrite(t)];
    Runs.Next(Step, s, acts, done, EndWrite(t));
    acts := acts + [EndWrite(t)];
    next := Step(done, EndWrite(t)).value;
    assert next.threads == s.threads;
  }

  /** A Close alone sends the log to standard error and closes the file. */
  lemma CloseAlone(s: State, t: nat) returns (acts: seq<Action>, next: State)
    requires t in s.threads && AtRest(s) && (s.sink.file.Some? ==> IsOpen(s.files, s.sink.file.value))
    ensures Run(s, acts) == Some(next) && next.threads == s.threads && next.closed && next.writes == s.writes
    ensures next.sink == s.sink.(writer := ErrOut, file := None) && next.files == ClosedAt(s.files, s.sink.file)
  {
    var begun := Go(s, t, ClosePending);
    var locked := Go(begun, t, Locked(ErrOut, None, false));
    Runs.Next(Step, s, [], s, BeginClose(t));
    Runs.Next(Step, s, [] + [BeginClose(t)], begun, Lock(t));
    var first := [] + [BeginClose(t)] + [Lock(t)];
    var rest, last := Replaces(locked, t, ErrOut, None, false);
    Runs.Append(Step, s, first, rest);
    acts, next := first + rest, last;
    assert next.threads == s.threads;
  }
}
