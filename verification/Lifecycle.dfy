/**
 The life of one build as a protocol between concurrent actors that share one database row.

 A step is one statement: a read of the row, a LISTEN, or the commit of an UPDATE with its NOTIFY.
 Every choice the world makes (a write refused, a crash, a signal) is part of the step's label, so a
 run is a sequence of labels and the state it reaches is a function of that sequence.
 */
module Lifecycle {
  import opened Models

  // ---------- The shared row and the actors ----------

  datatype Row = Row(status: BuildStatus, events: seq<string>, completed: bool)

  /** How a write transaction ends: committed and acknowledged, committed although the client was
      told it failed (the connection was lost in between), or not committed at all. */
  datatype Write = Acked | Lost | Refused {
    predicate Committed() { !Refused? }
  }

  /** A CancelBuild call: the gRPC handler reads the row, the data layer reads it again, then writes. */
  datatype CancelPc = RpcChecked | Checked | CancelReturned(ok: bool)

  /** An AddEvent call: it reads the row, then appends. */
  datatype AddPc = AddChecked(event: string) | AddReturned(ok: bool)

  /** The goroutine StartBuild leaves behind: it starts the job, waits for the hand-off, and marks the
      build as failed if the hand-off does not come. */
  datatype ServerPc = Starting | Waiting | HandoffFailed | Finished

  /** One attempt of Manager.Run in the job's pod. */
  datatype RunnerPc =
    | Idle
    | Reading
    | Passed
    | Working
    | Skipping
    | Building
    | Finishing
    | Failing
    | Concluding(cancelled: bool)

  /** The attempt's cancellation goroutine; pending counts notifications its connection has received. */
  datatype ListenerPc =
    | NotSpawned
    | Spawned
    | SawRunning
    | Listening(pending: nat)
    | GotCancel
    | ContextDone
    | FlagSet
    | Stopped

  datatype Runner = Runner(pc: RunnerPc, listener: ListenerPc)

  /** handedOff remembers that some attempt's Running write has committed; pods is the number of attempts
      that the build's job still grants. */
  datatype State = State(
    row: Row,
    cancels: map<nat, CancelPc>,
    adds: map<nat, AddPc>,
    server: ServerPc,
    runner: Runner,
    handedOff: bool,
    pods: nat)

  const IDLE_RUNNER := Runner(Idle, NotSpawned)

  const INIT := State(Row(NotStarted, [], false), map[], map[], Starting, IDLE_RUNNER, false, 0)

  /** The pods of a job: the first, and as many retries as its backoff limit allows. */
  const PODS := 4

  // ---------- Labels ----------

  datatype Label =
    // CancelBuild, call number c
    | RpcRead(c: nat)
    | CancelRead(c: nat)
    | CancelWrite(c: nat, w: Write)
    // AddEvent, call number a
    | AddRead(a: nat, event: string)
    | AddWrite(a: nat, event: string, w: Write)
    // the goroutine StartBuild spawns, and the job it creates: even one whose creation was reported as
    // failed may exist, and any job may come to an end before its pods are used up
    | JobStarted(ok: bool, pods: nat)
    | JobEnds
    | ServerCrash
    | JobSignal(ok: bool)
    | FailureWrite(w: Write)
    // Manager.Run
    | AttemptBegin
    | AttemptRead(ok: bool)
    | HandoffWrite(w: Write)
    | WorkFailed
    | TagsExist
    | SkippedWrite(w: Write)
    | BuildCalled
    | BuildReturned(ok: bool)
    | SuccessWrite(w: Write)
    | FlagRead
    | FinalWrite(cancelled: bool, w: Write)
    | AttemptCrash
    // the attempt's cancellation goroutine
    | ListenerRead(ok: bool)
    | ListenerListen(ok: bool)
    | ListenerWoken
    | ListenerFailed
    | ListenerCancelsContext
    | ListenerSetsFlag

  /** The status of an attempt that returns an error. */
  function Verdict(cancelled: bool): BuildStatus {
    if cancelled then Cancelled else Failure
  }

  /** The status a label's transaction commits, if it commits one. */
  function Written(l: Label): Option<BuildStatus> {
    match l
    case CancelWrite(_, w) => if w.Committed() then Some(CancelRequested) else None
    case FailureWrite(w) => if w.Committed() then Some(Failure) else None
    case HandoffWrite(w) => if w.Committed() then Some(Running) else None
    case SkippedWrite(w) => if w.Committed() then Some(Skipped) else None
    case SuccessWrite(w) => if w.Committed() then Some(Success) else None
    case FinalWrite(x, w) => if w.Committed() then Some(Verdict(x)) else None
    case _ => None
  }

  /** Steps of the attempt itself, as opposed to its environment. */
  predicate RunnerLabel(l: Label) {
    l.AttemptBegin? || l.AttemptRead? || l.HandoffWrite? || l.WorkFailed? || l.TagsExist? ||
    l.SkippedWrite? || l.BuildCalled? || l.BuildReturned? || l.SuccessWrite? || l.FlagRead? ||
    l.FinalWrite? || l.AttemptCrash?
  }

  // ---------- Steps ----------

  predicate Enabled(s: State, l: Label) {
    match l
    case RpcRead(c) => c !in s.cancels
    case CancelRead(c) => c in s.cancels && s.cancels[c].RpcChecked?
    case CancelWrite(c, _) => c in s.cancels && s.cancels[c].Checked?
    case AddRead(a, _) => a !in s.adds
    case AddWrite(a, event, _) => a in s.adds && s.adds[a] == AddChecked(event)
    case JobStarted(_, _) => s.server.Starting?
    case JobEnds => true
    case ServerCrash => !s.server.Finished?
    case JobSignal(_) => s.server.Waiting?
    case FailureWrite(_) => s.server.HandoffFailed?
    case AttemptBegin => s.runner.pc.Idle? && s.pods > 0
    case AttemptRead(_) => s.runner.pc.Reading?
    case HandoffWrite(_) => s.runner.pc.Passed?
    case WorkFailed => s.runner.pc.Working?
    case TagsExist => s.runner.pc.Working?
    case SkippedWrite(_) => s.runner.pc.Skipping?
    case BuildCalled => s.runner.pc.Working?
    case BuildReturned(_) => s.runner.pc.Building?
    case SuccessWrite(_) => s.runner.pc.Finishing?
    case FlagRead => s.runner.pc.Failing?
    case FinalWrite(x, _) => s.runner.pc == Concluding(x)
    case AttemptCrash => !s.runner.pc.Idle?
    case ListenerRead(_) => s.runner.listener.Spawned?
    case ListenerListen(_) => s.runner.listener.SawRunning?
    case ListenerWoken => s.runner.listener.Listening? && s.runner.listener.pending > 0
    case ListenerFailed => s.runner.listener.Listening?
    case ListenerCancelsContext => s.runner.listener.GotCancel?
    case ListenerSetsFlag => s.runner.listener.ContextDone?
  }

  function Commit(r: Row, l: Label): Row {
    match Written(l)
    case Some(st) => r.(status := st, completed := r.completed || TerminalState(st))
    case None =>
      if l.AddWrite? && l.w.Committed() then r.(events := r.events + [l.event]) else r
  }

  function NextCancels(s: State, l: Label): map<nat, CancelPc> {
    match l
    case RpcRead(c) => s.cancels[c := if s.row.status.Running? then RpcChecked else CancelReturned(false)]
    case CancelRead(c) => s.cancels[c := if s.row.status.Running? then Checked else CancelReturned(false)]
    case CancelWrite(c, w) => s.cancels[c := CancelReturned(w.Acked?)]
    case _ => s.cancels
  }

  function NextAdds(s: State, l: Label): map<nat, AddPc> {
    match l
    case AddRead(a, event) =>
      s.adds[a := if EventListenable(s.row.status) then AddChecked(event) else AddReturned(false)]
    case AddWrite(a, _, w) => s.adds[a := AddReturned(w.Acked?)]
    case _ => s.adds
  }

  function NextServer(s: State, l: Label): ServerPc {
    match l
    case JobStarted(ok, _) => if ok then Waiting else HandoffFailed
    case ServerCrash => Finished
    case JobSignal(ok) => if ok then Finished else HandoffFailed
    case FailureWrite(_) => Finished
    case _ => s.server
  }

  function NextRunnerPc(s: State, l: Label): RunnerPc {
    match l
    case AttemptBegin => Reading
    case AttemptRead(ok) => if ok && s.row.status.NotStarted? then Passed else Idle
    case HandoffWrite(w) => if w.Acked? then Working else Idle
    case WorkFailed => Failing
    case TagsExist => Skipping
    case SkippedWrite(w) => if w.Acked? then Idle else Failing
    case BuildCalled => Building
    case BuildReturned(ok) => if ok then Finishing else Failing
    case SuccessWrite(w) => if w.Acked? then Idle else Failing
    case FlagRead => Concluding(s.runner.listener.FlagSet?)
    case FinalWrite(_, _) => Idle
    case AttemptCrash => Idle
    case _ => s.runner.pc
  }

  function NextListener(s: State, l: Label): ListenerPc {
    match l
    case HandoffWrite(w) => if w.Acked? then Spawned else s.runner.listener
    case CancelWrite(_, w) =>
      if w.Committed() && s.runner.listener.Listening?
      then Listening(s.runner.listener.pending + 1) else s.runner.listener
    case ListenerRead(ok) =>
      if !ok then Stopped
      else if s.row.status.Running? then SawRunning
      else if s.row.status.CancelRequested? || s.row.status.Cancelled? then GotCancel
      else Stopped
    case ListenerListen(ok) => if ok then Listening(0) else Stopped
    case ListenerWoken => GotCancel
    case ListenerFailed => Stopped
    case ListenerCancelsContext => ContextDone
    case ListenerSetsFlag => FlagSet
    case _ => s.runner.listener
  }

  /** The cancellation goroutine dies with its process. */
  function NextRunner(s: State, l: Label): Runner {
    var pc := NextRunnerPc(s, l);
    if pc.Idle? then IDLE_RUNNER else Runner(pc, NextListener(s, l))
  }

  function NextPods(s: State, l: Label): nat {
    match l
    case JobStarted(_, pods) => pods
    case JobEnds => 0
    case AttemptBegin => if s.pods > 0 then s.pods - 1 else 0
    case _ => s.pods
  }

  function Apply(s: State, l: Label): State {
    State(
      Commit(s.row, l),
      NextCancels(s, l),
      NextAdds(s, l),
      NextServer(s, l),
      NextRunner(s, l),
      s.handedOff || (l.HandoffWrite? && l.w.Committed()),
      NextPods(s, l))
  }

  // ---------- Runs ----------

  function Last<T>(ls: seq<T>): T requires ls != [] { ls[|ls| - 1] }

  function Front<T>(ls: seq<T>): seq<T> requires ls != [] { ls[..|ls| - 1] }

  /** The state a sequence of steps leads to. */
  function After(ls: seq<Label>): State {
    if ls == [] then INIT else Apply(After(Front(ls)), Last(ls))
  }

  /** Every step was possible when it was taken. */
  predicate IsRun(ls: seq<Label>) {
    ls == [] || (IsRun(Front(ls)) && Enabled(After(Front(ls)), Last(ls)))
  }

  /** The status before step k of ls, for k up to and including |ls|. */
  function StatusAt(ls: seq<Label>, k: nat): BuildStatus
    requires k <= |ls|
  {
    After(ls[..k]).row.status
  }

  lemma {:induction false} PrefixIsRun(ls: seq<Label>, k: nat)
    requires IsRun(ls) && k <= |ls|
    ensures IsRun(ls[..k])
  {
    if k == |ls| {
      assert ls[..k] == ls;
    } else {
      PrefixIsRun(Front(ls), k);
      assert Front(ls)[..k] == ls[..k];
    }
  }

  /** A run taken one step at a time. */
  lemma {:induction false} StepOfRun(ls: seq<Label>, k: nat)
    requires IsRun(ls) && k < |ls|
    ensures IsRun(ls[..k]) && IsRun(ls[..k + 1])
    ensures Enabled(After(ls[..k]), ls[k])
    ensures After(ls[..k + 1]) == Apply(After(ls[..k]), ls[k])
  {
    PrefixIsRun(ls, k + 1);
    PrefixIsRun(ls, k);
    assert Front(ls[..k + 1]) == ls[..k] && Last(ls[..k + 1]) == ls[k];
  }

  lemma {:induction false} Extend(ls: seq<Label>, l: Label)
    requires IsRun(ls) && Enabled(After(ls), l)
    ensures IsRun(ls + [l])
    ensures After(ls + [l]) == Apply(After(ls), l)
  {
    assert Front(ls + [l]) == ls && Last(ls + [l]) == l;
  }

  // ---------- Building example runs ----------

  ghost predicate Leads(ls: seq<Label>, s: State) {
    IsRun(ls) && After(ls) == s
  }

  lemma {:induction false} Took(ls: seq<Label>, s: State, l: Label) returns (r: seq<Label>, t: State)
    requires Leads(ls, s) && Enabled(s, l)
    ensures r == ls + [l] && t == Apply(s, l) && Leads(r, t)
  {
    Extend(ls, l);
    r, t := ls + [l], Apply(s, l);
  }

  /** The server has started the job and an attempt has passed its check. */
  lemma {:induction false} AboutToTakeOver() returns (ls: seq<Label>, s: State)
    ensures ls == [JobStarted(true, PODS), AttemptBegin, AttemptRead(true)]
    ensures s == State(Row(NotStarted, [], false), map[], map[], Waiting, Runner(Passed, NotSpawned), false, PODS - 1)
    ensures Leads(ls, s)
  {
    assert Leads([], INIT);
    hide Leads;
    ls, s := Took([], INIT, JobStarted(true, PODS));
    ls, s := Took(ls, s, AttemptBegin);
    ls, s := Took(ls, s, AttemptRead(true));
  }

  /** An attempt has just taken over the build. */
  lemma {:induction false} TakenOver() returns (ls: seq<Label>, s: State)
    ensures ls == [JobStarted(true, PODS), AttemptBegin, AttemptRead(true), HandoffWrite(Acked)]
    ensures s == State(Row(Running, [], false), map[], map[], Waiting, Runner(Working, Spawned), true, PODS - 1)
    ensures Leads(ls, s)
  {
    hide Leads;
    ls, s := AboutToTakeOver();
    ls, s := Took(ls, s, HandoffWrite(Acked));
  }
}
