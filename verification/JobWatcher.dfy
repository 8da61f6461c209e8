/** The watcher that tells Manager.Start whether the build job is running or has failed. */
module JobWatcher {
  import opened Models
  import Abandonment
  import Lifecycle
  import Observers
  import Wire

  /** A condition of a Kubernetes job: is it of type Failed, is its reason BackoffLimitExceeded? */
  datatype Condition = Condition(failed: bool, backoffExceeded: bool)

  /** What the watch channel yields. A closed channel yields events without an object. */
  datatype WatchEvent =
    | NoObject
    | Deleted
    | ErrorEvent
    | ModifiedOther
    | ModifiedJob(succeeded: int, conditions: seq<Condition>)
    | OtherEvent

  datatype Failure = TimedOut | HandoffError | JobDeleted | WatchError | NotAJob | BackoffExceeded

  /** What the watcher signals: that the build runs, or that it cannot. */
  datatype Signal = RunningSignal | ErrorSignal(why: Failure)

  /** A branch the select statement of the loop takes. */
  datatype Input = Stop | Timer | RunningClosed | ListenError | Watch(e: WatchEvent)

  /** What an input makes the watcher do: carry on, leave in silence, or leave with a signal. */
  datatype Effect = CarryOn | Leave | Send(s: Signal)

  function WatchEffect(e: WatchEvent): Effect {
    match e
    case NoObject => CarryOn
    case Deleted => Send(ErrorSignal(JobDeleted))
    case ErrorEvent => Send(ErrorSignal(WatchError))
    case ModifiedOther => Send(ErrorSignal(NotAJob))
    case ModifiedJob(succeeded, cs) =>
      if succeeded > 0 then Send(RunningSignal)
      else if cs != [] && cs[|cs| - 1].failed && cs[|cs| - 1].backoffExceeded
      then Send(ErrorSignal(BackoffExceeded))
      else CarryOn
    case OtherEvent => CarryOn
  }

  function EffectOf(i: Input): Effect {
    match i
    case Stop => Leave
    case Timer => Send(ErrorSignal(TimedOut))
    case RunningClosed => Send(RunningSignal)
    case ListenError => Send(ErrorSignal(HandoffError))
    case Watch(e) => WatchEffect(e)
  }

  /** The job has failed for good: its last condition says that its backoff limit is exceeded. */
  predicate GaveUp(e: WatchEvent) {
    && e.ModifiedJob? && e.conditions != []
    && e.conditions[|e.conditions| - 1].failed && e.conditions[|e.conditions| - 1].backoffExceeded
  }

  /** Which events end the watch, and how. All others, an added job and a closed channel among them, are
      passed over, and so is a modified job without success that has not given up. */
  lemma {:induction false} EventsThatEndTheWatch(e: WatchEvent)
    ensures WatchEffect(e) != CarryOn <==>
            e == Deleted || e == ErrorEvent || e == ModifiedOther || (e.ModifiedJob? && (e.succeeded > 0 || GaveUp(e)))
    ensures e == Deleted ==> WatchEffect(e) == Send(ErrorSignal(JobDeleted))
    ensures e == ErrorEvent ==> WatchEffect(e) == Send(ErrorSignal(WatchError))
    ensures e == ModifiedOther ==> WatchEffect(e) == Send(ErrorSignal(NotAJob))
    ensures e.ModifiedJob? && e.succeeded > 0 ==> WatchEffect(e) == Send(RunningSignal)
    ensures e.ModifiedJob? && e.succeeded <= 0 && GaveUp(e) ==> WatchEffect(e) == Send(ErrorSignal(BackoffExceeded))
  {
  }

  /** The other branches all end the watch: a stop in silence, the rest with their signal. */
  lemma {:induction false} BranchesThatEndTheWatch()
    ensures EffectOf(Stop) == Leave && EffectOf(RunningClosed) == Send(RunningSignal)
    ensures EffectOf(Timer) == Send(ErrorSignal(TimedOut)) && EffectOf(ListenError) == Send(ErrorSignal(HandoffError))
    ensures forall e :: EffectOf(Watch(e)) == WatchEffect(e)
  {
  }

  predicate Decisive(i: Input) {
    !EffectOf(i).CarryOn?
  }

  /** The job has finished although nobody saw the build run. */
  predicate SaysSucceeded(i: Input) {
    i.Watch? && i.e.ModifiedJob? && i.e.succeeded > 0
  }

  /** The goroutine that waits for the build to run. It posts an error, unless the watcher has been
      stopped, and in any case closes the running channel last. */
  datatype Goroutine = Listening | ListenedWell | ListenedBadly | Posted | Done

  function NextGoroutine(g: Goroutine, stop: bool, t: Tick): Goroutine {
    match t
    case ListenReturns(ok) => if !g.Listening? then g else if ok then ListenedWell else ListenedBadly
    case GoroutineMoves => if g.Listening? then g else if g.ListenedBadly? && !stop then Posted else Done
    case _ => g
  }

  /** A step of the world: something happens outside, the goroutine moves on, or the loop's select
      takes a branch. A branch that is not ready is not taken. */
  datatype Tick =
    | StopRequested
    | TimerFires
    | ListenReturns(ok: bool)
    | GoroutineMoves
    | TakeBranch(i: Input)

  lemma {:induction false} SourceOfSignal(i: Input)
    ensures EffectOf(i) == Send(RunningSignal) ==> i.RunningClosed? || SaysSucceeded(i)
    ensures EffectOf(i) == Send(ErrorSignal(HandoffError)) ==> i.ListenError?
    ensures EffectOf(i) == Leave ==> i.Stop?
  {
  }

  class Watcher {
    var stop: bool
    var timer: bool
    var goroutine: Goroutine
    var running: bool
    var posted: bool
    /** how ListenForBuildRunning returned, once it has */
    var listened: Option<bool>
    /** what has been sent on the channels e and r */
    var sent: seq<Signal>
    var closed: bool
    /** the branches the select has taken */
    ghost var taken: seq<Input>

    ghost predicate Valid() reads this {
      && (listened.None? <==> goroutine.Listening?)
      && (goroutine.ListenedWell? ==> listened == Some(true))
      && (goroutine.ListenedBadly? || goroutine.Posted? ==> listened == Some(false))
      && (running <==> goroutine.Done?)
      && (posted ==> listened == Some(false))
      && (running && listened == Some(false) ==> posted || stop)
      && (goroutine.Posted? ==> posted)
    }

    /** Before the loop has been left, nothing decisive has happened and nothing has been sent. */
    ghost predicate Watching() reads this {
      !closed && sent == [] && forall i :: i in taken ==> !Decisive(i)
    }

    constructor ()
      ensures Valid() && Watching() && taken == [] && goroutine.Listening? && !stop
    {
      stop, timer, goroutine, running, posted := false, false, Listening, false, false;
      listened, sent, closed, taken := None, [], false, [];
    }

    predicate Ready(i: Input) reads this {
      match i
      case Stop => stop
      case Timer => timer
      case RunningClosed => running
      case ListenError => posted
      case Watch(_) => true
    }

    /** processEvent: sends at most one signal and says whether the loop is to be left. */
    method ProcessEvent(e: WatchEvent) returns (leave: bool)
      requires sent == []
      modifies this`sent
      ensures leave <==> !WatchEffect(e).CarryOn?
      ensures sent == if leave then [WatchEffect(e).s] else []
    {
      match e {
        case NoObject => return false;
        case Deleted =>
          sent := sent + [ErrorSignal(JobDeleted)];
          return true;
        case ErrorEvent =>
          sent := sent + [ErrorSignal(WatchError)];
          return true;
        case ModifiedOther =>
          sent := sent + [ErrorSignal(NotAJob)];
          return true;
        case ModifiedJob(succeeded, conditions) =>
          if succeeded > 0 {
            sent := sent + [RunningSignal];
            return true;
          }
          if |conditions| > 0 {
            var lc := conditions[|conditions| - 1];
            if lc.failed && lc.backoffExceeded {
              sent := sent + [ErrorSignal(BackoffExceeded)];
              return true;
            }
          }
          return false;
        case OtherEvent => return false;
      }
    }

    /** What happens around the loop. */
    method Outside(t: Tick)
      requires Valid() && !t.TakeBranch?
      modifies this`stop, this`timer, this`goroutine, this`running, this`posted, this`listened
      ensures Valid()
      ensures stop == (old(stop) || t.StopRequested?) && timer == (old(timer) || t.TimerFires?)
      ensures listened == if t.ListenReturns? && old(goroutine).Listening? then Some(t.ok) else old(listened)
      ensures goroutine == NextGoroutine(old(goroutine), old(stop), t)
      ensures posted == (old(posted) || goroutine.Posted?)
      // a failed listener first posts its error, unless stop was requested; then, as after a good one,
      // the running channel is closed
      ensures t == GoroutineMoves && old(goroutine) == ListenedBadly && !old(stop) ==> posted && running == old(running)
      ensures t == GoroutineMoves && old(goroutine) == ListenedBadly && old(stop) ==> running && posted == old(posted)
      ensures t == GoroutineMoves && (old(goroutine) == ListenedWell || old(goroutine) == Posted) ==>
                running && posted == old(posted)
      ensures t != GoroutineMoves ==> running == old(running) && posted == old(posted)
    {
      match t {
        case StopRequested => stop := true;
        case TimerFires => timer := true;
        case ListenReturns(ok) =>
          if goroutine.Listening? {
            listened := Some(ok);
            goroutine := if ok then ListenedWell else ListenedBadly;
          }
        case GoroutineMoves =>
          if goroutine.ListenedBadly? && !stop {
            posted, goroutine := true, Posted;
          } else if !goroutine.Listening? {
            running, goroutine := true, Done;
          }
        case TakeBranch(_) =>
      }
    }

    /** The body of a branch the select has taken. */
    method Take(i: Input) returns (leave: bool)
      requires sent == []
      modifies this`sent, this`taken
      ensures taken == old(taken) + [i]
      ensures leave <==> Decisive(i)
      ensures sent == match EffectOf(i) case Send(s) => [s] case _ => []
    {
      taken := taken + [i];
      leave := true;
      match i {
        case Stop =>
        case Timer => sent := sent + [ErrorSignal(TimedOut)];
        case RunningClosed => sent := sent + [RunningSignal];
        case ListenError => sent := sent + [ErrorSignal(HandoffError)];
        case Watch(e) => leave := ProcessEvent(e);
      }
    }

    /** The loop has been left, at a decisive branch and with the signal that goes with it. */
    ghost predicate Left() reads this {
      && closed && taken != [] && Decisive(taken[|taken| - 1])
      && (forall k :: 0 <= k < |taken| - 1 ==> !Decisive(taken[k]))
      && sent == (match EffectOf(taken[|taken| - 1]) case Send(s) => [s] case _ => [])
      && (sent == [] ==> stop && taken[|taken| - 1].Stop?)
      && (sent == [RunningSignal] ==>
            || SaysSucceeded(taken[|taken| - 1])
            || (taken[|taken| - 1].RunningClosed? && listened == Some(true))
            || (taken[|taken| - 1].RunningClosed? && listened == Some(false) && (posted || stop)))
      && (sent == [ErrorSignal(HandoffError)] ==> listened == Some(false))
    }

    /** Something happens outside, or the select takes a branch that is ready. */
    method Advance(t: Tick)
      requires Valid() && Watching()
      modifies this
      ensures Valid() && (closed <==> t.TakeBranch? && old(Ready(t.i)) && Decisive(t.i))
      ensures if closed then Left() else Watching()
      ensures stop == (old(stop) || t.StopRequested?) && timer == (old(timer) || t.TimerFires?)
      ensures (old(running) ==> running) && (old(posted) ==> posted)
      ensures listened == if t.ListenReturns? && old(goroutine).Listening? then Some(t.ok) else old(listened)
    {
      if !t.TakeBranch? {
        Outside(t);
      } else if Ready(t.i) {
        var leave := Take(t.i);
        if leave {
          SourceOfSignal(t.i);
          assert t.i.RunningClosed? && listened != Some(true) ==> listened.value == false && (posted || stop);
          closed := true;
        }
      }
    }

    /** The select loop, for any merging of what happens outside with the branches it takes. It sends
        at most one signal, that of the first decisive branch it takes, and leaves without one only
        when stopped. */
    method Start(ticks: seq<Tick>)
      requires Valid() && Watching() && taken == []
      modifies this
      ensures Valid() && |sent| <= 1
      ensures if closed then Left() else Watching()
      ensures listened.Some? ==> listened == old(listened) || ListenReturns(listened.value) in ticks
      // it stays exactly as long as every branch the select was offered was not due or not decisive
      ensures !closed ==> forall k :: 0 <= k < |ticks| ==> NotDue(ticks, k, old(stop), old(timer), old(running), old(posted))
    {
      hide NotDue, Ready, Decisive, Left, Watching;
      AtMostOne();
      for k := 0 to |ticks|
        invariant Valid() && Watching() && !closed && sent == []
        invariant stop == (old(stop) || StopRequested in ticks[..k])
        invariant timer == (old(timer) || TimerFires in ticks[..k])
        invariant (old(running) ==> running) && (old(posted) ==> posted)
        invariant listened.Some? ==> listened == old(listened) || ListenReturns(listened.value) in ticks
        invariant forall n :: 0 <= n < k ==> NotDue(ticks, n, old(stop), old(timer), old(running), old(posted))
      {
        assert ticks[..k + 1] == ticks[..k] + [ticks[k]];
        PassedOver(ticks, k, old(stop), old(timer), old(running), old(posted));
        Advance(ticks[k]);
        AtMostOne();
        if closed {
          return;
        }
      }
    }

    lemma {:induction false} AtMostOne()
      ensures Watching() ==> !closed && sent == []
      ensures Left() ==> closed && |sent| <= 1
    {
    }

    lemma {:induction false} PassedOver(ticks: seq<Tick>, k: nat, s: bool, t: bool, r: bool, p: bool)
      requires k < |ticks|
      requires stop == (s || StopRequested in ticks[..k]) && timer == (t || TimerFires in ticks[..k])
      requires (r ==> running) && (p ==> posted)
      ensures !(ticks[k].TakeBranch? && Ready(ticks[k].i) && Decisive(ticks[k].i)) ==> NotDue(ticks, k, s, t, r, p)
    {
    }
  }

  /** The branch of tick k, if it takes one, does not end the watch, or was not ready: a stop or a timer
      not yet due, the other two not from the beginning. */
  ghost predicate NotDue(ticks: seq<Tick>, k: nat, stop: bool, timer: bool, running: bool, posted: bool)
    requires k < |ticks|
  {
    ticks[k].TakeBranch? ==>
      match ticks[k].i
      case Watch(e) => WatchEffect(e) == CarryOn
      case Stop => !stop && StopRequested !in ticks[..k]
      case Timer => !timer && TimerFires !in ticks[..k]
      case RunningClosed => !running
      case ListenError => !posted
  }

  /** The goroutine waits in ListenForBuildRunning, as call i of a history of build id: the call returns
      nil only as the history says. */
  ghost predicate ListensIn(ticks: seq<Tick>, id: Wire.Uuid, ms: seq<Observers.Move>, i: nat) {
    && Observers.IsHistory(id, ms) && i in Observers.Reached(id, ms).calls
    && Observers.Reached(id, ms).calls[i].kind.ForRunning?
    && (ListenReturns(true) in ticks ==>
          Observers.Reached(id, ms).calls[i].pc == Observers.Returned(Observers.Nil))
  }

  ghost predicate RunningCommitted(ms: seq<Observers.Move>) {
    exists x :: 0 <= x < |ms| && ms[x].Core? && Lifecycle.Written(ms[x].l) == Some(BuildStatus.Running)
  }

  lemma {:induction false} ListenedWellMeansRunning(ticks: seq<Tick>, id: Wire.Uuid, ms: seq<Observers.Move>, i: nat)
    requires ListensIn(ticks, id, ms, i) && ListenReturns(true) in ticks
    ensures RunningCommitted(ms)
  {
    hide Observers.IsHistory, Observers.Reached;
    var x := Observers.ResultIsSound(id, ms, i);
  }

  /** Beside the build protocol: the watcher signals a running build only if Running was committed for
      this very build, or the job has finished successfully, or the listener failed and its closing of
      the channel won against the error it had posted, or against a request to stop. */
  method WatchBuild(w: Watcher, ticks: seq<Tick>, ghost id: Wire.Uuid, ghost ms: seq<Observers.Move>, ghost i: nat)
    requires w.Valid() && w.Watching() && w.taken == [] && w.listened.None?
    requires ListensIn(ticks, id, ms, i)
    modifies w
    ensures w.Valid() && |w.sent| <= 1
    ensures w.sent == [RunningSignal] ==>
              && w.taken != []
              && (|| RunningCommitted(ms)
                  || SaysSucceeded(w.taken[|w.taken| - 1])
                  || (w.taken[|w.taken| - 1].RunningClosed? && w.listened == Some(false) && (w.posted || w.stop)))
  {
    hide ListensIn, RunningCommitted;
    w.Start(ticks);
    if w.listened == Some(true) {
      ListenedWellMeansRunning(ticks, id, ms, i);
    }
  }

  /** When the listener fails, the select may find both branches ready: the error it posted, and the
      running channel it closed. */
  method BothBranchesReady() returns (w: Watcher)
    ensures fresh(w) && w.Valid() && w.Watching() && w.taken == [] && w.listened == Some(false) && !w.stop
    ensures w.Ready(ListenError) && w.Ready(RunningClosed)
  {
    w := new Watcher();
    w.Outside(ListenReturns(false));
    w.Outside(GoroutineMoves);
    w.Outside(GoroutineMoves);
  }

  /** A history in which the watcher's call waits, gives up, and Running is never committed. */
  lemma {:induction false} GivesUpUnseen(id: Wire.Uuid) returns (ms: seq<Observers.Move>)
    ensures Observers.IsHistory(id, ms) && !RunningCommitted(ms)
    ensures Observers.Steps(ms) == [Lifecycle.JobStarted(true, Lifecycle.PODS)]
    ensures Observers.Reached(id, ms).calls == map[0 := Observers.Observer(Observers.ForRunning, Observers.Returned(Observers.Error))]
    ensures Observers.Reached(id, ms).core == Lifecycle.Apply(Lifecycle.INIT, Lifecycle.JobStarted(true, Lifecycle.PODS))
  {
    var start := Lifecycle.JobStarted(true, Lifecycle.PODS);
    assert Observers.IsHistory(id, []) && Observers.Reached(id, []) == Observers.World(Lifecycle.INIT, map[]);
    var c0 := Observers.NextCore(id, [], start);
    hide Observers.IsHistory, Observers.Reached;
    var c1 := Observers.Next(id, c0, Observers.Read(0, Observers.ForRunning));
    var c2 := Observers.Next(id, c1, Observers.Listen(0, true));
    ms := Observers.Next(id, c2, Observers.GiveUp(0));
    assert c0 == [Observers.Core(start)];
    assert ms == [Observers.Core(start), Observers.Read(0, Observers.ForRunning), Observers.Listen(0, true), Observers.GiveUp(0)];
    StepsOf(ms, start);
  }

  lemma {:induction false} StepsOf(ms: seq<Observers.Move>, l: Lifecycle.Label)
    requires |ms| == 4 && ms[0] == Observers.Core(l) && !ms[1].Core? && !ms[2].Core? && !ms[3].Core?
    ensures Observers.Steps(ms) == [l]
  {
    assert ms[..3][..2] == ms[..2] && ms[..2][..1] == ms[..1] && ms[..1][..0] == [];
    assert Observers.Steps(ms[..1]) == [l];
    assert Observers.Steps(ms[..2]) == [l];
    assert Observers.Steps(ms[..3]) == [l];
  }

  /** Taking the latter reports a build as running although nobody saw it run, and it never did. If the
      server takes that for the hand-off and the job then ends, the build stays NotStarted for ever. */
  method FalseSignal(ghost id: Wire.Uuid) returns (w: Watcher, ghost ms: seq<Observers.Move>)
    ensures w.sent == [RunningSignal] && w.taken == [RunningClosed] && w.listened == Some(false)
    ensures Observers.IsHistory(id, ms) && !RunningCommitted(ms)
    ensures Observers.Reached(id, ms).calls == map[0 := Observers.Observer(Observers.ForRunning, Observers.Returned(Observers.Error))]
    ensures var ls := Observers.Steps(ms) + [Lifecycle.JobSignal(true), Lifecycle.JobEnds];
            && Lifecycle.IsRun(ls) && Abandonment.Abandoned(Lifecycle.After(ls))
            && Lifecycle.After(ls).row.status.NotStarted?
  {
    w := BothBranchesReady();
    var leave := w.Take(RunningClosed);
    ms := GivesUpUnseen(id);
    hide RunningCommitted, Observers.IsHistory, Observers.Reached, Observers.Steps;
    ghost var ls, s := Abandonment.NeverStarts();
    assert ls == Observers.Steps(ms) + [Lifecycle.JobSignal(true), Lifecycle.JobEnds];
  }
}
