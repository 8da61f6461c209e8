/** What every run of the build protocol keeps: how often a build executes, when an ended build stays
    ended, and what must have happened before a build is marked as cancelled. */
module LifecycleSafety {
  import opened Models
  import opened Lifecycle

  // ---------- The inductive invariant ----------

  /** The attempt has taken over the build and has not returned. */
  predicate Owns(pc: RunnerPc) {
    !pc.Idle? && !pc.Reading? && !pc.Passed?
  }

  ghost predicate Inv(s: State) {
    && (Owns(s.runner.pc) ==> s.handedOff)
    && (s.runner.pc.Passed? ==> !s.handedOff)
    && (s.handedOff ==> !s.row.status.NotStarted?)
    && (!s.handedOff ==> s.row.status.NotStarted? || s.row.status.Failure?)
    && (forall c :: c in s.cancels && !s.cancels[c].CancelReturned? ==> s.handedOff)
    && (s.runner.listener.NotSpawned? <==> !Owns(s.runner.pc))
    && !s.row.status.Unknown?
    && (s.row.status.Cancelled? ==> !Owns(s.runner.pc))
    && (s.runner.pc == Concluding(true) ==> s.runner.listener.FlagSet?)
    && (TerminalState(s.row.status) ==> s.row.completed)
  }

  lemma {:induction false} StepKeepsInv(s: State, l: Label)
    requires Inv(s) && Enabled(s, l)
    ensures Inv(Apply(s, l))
  {
    hide NextAdds, NextServer;
  }

  lemma {:induction false} RunsKeepInv(ls: seq<Label>)
    requires IsRun(ls)
    ensures Inv(After(ls))
  {
    if ls != [] {
      RunsKeepInv(Front(ls));
      StepKeepsInv(After(Front(ls)), Last(ls));
    }
  }

  // ---------- Where the present state comes from ----------

  /** The status is the one most recently written. */
  lemma {:induction false} LastWrite(ls: seq<Label>) returns (k: nat)
    requires IsRun(ls) && !After(ls).row.status.NotStarted?
    ensures k < |ls| && Written(ls[k]) == Some(After(ls).row.status)
    ensures forall n :: k < n < |ls| ==> Written(ls[n]).None?
  {
    if Written(Last(ls)).Some? {
      RunsKeepInv(Front(ls));
      k := |ls| - 1;
    } else {
      k := LastWrite(Front(ls));
      forall n | k < n < |ls| ensures Written(ls[n]).None? {
        if n < |ls| - 1 { assert Front(ls)[n] == ls[n]; }
      }
    }
  }

  // ---------- A build executes at most once ----------

  /** How often BRunner.Build has been called. */
  function Calls(ls: seq<Label>): nat {
    if ls == [] then 0 else Calls(Front(ls)) + if Last(ls).BuildCalled? then 1 else 0
  }

  lemma {:induction false} CallsBounded(ls: seq<Label>)
    requires IsRun(ls)
    ensures Calls(ls) <= if After(ls).handedOff then 1 else 0
    ensures After(ls).runner.pc.Working? || After(ls).runner.pc.Skipping? ==> Calls(ls) == 0
  {
    if ls != [] {
      RunsKeepInv(Front(ls));
      CallsBounded(Front(ls));
    }
  }

  lemma {:induction false} CallsOfPrefix(ls: seq<Label>, k: nat)
    requires k < |ls| && ls[k].BuildCalled?
    ensures Calls(ls[..k]) < Calls(ls[..k + 1]) <= Calls(ls)
  {
    if k == |ls| - 1 {
      assert ls[..k + 1] == ls;
    } else {
      CallsOfPrefix(Front(ls), k);
      assert Front(ls)[..k] == ls[..k] && Front(ls)[..k + 1] == ls[..k + 1];
    }
  }

  /** Over any number of attempts, each crashing wherever it may, the image is built at most once. */
  lemma {:induction false} BuildsAtMostOnce(ls: seq<Label>, i: nat, j: nat)
    requires IsRun(ls) && i < j < |ls|
    ensures !(ls[i].BuildCalled? && ls[j].BuildCalled?)
  {
    if ls[i].BuildCalled? && ls[j].BuildCalled? {
      CallsBounded(ls);
      CallsOfPrefix(ls, j);
      CallsOfPrefix(ls[..j], i);
      assert false;
    }
  }

  /** Status before step j, given that it had left NotStarted by step i. */
  lemma {:induction false} NotStartedIsNeverReentered(ls: seq<Label>, i: nat, j: nat)
    requires IsRun(ls) && i <= j <= |ls|
    requires !StatusAt(ls, i).NotStarted?
    ensures !StatusAt(ls, j).NotStarted?
  {
    hide NextCancels, NextAdds, NextServer, NextRunner;
    if i < j {
      NotStartedIsNeverReentered(ls, i, j - 1);
      StepOfRun(ls, j - 1);
      RunsKeepInv(ls[..j - 1]);
    }
  }

  /** The Running write commits at most once over all attempts. */
  lemma {:induction false} HandsOffAtMostOnce(ls: seq<Label>, i: nat, j: nat)
    requires IsRun(ls) && i < j < |ls|
    requires ls[i].HandoffWrite? && ls[i].w.Committed()
    ensures !ls[j].HandoffWrite?
  {
    StepOfRun(ls, i);
    StaysHandedOff(ls, i + 1, j);
    StepOfRun(ls, j);
    RunsKeepInv(ls[..j]);
  }

  lemma {:induction false} StaysHandedOff(ls: seq<Label>, i: nat, j: nat)
    requires IsRun(ls) && i <= j <= |ls|
    requires After(ls[..i]).handedOff
    ensures After(ls[..j]).handedOff
  {
    if i < j {
      StaysHandedOff(ls, i, j - 1);
      StepOfRun(ls, j - 1);
    }
  }

  // ---------- Ended builds ----------

  /** Nobody is between a check and the write it allows. */
  ghost predicate Quiescent(s: State) {
    && TerminalState(s.row.status)
    && (forall c :: c in s.cancels ==> !s.cancels[c].Checked?)
    && (s.runner.pc.Idle? || s.runner.pc.Reading?)
    && s.server.Finished?
  }

  lemma {:induction false} QuiescentStep(s: State, l: Label)
    requires Quiescent(s) && Enabled(s, l)
    ensures Quiescent(Apply(s, l)) && Written(l).None?
  {
  }

  /** Once in-flight writers have drained, an ended build keeps its status and completion time. */
  lemma {:induction false} TerminalIsAbsorbing(ls: seq<Label>, ms: seq<Label>)
    requires IsRun(ls + ms) && Quiescent(After(ls))
    ensures Quiescent(After(ls + ms))
    ensures After(ls + ms).row.status == After(ls).row.status
    ensures forall k :: |ls| <= k < |ls + ms| ==> Written((ls + ms)[k]).None?
  {
    if ms == [] {
      assert ls + ms == ls;
    } else {
      assert Front(ls + ms) == ls + Front(ms) && Last(ls + ms) == Last(ms);
      TerminalIsAbsorbing(ls, Front(ms));
      QuiescentStep(After(ls + Front(ms)), Last(ms));
      forall k | |ls| <= k < |ls + ms| ensures Written((ls + ms)[k]).None? {
        if k < |ls + ms| - 1 { assert (ls + ms)[k] == (ls + Front(ms))[k]; }
      }
    }
  }

  lemma {:induction false} DrainedStep(s: State, l: Label)
    requires Quiescent(s) && Enabled(s, l) && forall a :: a in s.adds ==> !s.adds[a].AddChecked?
    ensures Apply(s, l).row == s.row && forall a :: a in Apply(s, l).adds ==> !Apply(s, l).adds[a].AddChecked?
  {
    hide NextCancels, NextServer, NextRunner;
  }

  /** The event log of an ended build is final once no AddEvent is past its check. */
  lemma {:induction false} EventsAreFinal(ls: seq<Label>, ms: seq<Label>)
    requires IsRun(ls + ms) && Quiescent(After(ls))
    requires forall a :: a in After(ls).adds ==> !After(ls).adds[a].AddChecked?
    ensures forall a :: a in After(ls + ms).adds ==> !After(ls + ms).adds[a].AddChecked?
    ensures After(ls + ms).row == After(ls).row
  {
    hide Apply, Enabled, Quiescent;
    if ms == [] {
      assert ls + ms == ls;
    } else {
      assert Front(ls + ms) == ls + Front(ms) && Last(ls + ms) == Last(ms);
      EventsAreFinal(ls, Front(ms));
      TerminalIsAbsorbing(ls, Front(ms));
      DrainedStep(After(ls + Front(ms)), Last(ms));
    }
  }

  /** A way for the writer that is still pending to commit. */
  function Drain(s: State): seq<Label> {
    if s.server.Starting? then [JobStarted(false, 0), FailureWrite(Acked)]
    else if s.server.Waiting? then [JobSignal(false), FailureWrite(Acked)]
    else if s.server.HandoffFailed? then [FailureWrite(Acked)]
    else match s.runner.pc
      case Passed => [HandoffWrite(Acked)]
      case Working => [TagsExist, SkippedWrite(Acked)]
      case Skipping => [SkippedWrite(Acked)]
      case Building => [BuildReturned(true), SuccessWrite(Acked)]
      case Finishing => [SuccessWrite(Acked)]
      case Failing =>
        [FlagRead, FinalWrite(s.runner.listener.FlagSet?, Acked)]
      case Concluding(x) => [FinalWrite(x, Acked)]
      case _ => []
  }

  lemma {:induction false} DrainCommits(s: State)
    requires !Quiescent(s) && TerminalState(s.row.status) && Inv(s)
    requires forall c :: c in s.cancels ==> !s.cancels[c].Checked?
    ensures var d := Drain(s);
            && 1 <= |d| <= 2 && Written(Last(d)).Some? && Enabled(s, d[0])
            && (|d| == 2 ==> Enabled(Apply(s, d[0]), d[1]))
  {
  }

  /** From an ended build a further status write can commit exactly when it is not quiescent. */
  lemma {:induction false} WritableExactlyWhenNotQuiescent(ls: seq<Label>)
    requires IsRun(ls) && TerminalState(After(ls).row.status)
    ensures !Quiescent(After(ls)) <==>
            exists ms :: ms != [] && IsRun(ls + ms) && Written(Last(ls + ms)).Some?
  {
    var s := After(ls);
    if Quiescent(s) {
      forall ms | ms != [] && IsRun(ls + ms) ensures Written(Last(ls + ms)).None? {
        TerminalIsAbsorbing(ls, ms);
      }
    } else if c :| c in s.cancels && s.cancels[c].Checked? {
      Extend(ls, CancelWrite(c, Acked));
      assert Last(ls + [CancelWrite(c, Acked)]) == CancelWrite(c, Acked);
    } else {
      RunsKeepInv(ls);
      DrainCommits(s);
      ExtendTwice(ls, Drain(s));
    }
  }

  lemma {:induction false} ExtendTwice(ls: seq<Label>, d: seq<Label>)
    requires IsRun(ls) && 1 <= |d| <= 2 && Enabled(After(ls), d[0])
    requires |d| == 2 ==> Enabled(Apply(After(ls), d[0]), d[1])
    ensures IsRun(ls + d) && Last(ls + d) == Last(d)
  {
    Extend(ls, d[0]);
    if |d| == 1 {
      assert ls + d == ls + [d[0]];
    } else {
      Extend(ls + [d[0]], d[1]);
      assert ls + d == ls + [d[0]] + [d[1]];
    }
  }

  /** A write over a terminal status is the write of a caller, attempt or server goroutine that was
      already past its check. */
  lemma {:induction false} OverwriteIsPending(ls: seq<Label>, l: Label)
    requires IsRun(ls) && Enabled(After(ls), l) && TerminalState(After(ls).row.status)
    requires Apply(After(ls), l).row.status != After(ls).row.status
    ensures !Quiescent(After(ls))
    ensures (l.CancelWrite? && After(ls).cancels[l.c].Checked?)
         || (l.FailureWrite? && After(ls).server.HandoffFailed?)
         || (RunnerLabel(l) && !After(ls).runner.pc.Idle? && !After(ls).runner.pc.Reading?)
  {
    assert Written(l).Some?;
  }

  /** The build was taken over, and CancelBuild call 0 has seen it running. */
  lemma {:induction false} CancelPending() returns (ls: seq<Label>, s: State)
    ensures ls == [JobStarted(true, PODS), AttemptBegin, AttemptRead(true), HandoffWrite(Acked), RpcRead(0), CancelRead(0)]
    ensures Leads(ls, s)
    ensures s == State(Row(Running, [], false), map[0 := Checked], map[], Waiting, Runner(Working, Spawned), true, PODS - 1)
  {
    hide Leads;
    ls, s := TakenOver();
    ls, s := Took(ls, s, RpcRead(0));
    ls, s := Took(ls, s, CancelRead(0));
  }

  /** A caller that checked while the build was running un-ends a build that has since succeeded. */
  lemma {:induction false} CancelOverwritesSuccess() returns (ls: seq<Label>, s: State)
    ensures ls == [JobStarted(true, PODS), AttemptBegin, AttemptRead(true), HandoffWrite(Acked), RpcRead(0), CancelRead(0),
                   BuildCalled, BuildReturned(true), SuccessWrite(Acked), CancelWrite(0, Acked)]
    ensures s == State(Row(CancelRequested, [], true), map[0 := CancelReturned(true)], map[], Waiting, IDLE_RUNNER, true, PODS - 1)
    ensures Leads(ls, s)
  {
    hide Leads;
    ls, s := CancelPending();
    ls, s := Took(ls, s, BuildCalled);
    ls, s := Took(ls, s, BuildReturned(true));
    ls, s := Took(ls, s, SuccessWrite(Acked));
    ls, s := Took(ls, s, CancelWrite(0, Acked));
  }

  // ---------- What precedes a cancellation ----------

  /** The cancellation goroutine's ListenForCancellation returned nil at step n. */
  predicate ReturnsNil(ls: seq<Label>, n: nat)
    requires n < |ls|
  {
    ls[n].ListenerWoken? ||
    (ls[n] == ListenerRead(true) && After(ls[..n + 1]).runner.listener.GotCancel?)
  }

  predicate CancelCommit(l: Label) {
    l.CancelWrite? && l.w.Committed()
  }

  lemma {:induction false} OriginOfPending(ls: seq<Label>) returns (k: nat)
    requires IsRun(ls)
    requires After(ls).runner.listener.Listening? && After(ls).runner.listener.pending > 0
    ensures k < |ls| && CancelCommit(ls[k])
  {
    if CancelCommit(Last(ls)) {
      k := |ls| - 1;
    } else {
      k := OriginOfPending(Front(ls));
    }
  }

  /** A call past its check has read Running. */
  lemma {:induction false} OriginOfCheck(ls: seq<Label>, c: nat) returns (j: nat)
    requires IsRun(ls) && c in After(ls).cancels && After(ls).cancels[c].Checked?
    ensures j < |ls| && ls[j] == CancelRead(c) && StatusAt(ls, j).Running?
  {
    if Last(ls) == CancelRead(c) {
      j := |ls| - 1;
    } else {
      j := OriginOfCheck(Front(ls), c);
      assert Front(ls)[..j] == ls[..j];
    }
  }

  /** A goroutine that set out to cancel was told to, within its own attempt. */
  lemma {:induction false} OriginOfNil(ls: seq<Label>) returns (n: nat)
    requires IsRun(ls)
    requires After(ls).runner.listener.GotCancel? || After(ls).runner.listener.ContextDone?
          || After(ls).runner.listener.FlagSet?
    ensures n < |ls| && ReturnsNil(ls, n)
    ensures forall x :: n < x < |ls| ==> !ls[x].AttemptBegin?
  {
    hide Commit, NextCancels, NextAdds, NextServer, Written;
    assert ls[..|ls| - 1 + 1] == ls;
    if Last(ls).ListenerWoken? || Last(ls).ListenerRead? {
      n := |ls| - 1;
    } else {
      RunsKeepInv(Front(ls));
      n := OriginOfNil(Front(ls));
      assert Front(ls)[..n + 1] == ls[..n + 1];
      forall x | n < x < |ls| ensures !ls[x].AttemptBegin? {
        if x < |ls| - 1 { assert Front(ls)[x] == ls[x]; }
      }
    }
  }

  /** ListenForCancellation returns nil only after a CancelBuild has committed. */
  lemma {:induction false} NilNeedsCancelCommit(ls: seq<Label>, n: nat) returns (k: nat)
    requires IsRun(ls) && n < |ls| && ReturnsNil(ls, n)
    ensures k < n && CancelCommit(ls[k])
  {
    hide IsRun, Commit, NextCancels, NextAdds, NextServer, NextRunnerPc, Written;
    StepOfRun(ls, n);
    RunsKeepInv(ls[..n]);
    if ls[n].ListenerWoken? {
      k := OriginOfPending(ls[..n]);
    } else {
      k := LastWrite(ls[..n]);
      WritesOfCancel(ls[k]);
    }
  }

  lemma {:induction false} WritesOfCancel(l: Label)
    ensures Written(l) == Some(CancelRequested) <==> CancelCommit(l)
  {
  }

  /** The Cancelled verdict is reached exactly when the flag was set before it was read. */
  lemma {:induction false} OriginOfVerdict(ls: seq<Label>) returns (f: nat)
    requires IsRun(ls) && After(ls).runner.pc.Concluding?
    ensures f < |ls| && ls[f].FlagRead?
    ensures After(ls).runner.pc.cancelled <==> After(ls[..f]).runner.listener.FlagSet?
    ensures forall x :: f < x < |ls| ==> !ls[x].AttemptBegin?
  {
    if Last(ls).FlagRead? {
      f := |ls| - 1;
    } else {
      f := OriginOfVerdict(Front(ls));
      assert Front(ls)[..f] == ls[..f];
      forall x | f < x < |ls| ensures !ls[x].AttemptBegin? {
        if x < |ls| - 1 { assert Front(ls)[x] == ls[x]; }
      }
    }
  }

  /** Steps i, j, k, n of ls, in this order: an attempt takes over the build, CancelBuild call c reads
      Running, the same call commits, and ListenForCancellation returns nil. */
  ghost predicate CancelChain(ls: seq<Label>, i: nat, j: nat, k: nat, n: nat) {
    && i < j < k < n < |ls|
    && ls[i].HandoffWrite? && ls[i].w.Committed()
    && ls[j].CancelRead? && StatusAt(ls, j).Running?
    && CancelCommit(ls[k]) && ls[k].c == ls[j].c
    && ReturnsNil(ls, n)
  }

  /** A goroutine that was told to cancel completes the chain. */
  lemma {:induction false} NilEndsChain(ls: seq<Label>, n: nat) returns (i: nat, j: nat, k: nat)
    requires IsRun(ls) && n < |ls| && ReturnsNil(ls, n)
    ensures CancelChain(ls, i, j, k, n)
  {
    hide Apply, ReturnsNil, IsRun;
    k := NilNeedsCancelCommit(ls, n);
    StepOfRun(ls, k);
    j := OriginOfCheck(ls[..k], ls[k].c);
    assert ls[..k][..j] == ls[..j];
    PrefixIsRun(ls, j);
    i := LastWrite(ls[..j]);
    assert ls[..j][i] == ls[i];
  }

  lemma {:induction false} FlagNeedsNil(ls: seq<Label>, m: nat) returns (n: nat)
    requires IsRun(ls) && m < |ls| && Written(ls[m]) == Some(Cancelled)
    ensures n < m && ReturnsNil(ls, n) && forall x :: n < x < m ==> !ls[x].AttemptBegin?
  {
    hide Apply, IsRun;
    StepOfRun(ls, m);
    var f := OriginOfVerdict(ls[..m]);
    assert ls[..m][..f] == ls[..f];
    PrefixIsRun(ls, f);
    n := OriginOfNil(ls[..f]);
    assert ls[..f][..n + 1] == ls[..n + 1];
    forall x | n < x < m ensures !ls[x].AttemptBegin? {
      if x < f { assert ls[..f][x] == ls[x]; } else { assert ls[..m][x] == ls[x]; }
    }
  }

  /** A build is marked as cancelled only at the end of that chain, and the goroutine that was told
      to cancel belongs to the attempt that writes the status. */
  lemma {:induction false} CancelledHasCause(ls: seq<Label>, m: nat)
    requires IsRun(ls) && m < |ls| && Written(ls[m]) == Some(Cancelled)
    ensures exists i: nat, j: nat, k: nat, n: nat ::
              CancelChain(ls, i, j, k, n) && n < m && forall x :: n < x < m ==> !ls[x].AttemptBegin?
  {
    var n := FlagNeedsNil(ls, m);
    var i, j, k := NilEndsChain(ls, n);
  }

  /** The context is cancelled before the flag is set, so a build that was cancelled, and whose
      runner was told so, may still end as a failure. */
  lemma {:induction false} CancelledRunMayFail() returns (ls: seq<Label>, s: State)
    ensures Leads(ls, s) && s.row.status.Failure?
    ensures exists k, n :: 0 <= k < n < |ls| && CancelCommit(ls[k]) && ls[n] == ListenerCancelsContext
  {
    hide Leads;
    ls, s := CancelPending();
    ls, s := Took(ls, s, CancelWrite(0, Acked));
    ls, s := Took(ls, s, ListenerRead(true));
    ls, s := Took(ls, s, ListenerCancelsContext);
    assert CancelCommit(ls[6]) && ls[8] == ListenerCancelsContext;
    ls, s := FailNow(ls, s);
  }

  lemma {:induction false} FailNow(before: seq<Label>, start: State) returns (ls: seq<Label>, s: State)
    requires Leads(before, start) && start.runner == Runner(Working, ContextDone)
    ensures Leads(ls, s) && before <= ls && s.row.status.Failure?
  {
    hide Leads;
    ls, s := Took(before, start, WorkFailed);
    ls, s := Took(ls, s, FlagRead);
    ls, s := Took(ls, s, FinalWrite(false, Acked));
  }
}
