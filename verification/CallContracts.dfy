/** The protocol as its callers see it: what a CancelBuild or AddEvent call can achieve from the state it
    begins in, what a returned success means, and what each actor makes of what it reads. */
module CallContracts {
  import opened Models
  import opened Lifecycle
  import opened LifecycleSafety

  // ---------- Writes ----------

  predicate SetsStatus(l: Label) {
    l.CancelWrite? || l.FailureWrite? || l.HandoffWrite? || l.SkippedWrite? || l.SuccessWrite? || l.FinalWrite?
  }

  /** What a write leaves in the row, whether or not its client is told. */
  lemma {:induction false} RowAfterWrite(s: State, l: Label)
    requires SetsStatus(l)
    ensures l.w == Refused ==> Apply(s, l).row == s.row
    ensures l.w != Refused ==>
              Apply(s, l).row.events == s.row.events
              && Apply(s, l).row.completed == (s.row.completed || !(l.HandoffWrite? || l.CancelWrite?))
              && Apply(s, l).row.status ==
                 match l
                 case HandoffWrite(_) => Running
                 case CancelWrite(_, _) => CancelRequested
                 case SkippedWrite(_) => Skipped
                 case SuccessWrite(_) => Success
                 case FailureWrite(_) => Failure
                 case FinalWrite(cancelled, _) => if cancelled then Cancelled else Failure
                 case _ => s.row.status
  {
    hide NextCancels, NextAdds, NextServer, NextRunner, NextPods;
  }

  // ---------- AddEvent ----------

  /** A new AddEvent call is past its check exactly when the build it reads has not ended. */
  lemma {:induction false} AddEventChecks(ls: seq<Label>, a: nat, event: string)
    requires IsRun(ls) && a !in After(ls).adds
    ensures IsRun(ls + [AddRead(a, event)]) && a in After(ls + [AddRead(a, event)]).adds
    ensures After(ls + [AddRead(a, event)]).adds[a] ==
            if HasEnded(After(ls).row.status) then AddReturned(false) else AddChecked(event)
  {
    Extend(ls, AddRead(a, event));
  }

  ghost predicate Added(s: State, a: nat) {
    a in s.adds && s.adds[a] == AddReturned(true)
  }

  lemma {:induction false} AddStaysRefused(ls: seq<Label>, ms: seq<Label>, a: nat)
    requires IsRun(ls + ms) && a in After(ls).adds && After(ls).adds[a] == AddReturned(false)
    ensures a in After(ls + ms).adds && After(ls + ms).adds[a] == AddReturned(false)
  {
    hide NextCancels, NextServer, NextRunner, NextPods, Commit;
    if ms == [] {
      assert ls + ms == ls;
    } else {
      assert Front(ls + ms) == ls + Front(ms) && Last(ls + ms) == Last(ms);
      AddStaysRefused(ls, Front(ms), a);
    }
  }

  /** An AddEvent call that begins now can succeed exactly when the build has not ended. */
  lemma {:induction false} AddEventSucceedsExactly(ls: seq<Label>, a: nat, event: string)
    requires IsRun(ls) && a !in After(ls).adds
    ensures !HasEnded(After(ls).row.status) <==>
            exists ms :: IsRun(ls + [AddRead(a, event)] + ms) && Added(After(ls + [AddRead(a, event)] + ms), a)
  {
    AddEventChecks(ls, a, event);
    var begun := ls + [AddRead(a, event)];
    if !HasEnded(After(ls).row.status) {
      Extend(begun, AddWrite(a, event, Acked));
    } else {
      hide Apply, Enabled, IsRun, After;
      forall ms | IsRun(begun + ms) ensures !Added(After(begun + ms), a) {
        AddStaysRefused(begun, ms, a);
      }
    }
  }

  /** An event whose AddEvent call returned success was appended to the log, by a call that had read a
      status that is not terminal. */
  lemma {:induction false} AddedMeansAppended(ls: seq<Label>, a: nat) returns (j: nat, k: nat, event: string)
    requires IsRun(ls) && Added(After(ls), a)
    ensures j < k < |ls| && ls[j] == AddRead(a, event) && ls[k] == AddWrite(a, event, Acked)
    ensures !HasEnded(StatusAt(ls, j))
    ensures After(ls[..k + 1]).row.events == After(ls[..k]).row.events + [event]
  {
    hide NextCancels, NextServer, NextRunner, NextPods, Commit, IsRun, Enabled;
    LastAdd(ls, a);
    if Last(ls).AddWrite? && Last(ls).a == a {
      k, event := |ls| - 1, Last(ls).event;
      assert ls[..k] == Front(ls) && ls[..k + 1] == ls;
      j := OriginOfAddCheck(Front(ls), a, event);
      assert Front(ls)[..j] == ls[..j];
      Appends(After(Front(ls)), Last(ls));
    } else {
      j, k, event := AddedMeansAppended(Front(ls), a);
      assert Front(ls)[..j] == ls[..j] && Front(ls)[..k] == ls[..k] && Front(ls)[..k + 1] == ls[..k + 1];
    }
  }

  /** A call has succeeded with the last step or before it. */
  lemma {:induction false} LastAdd(ls: seq<Label>, a: nat)
    requires IsRun(ls) && Added(After(ls), a)
    ensures ls != [] && IsRun(Front(ls))
    ensures if Last(ls).AddWrite? && Last(ls).a == a
            then Last(ls).w == Acked && a in After(Front(ls)).adds
                 && After(Front(ls)).adds[a] == AddChecked(Last(ls).event)
            else Added(After(Front(ls)), a)
  {
    hide NextCancels, NextServer, NextRunner, NextPods, Commit;
  }

  lemma {:induction false} Appends(s: State, l: Label)
    requires l.AddWrite? && l.w.Acked?
    ensures Apply(s, l).row.events == s.row.events + [l.event]
  {
  }

  lemma {:induction false} OriginOfAddCheck(ls: seq<Label>, a: nat, event: string) returns (j: nat)
    requires IsRun(ls) && a in After(ls).adds && After(ls).adds[a] == AddChecked(event)
    ensures j < |ls| && ls[j] == AddRead(a, event) && !HasEnded(StatusAt(ls, j))
  {
    hide NextCancels, NextServer, NextRunner, NextPods, Commit;
    assert ls[..|ls| - 1] == Front(ls);
    if Last(ls).AddRead? && Last(ls).a == a {
      j := |ls| - 1;
    } else {
      j := OriginOfAddCheck(Front(ls), a, event);
      assert Front(ls)[..j] == ls[..j];
    }
  }

  // ---------- CancelBuild ----------

  ghost predicate Granted(s: State, c: nat) {
    c in s.cancels && s.cancels[c] == CancelReturned(true)
  }

  lemma {:induction false} CancelStaysRefused(ls: seq<Label>, ms: seq<Label>, c: nat)
    requires IsRun(ls + ms) && c in After(ls).cancels && After(ls).cancels[c] == CancelReturned(false)
    ensures c in After(ls + ms).cancels && After(ls + ms).cancels[c] == CancelReturned(false)
  {
    hide NextAdds, NextServer, NextRunner, NextPods, Commit;
    if ms == [] {
      assert ls + ms == ls;
    } else {
      assert Front(ls + ms) == ls + Front(ms) && Last(ls + ms) == Last(ms);
      CancelStaysRefused(ls, Front(ms), c);
    }
  }

  /** A CancelBuild call that begins now can succeed exactly when the build is Running. */
  lemma {:induction false} CancelBuildSucceedsExactly(ls: seq<Label>, c: nat)
    requires IsRun(ls) && c !in After(ls).cancels
    ensures After(ls).row.status == Running <==>
            exists ms :: IsRun(ls + [RpcRead(c)] + ms) && Granted(After(ls + [RpcRead(c)] + ms), c)
  {
    var begun := ls + [RpcRead(c)];
    Extend(ls, RpcRead(c));
    if After(ls).row.status == Running {
      var ms := GrantNow(ls, c);
    } else {
      hide Apply, Enabled, IsRun;
      forall ms | IsRun(begun + ms) ensures !Granted(After(begun + ms), c) {
        CancelStaysRefused(begun, ms, c);
      }
    }
  }

  lemma {:induction false} GrantNow(ls: seq<Label>, c: nat) returns (ms: seq<Label>)
    requires IsRun(ls) && c !in After(ls).cancels && After(ls).row.status == Running
    ensures IsRun(ls + [RpcRead(c)] + ms) && Granted(After(ls + [RpcRead(c)] + ms), c)
    ensures After(ls + [RpcRead(c)] + ms).row.status == CancelRequested
  {
    var s := After(ls);
    assert Leads(ls, s);
    hide Leads;
    var l1, s1 := Took(ls, s, RpcRead(c));
    var l2, s2 := Took(l1, s1, CancelRead(c));
    var l3, s3 := Took(l2, s2, CancelWrite(c, Acked));
    ms := [CancelRead(c), CancelWrite(c, Acked)];
    assert ls + [RpcRead(c)] + ms == l3;
    ReachedBy(l3, s3);
  }

  lemma {:induction false} ReachedBy(ls: seq<Label>, s: State)
    requires Leads(ls, s)
    ensures IsRun(ls) && After(ls) == s
  {
  }

  /** A CancelBuild call that returned success has found the build Running twice, and has then written
      and been acknowledged. */
  lemma {:induction false} GrantedMeansWritten(ls: seq<Label>, c: nat) returns (i: nat, j: nat, k: nat)
    requires IsRun(ls) && Granted(After(ls), c)
    ensures i < j < k < |ls|
    ensures ls[i] == RpcRead(c) && StatusAt(ls, i) == Running
    ensures ls[j] == CancelRead(c) && StatusAt(ls, j) == Running
    ensures ls[k] == CancelWrite(c, Acked)
  {
    hide Apply, Enabled, IsRun, After;
    LastGrant(ls, c);
    if Last(ls).CancelWrite? && Last(ls).c == c {
      k := |ls| - 1;
      i, j := OriginOfBothReads(Front(ls), c);
      assert Front(ls)[..i] == ls[..i] && Front(ls)[..j] == ls[..j];
    } else {
      i, j, k := GrantedMeansWritten(Front(ls), c);
      assert Front(ls)[..i] == ls[..i] && Front(ls)[..j] == ls[..j];
    }
  }

  /** A call has succeeded with the last step or before it. */
  lemma {:induction false} LastGrant(ls: seq<Label>, c: nat)
    requires IsRun(ls) && Granted(After(ls), c)
    ensures ls != [] && IsRun(Front(ls))
    ensures if Last(ls).CancelWrite? && Last(ls).c == c
            then Last(ls).w == Acked && c in After(Front(ls)).cancels && After(Front(ls)).cancels[c] == Checked
            else Granted(After(Front(ls)), c)
  {
    hide NextAdds, NextServer, NextRunner, NextPods, Commit;
  }

  lemma {:induction false} OriginOfBothReads(ls: seq<Label>, c: nat) returns (i: nat, j: nat)
    requires IsRun(ls) && c in After(ls).cancels && After(ls).cancels[c] == Checked
    ensures i < j < |ls|
    ensures ls[i] == RpcRead(c) && StatusAt(ls, i) == Running
    ensures ls[j] == CancelRead(c) && StatusAt(ls, j) == Running
  {
    hide NextAdds, NextServer, NextRunner, NextPods, Commit;
    assert ls[..|ls| - 1] == Front(ls);
    if Last(ls) == CancelRead(c) {
      j := |ls| - 1;
      i := OriginOfRpcRead(Front(ls), c);
      assert Front(ls)[..i] == ls[..i];
    } else {
      i, j := OriginOfBothReads(Front(ls), c);
      assert Front(ls)[..i] == ls[..i] && Front(ls)[..j] == ls[..j];
    }
  }

  lemma {:induction false} OriginOfRpcRead(ls: seq<Label>, c: nat) returns (i: nat)
    requires IsRun(ls) && c in After(ls).cancels && After(ls).cancels[c] == RpcChecked
    ensures i < |ls| && ls[i] == RpcRead(c) && StatusAt(ls, i) == Running
  {
    hide NextAdds, NextServer, NextRunner, NextPods, Commit;
    assert ls[..|ls| - 1] == Front(ls);
    if Last(ls) == RpcRead(c) {
      i := |ls| - 1;
    } else {
      i := OriginOfRpcRead(Front(ls), c);
      assert Front(ls)[..i] == ls[..i];
    }
  }

  // ---------- The goroutine StartBuild leaves behind ----------

  /** It was told that the job could not be started, or that it will not run. */
  predicate ToldOfFailure(l: Label) {
    (l.JobStarted? && !l.ok) || l == JobSignal(false)
  }

  /** It is about to write Failure exactly when the last it was told is a failure, and it has neither
      written since nor crashed. */
  lemma {:induction false} ReportsFailureExactly(ls: seq<Label>)
    requires IsRun(ls)
    ensures After(ls).server.HandoffFailed? <==>
            exists k :: 0 <= k < |ls| && ToldOfFailure(ls[k])
                        && forall n :: k < n < |ls| ==> !ls[n].FailureWrite? && !ls[n].ServerCrash?
  {
    hide Apply, Enabled, ToldOfFailure;
    if ls != [] {
      var front := Front(ls);
      ReportsFailureExactly(front);
      ReportStep(After(front), Last(ls));
      assert forall n :: 0 <= n < |front| ==> front[n] == ls[n];
      if After(ls).server.HandoffFailed? {
        if ToldOfFailure(Last(ls)) {
          assert ToldOfFailure(ls[|ls| - 1]);
        } else {
          var k :| 0 <= k < |front| && ToldOfFailure(front[k])
                   && forall n :: k < n < |front| ==> !front[n].FailureWrite? && !front[n].ServerCrash?;
          assert ToldOfFailure(ls[k]);
        }
      } else if k :| 0 <= k < |ls| && ToldOfFailure(ls[k])
                     && forall n :: k < n < |ls| ==> !ls[n].FailureWrite? && !ls[n].ServerCrash? {
        if k < |front| {
          assert ToldOfFailure(front[k]);
        }
      }
    }
  }

  lemma {:induction false} ReportStep(s: State, l: Label)
    requires Enabled(s, l)
    ensures Apply(s, l).server.HandoffFailed? <==>
            ToldOfFailure(l) || (s.server.HandoffFailed? && !l.FailureWrite? && !l.ServerCrash?)
  {
    hide NextCancels, NextAdds, NextRunner, NextPods, Commit;
  }

  // ---------- What the cancellation goroutine makes of the row ----------

  /** Running sends it to LISTEN, a granted or completed cancellation makes it return nil, and any other
      status is an error. */
  lemma {:induction false} ListenerReads(ls: seq<Label>)
    requires IsRun(ls) && After(ls).runner.listener.Spawned?
    ensures IsRun(ls + [ListenerRead(true)]) && IsRun(ls + [ListenerRead(false)])
    ensures After(ls + [ListenerRead(true)]).runner.listener ==
            match After(ls).row.status
            case Running => SawRunning
            case CancelRequested => GotCancel
            case Cancelled => GotCancel
            case Unknown => Stopped
            case NotStarted => Stopped
            case Skipped => Stopped
            case Failure => Stopped
            case Success => Stopped
    ensures After(ls + [ListenerRead(false)]).runner.listener == Stopped
  {
    RunsKeepInv(ls);
    Extend(ls, ListenerRead(true));
    Extend(ls, ListenerRead(false));
  }

  lemma {:induction false} ListenerSteps(s: State)
    requires Inv(s)
    ensures s.runner.listener.SawRunning? ==>
              && Enabled(s, ListenerListen(false)) && Apply(s, ListenerListen(false)).runner.listener == Stopped
              && Enabled(s, ListenerListen(true)) && Apply(s, ListenerListen(true)).runner.listener == Listening(0)
    ensures s.runner.listener.Listening? ==>
              Enabled(s, ListenerFailed) && Apply(s, ListenerFailed).runner.listener == Stopped
    ensures s.runner.listener.GotCancel? ==>
              Enabled(s, ListenerCancelsContext) && Apply(s, ListenerCancelsContext).runner.listener == ContextDone
    ensures s.runner.listener.ContextDone? ==>
              Enabled(s, ListenerSetsFlag) && Apply(s, ListenerSetsFlag).runner.listener == FlagSet
  {
    hide NextCancels, NextAdds, NextServer, NextPods, Commit;
  }

  /** A goroutine that is about to listen may fail to, and one that waits may be given up; told of a
      cancellation it cancels the context first and sets the flag then. */
  lemma {:induction false} ListenerGoesOn(ls: seq<Label>)
    requires IsRun(ls)
    ensures After(ls).runner.listener.SawRunning? ==>
              && IsRun(ls + [ListenerListen(false)]) && After(ls + [ListenerListen(false)]).runner.listener == Stopped
              && IsRun(ls + [ListenerListen(true)]) && After(ls + [ListenerListen(true)]).runner.listener == Listening(0)
    ensures After(ls).runner.listener.Listening? ==>
              IsRun(ls + [ListenerFailed]) && After(ls + [ListenerFailed]).runner.listener == Stopped
    ensures After(ls).runner.listener.GotCancel? ==>
              IsRun(ls + [ListenerCancelsContext]) && After(ls + [ListenerCancelsContext]).runner.listener == ContextDone
    ensures After(ls).runner.listener.ContextDone? ==>
              IsRun(ls + [ListenerSetsFlag]) && After(ls + [ListenerSetsFlag]).runner.listener == FlagSet
  {
    RunsKeepInv(ls);
    ListenerSteps(After(ls));
    hide IsRun, After, Apply, Enabled;
    match After(ls).runner.listener {
      case SawRunning =>
        Extend(ls, ListenerListen(false));
        Extend(ls, ListenerListen(true));
      case Listening(_) => Extend(ls, ListenerFailed);
      case GotCancel => Extend(ls, ListenerCancelsContext);
      case ContextDone => Extend(ls, ListenerSetsFlag);
      case _ =>
    }
  }

  // ---------- What may happen at any time ----------

  /** Callers may come in every state. */
  lemma {:induction false} CallersMayCome(ls: seq<Label>, c: nat, a: nat, event: string)
    requires IsRun(ls)
    ensures c !in After(ls).cancels ==> IsRun(ls + [RpcRead(c)])
    ensures a !in After(ls).adds ==> IsRun(ls + [AddRead(a, event)])
  {
    hide Apply, After, IsRun;
    if c !in After(ls).cancels { Extend(ls, RpcRead(c)); }
    if a !in After(ls).adds { Extend(ls, AddRead(a, event)); }
  }

  /** The server may crash and the job may end in every state. */
  lemma {:induction false} ServersMayCrash(ls: seq<Label>)
    requires IsRun(ls)
    ensures IsRun(ls + [JobEnds]) && After(ls + [JobEnds]) == After(ls).(pods := 0)
    ensures !After(ls).server.Finished? ==>
              IsRun(ls + [ServerCrash]) && After(ls + [ServerCrash]) == After(ls).(server := Finished)
  {
    hide After, IsRun;
    RunsKeepInv(ls);
    Extend(ls, JobEnds);
    if !After(ls).server.Finished? { Extend(ls, ServerCrash); }
  }

  /** An attempt may crash wherever it is, which leaves the row alone and takes its goroutine with it;
      and it may begin as long as the job grants one. */
  lemma {:induction false} AttemptsMayCrash(ls: seq<Label>)
    requires IsRun(ls)
    ensures !After(ls).runner.pc.Idle? ==>
              IsRun(ls + [AttemptCrash]) && After(ls + [AttemptCrash]) == After(ls).(runner := Runner(Idle, NotSpawned))
    ensures After(ls).runner.pc.Idle? && After(ls).pods > 0 ==>
              IsRun(ls + [AttemptBegin]) && After(ls + [AttemptBegin]).pods == After(ls).pods - 1
              && After(ls + [AttemptBegin]).row == After(ls).row
  {
    hide After, IsRun;
    if !After(ls).runner.pc.Idle? { Extend(ls, AttemptCrash); }
    if After(ls).runner.pc.Idle? && After(ls).pods > 0 { Extend(ls, AttemptBegin); }
  }

  /** The same write with another outcome. */
  function WithOutcome(l: Label, w: Write): Label
    requires SetsStatus(l) || l.AddWrite?
  {
    match l
    case CancelWrite(c, _) => CancelWrite(c, w)
    case AddWrite(a, event, _) => AddWrite(a, event, w)
    case FailureWrite(_) => FailureWrite(w)
    case HandoffWrite(_) => HandoffWrite(w)
    case SkippedWrite(_) => SkippedWrite(w)
    case SuccessWrite(_) => SuccessWrite(w)
    case FinalWrite(x, _) => FinalWrite(x, w)
  }

  /** A write that is due may end in any of the three ways. */
  lemma {:induction false} WritesMayFail(ls: seq<Label>, l: Label, w: Write)
    requires IsRun(ls + [l]) && (SetsStatus(l) || l.AddWrite?)
    ensures IsRun(ls + [WithOutcome(l, w)])
  {
    hide Apply, After;
    assert Front(ls + [l]) == ls && Last(ls + [l]) == l;
    Extend(ls, WithOutcome(l, w));
  }
}
