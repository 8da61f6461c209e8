/** Builds that nobody is left to end: exactly which they are, and how they come about. */
module Abandonment {
  import opened Models
  import opened Lifecycle
  import opened LifecycleSafety

  /** No attempt has got past its check. */
  predicate NobodyAtWork(s: State) {
    s.runner.pc.Idle? || s.runner.pc.Reading?
  }

  /** No attempt is left, present or future, that would take the build to an end. An attempt is of use
      for a build only before it has been taken over. */
  predicate NoAttemptLeft(s: State) {
    if s.row.status.NotStarted? then s.runner.pc.Idle? && s.pods == 0 else NobodyAtWork(s)
  }

  /** No terminal status will be written any more. */
  predicate NoVerdictToCome(s: State) {
    s.server.Finished? && NoAttemptLeft(s)
  }

  /** The build has not ended, but neither an attempt nor the server is left that would end it. */
  predicate Abandoned(s: State) {
    NoVerdictToCome(s) && !TerminalState(s.row.status)
  }

  /** The build was taken over and has not ended. */
  predicate Unended(s: State) {
    s.row.status.Running? || s.row.status.CancelRequested?
  }

  predicate WritesVerdict(l: Label) {
    Written(l).Some? && TerminalState(Written(l).value)
  }

  // ---------- No verdict comes ----------

  lemma {:induction false} NoVerdictStep(s: State, l: Label)
    requires Inv(s) && NoVerdictToCome(s) && Enabled(s, l)
    ensures NoVerdictToCome(Apply(s, l)) && !WritesVerdict(l)
    ensures TerminalState(Apply(s, l).row.status) ==> TerminalState(s.row.status)
  {
    hide NextAdds, NextListener;
  }

  lemma {:induction false} NoVerdictComes(ls: seq<Label>, ms: seq<Label>)
    requires IsRun(ls + ms) && NoVerdictToCome(After(ls))
    ensures NoVerdictToCome(After(ls + ms))
    ensures TerminalState(After(ls + ms).row.status) ==> TerminalState(After(ls).row.status)
    ensures ms != [] ==> !WritesVerdict(Last(ls + ms))
  {
    hide Apply, Enabled, NoVerdictToCome, WritesVerdict;
    if ms == [] {
      assert ls + ms == ls;
    } else {
      assert Front(ls + ms) == ls + Front(ms) && Last(ls + ms) == Last(ms);
      NoVerdictComes(ls, Front(ms));
      RunsKeepInv(ls + Front(ms));
      NoVerdictStep(After(ls + Front(ms)), Last(ms));
    }
  }

  lemma {:induction false} AbandonedStep(s: State, l: Label)
    requires Inv(s) && Abandoned(s) && Enabled(s, l)
    ensures Abandoned(Apply(s, l))
  {
    hide Apply, Enabled, NoVerdictToCome;
    NoVerdictStep(s, l);
  }

  /** Retries of the job never end an abandoned build. */
  lemma {:induction false} AbandonedNeverEnds(ls: seq<Label>, ms: seq<Label>)
    requires IsRun(ls + ms) && Abandoned(After(ls))
    ensures Abandoned(After(ls + ms))
  {
    hide Apply, Enabled, NoVerdictToCome;
    NoVerdictComes(ls, ms);
  }

  // ---------- In all other states one still can ----------

  /** A step towards a terminal status. */
  function Onwards(s: State): Label {
    match s.server
    case Starting => JobStarted(false, 0)
    case Waiting => JobSignal(false)
    case HandoffFailed => FailureWrite(Acked)
    case Finished =>
      match s.runner.pc
      case Idle => AttemptBegin
      case Reading => AttemptRead(true)
      case Passed => HandoffWrite(Acked)
      case Working => WorkFailed
      case Skipping => SkippedWrite(Acked)
      case Building => BuildReturned(false)
      case Finishing => SuccessWrite(Acked)
      case Failing => FlagRead
      case Concluding(x) => FinalWrite(x, Acked)
  }

  /** How many of these steps it takes. */
  function Distance(s: State): nat {
    if s.server.Starting? || s.server.Waiting? then 2
    else if s.server.HandoffFailed? then 1
    else match s.runner.pc
      case Idle => 6
      case Reading => 5
      case Passed => 4
      case Working | Building => 3
      case Failing => 2
      case _ => 1
  }

  lemma {:induction false} OnwardsStep(s: State)
    requires Inv(s) && !NoVerdictToCome(s)
    ensures Enabled(s, Onwards(s))
    ensures WritesVerdict(Onwards(s)) ||
            (!NoVerdictToCome(Apply(s, Onwards(s))) && Distance(Apply(s, Onwards(s))) < Distance(s))
  {
    hide NextCancels, NextAdds, NextListener;
  }

  /** A continuation that ends with the commit of a terminal status. */
  lemma {:induction false} WayToVerdict(ls: seq<Label>) returns (ms: seq<Label>)
    requires IsRun(ls) && !NoVerdictToCome(After(ls))
    ensures ms != [] && IsRun(ls + ms) && WritesVerdict(Last(ls + ms))
    decreases Distance(After(ls))
  {
    hide Apply, Enabled, NoVerdictToCome, IsRun, After, Onwards, WritesVerdict;
    var l := Onwards(After(ls));
    RunsKeepInv(ls);
    OnwardsStep(After(ls));
    Extend(ls, l);
    if WritesVerdict(l) {
      ms := [l];
    } else {
      var rest := WayToVerdict(ls + [l]);
      ms := [l] + rest;
      assert ls + ms == ls + [l] + rest;
    }
  }

  /** For every run: a terminal status can still be committed exactly unless no verdict is to come. */
  lemma {:induction false} CommitsExactlyUnlessOver(ls: seq<Label>)
    requires IsRun(ls)
    ensures !NoVerdictToCome(After(ls)) <==>
            exists ms :: ms != [] && IsRun(ls + ms) && WritesVerdict(Last(ls + ms))
  {
    hide NoVerdictToCome, WritesVerdict, IsRun;
    if NoVerdictToCome(After(ls)) {
      forall ms | ms != [] && IsRun(ls + ms) ensures !WritesVerdict(Last(ls + ms)) {
        NoVerdictComes(ls, ms);
      }
    } else {
      var ms := WayToVerdict(ls);
    }
  }

  /** For a build that was taken over and has not ended, that is whether it has been abandoned. */
  lemma {:induction false} CommitsExactlyUnlessAbandoned(ls: seq<Label>)
    requires IsRun(ls) && Unended(After(ls))
    ensures !Abandoned(After(ls)) <==>
            exists ms :: ms != [] && IsRun(ls + ms) && WritesVerdict(Last(ls + ms))
  {
    hide NoVerdictToCome, WritesVerdict, IsRun;
    CommitsExactlyUnlessOver(ls);
  }

  /** A continuation in which the build has ended. */
  lemma {:induction false} WayToEnd(ls: seq<Label>) returns (ms: seq<Label>)
    requires IsRun(ls) && !Abandoned(After(ls))
    ensures IsRun(ls + ms) && TerminalState(After(ls + ms).row.status)
  {
    hide NoVerdictToCome, IsRun;
    if TerminalState(After(ls).row.status) {
      ms := [];
      assert ls + ms == ls;
    } else {
      ms := WayToVerdict(ls);
    }
  }

  /** "Always marked as completed", exactly: a build can still end unless it has been abandoned. */
  lemma {:induction false} EndsExactlyUnlessAbandoned(ls: seq<Label>)
    requires IsRun(ls)
    ensures !Abandoned(After(ls)) <==>
            exists ms :: IsRun(ls + ms) && TerminalState(After(ls + ms).row.status)
  {
    hide IsRun, NoVerdictToCome;
    if Abandoned(After(ls)) {
      forall ms | IsRun(ls + ms) ensures !TerminalState(After(ls + ms).row.status) {
        AbandonedNeverEnds(ls, ms);
      }
    } else {
      var ms := WayToEnd(ls);
    }
  }

  // ---------- How a build is abandoned ----------

  /** Were the server gone, the build would be abandoned. */
  predicate Stuck(s: State) {
    !TerminalState(s.row.status) && NoAttemptLeft(s)
  }

  /** The build has yet to be taken over, and no further attempt will come. */
  predicate LastChance(s: State) {
    s.row.status.NotStarted? && s.pods == 0
  }

  /** The steps that abandon a build. */
  predicate Abandons(s: State, l: Label) {
    match l
    // the last attempt goes away, and the server has gone before
    case AttemptRead(ok) => !ok && LastChance(s) && s.server.Finished?
    case HandoffWrite(w) => (w.Lost? || (w.Refused? && LastChance(s))) && s.server.Finished?
    case AttemptCrash => (Unended(s) || LastChance(s)) && s.server.Finished?
    case FinalWrite(_, w) => w.Refused? && Unended(s) && s.server.Finished?
    // the job grants no more attempts
    case JobEnds => s.row.status.NotStarted? && s.runner.pc.Idle? && s.server.Finished?
    // the server goes away, and no attempt is left
    case JobSignal(ok) => ok && Stuck(s)
    case FailureWrite(w) => w.Refused? && Stuck(s)
    case ServerCrash => Stuck(s)
    // a caller that was past its check un-ends a build that everybody has left
    case CancelWrite(_, w) =>
      w.Committed() && TerminalState(s.row.status) && NobodyAtWork(s) && s.server.Finished?
    case _ => false
  }

  /** These are all the steps by which a build becomes abandoned, and each of them has that effect. */
  lemma {:induction false} HowABuildIsAbandoned(ls: seq<Label>, l: Label)
    requires IsRun(ls) && Enabled(After(ls), l) && !Abandoned(After(ls))
    ensures Abandoned(Apply(After(ls), l)) <==> Abandons(After(ls), l)
  {
    RunsKeepInv(ls);
    AbandoningStep(After(ls), l);
  }

  lemma {:induction false} AbandoningStep(s: State, l: Label)
    requires Inv(s) && Enabled(s, l) && !Abandoned(s)
    ensures Abandoned(Apply(s, l)) <==> Abandons(s, l)
  {
    hide Inv, Enabled, Apply, Abandoned, Abandons;
    if RunnerLabel(l) {
      AbandoningAttempt(s, l);
    } else {
      AbandoningOther(s, l);
    }
  }

  lemma {:induction false} AbandoningAttempt(s: State, l: Label)
    requires Inv(s) && Enabled(s, l) && !Abandoned(s) && RunnerLabel(l)
    ensures Abandoned(Apply(s, l)) <==> Abandons(s, l)
  {
    hide NextAdds, NextListener, NextCancels;
  }

  lemma {:induction false} AbandoningOther(s: State, l: Label)
    requires Inv(s) && Enabled(s, l) && !Abandoned(s) && !RunnerLabel(l)
    ensures Abandoned(Apply(s, l)) <==> Abandons(s, l)
  {
    hide NextAdds, NextListener, NextCancels;
  }

  /** Whoever looks for the reason why a build that was taken over is abandoned finds one of four: a
      crash, a lost acknowledgement of the Running write, a refused last write, or a late
      cancellation. */
  lemma {:induction false} ReasonOfAbandonment(ls: seq<Label>) returns (k: nat)
    requires IsRun(ls) && Unended(After(ls)) && NobodyAtWork(After(ls))
    ensures k < |ls|
    ensures ls[k].AttemptCrash? || ls[k] == HandoffWrite(Lost) || (ls[k].FinalWrite? && ls[k].w.Refused?)
         || (ls[k].CancelWrite? && ls[k].w.Committed() && TerminalState(StatusAt(ls, k)))
  {
    hide Apply, Enabled;
    var s, l := After(Front(ls)), Last(ls);
    if Unended(s) && NobodyAtWork(s) {
      k := ReasonOfAbandonment(Front(ls));
      assert Front(ls)[..k] == ls[..k];
    } else {
      RunsKeepInv(Front(ls));
      StrandingStep(s, l);
      k := |ls| - 1;
      assert ls[..k] == Front(ls);
    }
  }

  lemma {:induction false} StrandingStep(s: State, l: Label)
    requires Inv(s) && Enabled(s, l) && !(Unended(s) && NobodyAtWork(s))
    requires Unended(Apply(s, l)) && NobodyAtWork(Apply(s, l))
    ensures l.AttemptCrash? || l == HandoffWrite(Lost) || (l.FinalWrite? && l.w.Refused?)
         || (l.CancelWrite? && l.w.Committed() && TerminalState(s.row.status))
  {
    hide NextAdds, NextListener, NextCancels;
  }

  /** And why the server has left a build that was never taken over: it crashed, it took the job for
      running, or its Failure write was refused. */
  lemma {:induction false} ReasonOfLeaving(ls: seq<Label>) returns (k: nat)
    requires IsRun(ls) && After(ls).server.Finished? && After(ls).row.status.NotStarted?
    ensures k < |ls|
    ensures ls[k].ServerCrash? || ls[k] == JobSignal(true) || ls[k] == FailureWrite(Refused)
  {
    hide NextCancels, NextAdds, NextRunner, Enabled;
    var l := Last(ls);
    if l.ServerCrash? || l.JobSignal? || l.FailureWrite? {
      k := |ls| - 1;
    } else {
      RunsKeepInv(Front(ls));
      LeavesNotStarted(After(Front(ls)), l);
      k := ReasonOfLeaving(Front(ls));
    }
  }

  /** A build that is NotStarted has been so all along. */
  lemma {:induction false} LeavesNotStarted(s: State, l: Label)
    requires Inv(s) && Enabled(s, l) && Apply(s, l).row.status.NotStarted?
    ensures s.row.status.NotStarted? && Written(l).None?
  {
    hide NextCancels, NextAdds, NextRunner, NextServer;
  }

  // ---------- Three examples ----------

  /** "Always marked as completed" does not survive a crash after the hand-off. */
  lemma {:induction false} CrashAbandons() returns (ls: seq<Label>, s: State)
    ensures Leads(ls, s) && Abandoned(s) && Unended(s)
  {
    hide Leads;
    ls, s := TakenOver();
    ls, s := Took(ls, s, JobSignal(true));
    ls, s := Took(ls, s, AttemptCrash);
  }

  /** Nor does it survive a late cancellation, without any crash, loss or refusal: a build that has
      succeeded waits for its cancellation for ever. */
  lemma {:induction false} LateCancelAbandons() returns (ls: seq<Label>, s: State)
    ensures ls == [JobStarted(true, PODS), AttemptBegin, AttemptRead(true), HandoffWrite(Acked), RpcRead(0), CancelRead(0),
                   BuildCalled, BuildReturned(true), SuccessWrite(Acked), CancelWrite(0, Acked), JobSignal(true)]
    ensures Leads(ls, s) && Abandoned(s) && s.row.status.CancelRequested?
  {
    hide Leads;
    ls, s := CancelOverwritesSuccess();
    ls, s := Took(ls, s, JobSignal(true));
  }

  /** And if the server takes the job for running, a build may never even start. */
  lemma {:induction false} NeverStarts() returns (ls: seq<Label>, s: State)
    ensures ls == [JobStarted(true, PODS), JobSignal(true), JobEnds]
    ensures Leads(ls, s) && Abandoned(s) && s.row.status.NotStarted?
  {
    assert Leads([], INIT);
    hide Leads;
    ls, s := Took([], INIT, JobStarted(true, PODS));
    ls, s := Took(ls, s, JobSignal(true));
    ls, s := Took(ls, s, JobEnds);
  }
}
