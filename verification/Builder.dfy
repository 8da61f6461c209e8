/** Manager.Run, one attempt at a build, run against the protocol's shared row while every other actor
    takes steps of its own between any two of the attempt's steps. */
module Builder {
  import opened Models
  import opened Lifecycle
  import opened LifecycleSafety

  /** What the attempt's dependencies answer. In checks, None stands for a registry error. */
  datatype Deps = Deps(
    readOk: bool,
    handoff: Write,
    tokenOk: bool,
    shaOk: bool,
    skipIfExists: bool,
    checks: seq<Option<bool>>,
    tempDirOk: bool,
    fetchOk: bool,
    subdirOk: bool,
    buildOk: bool,
    completion: Write,
    final: Write)

  /** The registries answered, and every one of them has all the tags. */
  predicate AllExist(checks: seq<Option<bool>>) {
    forall i :: 0 <= i < |checks| ==> checks[i] == Some(true)
  }

  /** Some registry failed before any of them lacked a tag. */
  predicate CheckFails(checks: seq<Option<bool>>) {
    exists i :: 0 <= i < |checks| && checks[i].None? && AllExist(checks[..i])
  }

  /** Some registry lacked a tag before any of them failed. */
  predicate SomeLacks(checks: seq<Option<bool>>) {
    exists i :: 0 <= i < |checks| && checks[i] == Some(false) && forall j :: 0 <= j < i ==> checks[j] == Some(true)
  }

  /** The loop over the image repositories, which stops at the first that lacks a tag. */
  method CheckRepos(checks: seq<Option<bool>>) returns (r: Option<bool>)
    ensures r.None? <==> CheckFails(checks)
    ensures r == Some(true) <==> AllExist(checks)
    ensures r == Some(false) <==> SomeLacks(checks)
  {
    var allexist := true;
    var i := 0;
    while i < |checks|
      invariant 0 <= i <= |checks|
      invariant allexist && AllExist(checks[..i])
    {
      if checks[i].None? {
        return None;
      }
      allexist := allexist && checks[i].value;
      if !allexist {
        break;
      }
      i := i + 1;
    }
    if allexist {
      assert checks[..i] == checks;
    } else {
      assert forall k :: i < k <= |checks| ==> checks[..k][i] == checks[i];
      assert forall k :: 0 <= k < i ==> checks[..i][k] == checks[k];
    }
    return Some(allexist);
  }

  /** The build was unnecessary. */
  predicate Skips(d: Deps) {
    d.tokenOk && d.shaOk && d.skipIfExists && AllExist(d.checks)
  }

  /** BRunner.Build is reached. */
  predicate Builds(d: Deps) {
    && d.tokenOk && d.shaOk && d.tempDirOk && d.fetchOk && d.subdirOk
    && (d.skipIfExists ==> !AllExist(d.checks) && !CheckFails(d.checks))
  }

  /** The work came to a good end, whether or not that could be recorded. */
  predicate Ends(d: Deps) {
    Skips(d) || (Builds(d) && d.buildOk)
  }

  /** The statuses the attempts commit in a run, in order. */
  function Writes(ls: seq<Label>): seq<BuildStatus> {
    if ls == [] then [] else Writes(Front(ls)) + WriteOf(Last(ls))
  }

  function WriteOf(l: Label): seq<BuildStatus> {
    if RunnerLabel(l) && Written(l).Some? then [Written(l).value] else []
  }

  /** The shared state as the attempt finds it, with the run that led there. */
  class World {
    var state: State
    ghost var trace: seq<Label>
    ghost var writes: seq<BuildStatus>
    ghost var calls: nat

    ghost predicate Valid() reads this {
      Leads(trace, state) && writes == Writes(trace) && calls == Calls(trace)
    }

    constructor ()
      ensures Valid() && state == INIT
    {
      state, trace, writes, calls := INIT, [], [], 0;
    }

    /** One step of the attempt. */
    method Do(l: Label)
      requires Valid() && RunnerLabel(l) && Enabled(state, l)
      modifies this
      ensures Valid() && trace == old(trace) + [l]
      ensures writes == old(writes) + WriteOf(l) && calls == old(calls) + if l.BuildCalled? then 1 else 0
      ensures state.runner.pc == NextRunnerPc(old(state), l)
    {
      Extend(trace, l);
      assert Front(trace + [l]) == trace && Last(trace + [l]) == l;
      state, trace, writes, calls := Apply(state, l), trace + [l], Writes(trace + [l]), Calls(trace + [l]);
    }

    lemma {:induction false} LeadsHere()
      requires Valid()
      ensures After(trace) == state
    {
    }

    lemma {:induction false} CallsAtMostOnce()
      requires Valid()
      ensures calls <= 1
    {
      CallsBounded(trace);
    }

    /** Whatever the other actors do meanwhile. */
    method Interfere(others: seq<Label>)
      requires Valid()
      modifies this
      ensures Valid() && old(trace) <= trace
      ensures writes == old(writes) && calls == old(calls) && state.runner.pc == old(state.runner.pc)
    {
      for i := 0 to |others|
        invariant Valid() && old(trace) <= trace
        invariant writes == old(writes) && calls == old(calls) && state.runner.pc == old(state.runner.pc)
      {
        var l := others[i];
        if !RunnerLabel(l) && Enabled(state, l) {
          Extend(trace, l);
          assert Front(trace + [l]) == trace && Last(trace + [l]) == l;
          state, trace := Apply(state, l), trace + [l];
        }
      }
    }
  }

  /** In step from or later, the attempt read the cancellation flag and found it set, or not. */
  ghost predicate FlagReadAs(ls: seq<Label>, from: nat, cancelled: bool) {
    exists f :: from <= f < |ls| && ls[f].FlagRead? && (cancelled <==> After(ls[..f]).runner.listener.FlagSet?)
  }

  /** The attempt that began at step from or later reads the row at step r. */
  predicate ReadsAt(ls: seq<Label>, from: nat, r: nat) {
    from <= r < |ls| && ls[r].AttemptRead?
  }

  class Manager {
    const w: World

    constructor (w: World)
      ensures this.w == w
    {
      this.w := w;
    }

    /** Up to the hand-off, which marks that this process is responsible for the build. The attempt reads
        the row at step read of the trace. */
    method TakeOver(d: Deps, others: nat -> seq<Label>) returns (ok: bool, ghost read: nat)
      requires w.Valid() && Enabled(w.state, AttemptBegin)
      modifies w
      ensures w.Valid() && old(w.trace) <= w.trace && w.calls == old(w.calls)
      ensures w.state.runner.pc == if ok then Working else Idle
      ensures ReadsAt(w.trace, |old(w.trace)|, read)
      ensures ok <==> d.readOk && StatusAt(w.trace, read).NotStarted? && d.handoff.Acked?
      ensures w.writes == old(w.writes) +
              if d.readOk && StatusAt(w.trace, read).NotStarted? && d.handoff.Committed() then [Running] else []
    {
      hide World.Valid;
      w.Do(AttemptBegin);
      w.Interfere(others(7));
      w.LeadsHere();
      read := |w.trace|;
      ghost var before := w.trace;
      var status := w.state.row.status;
      w.Do(AttemptRead(d.readOk));
      ghost var upTo := w.trace;
      assert upTo[read] == AttemptRead(d.readOk) && upTo[..read] == before;
      if !d.readOk || !status.NotStarted? {
        return false, read;
      }
      w.Interfere(others(8));
      w.Do(HandoffWrite(d.handoff));
      assert upTo <= w.trace;
      assert w.trace[read] == AttemptRead(d.readOk) && w.trace[..read] == before;
      return d.handoff.Acked?, read;
    }

    /** From the hand-off to the return, without the deferred completion. */
    method Work(d: Deps, others: nat -> seq<Label>) returns (err: bool)
      requires w.Valid() && w.state.runner.pc.Working?
      modifies w
      ensures w.Valid() && old(w.trace) <= w.trace
      ensures w.state.runner.pc == if err then Failing else Idle
      ensures !err <==> d.completion.Acked? && Ends(d)
      ensures w.calls == old(w.calls) + if Builds(d) then 1 else 0
      ensures w.writes == old(w.writes) +
              if !d.completion.Committed() then []
              else if Skips(d) then [Skipped]
              else if Builds(d) && d.buildOk then [Success]
              else []
    {
      hide World.Valid, AllExist, CheckFails;
      w.Interfere(others(0));
      if !d.tokenOk || !d.shaOk {
        w.Do(WorkFailed);
        return true;
      }
      w.Interfere(others(1));
      if d.skipIfExists {
        var allexist := CheckRepos(d.checks);
        if allexist.None? {
          w.Do(WorkFailed);
          return true;
        }
        if allexist.value {
          err := Skip(d, others);
          return err;
        }
      }
      if !d.tempDirOk || !d.fetchOk || !d.subdirOk {
        w.Do(WorkFailed);
        return true;
      }
      err := Execute(d, others);
    }

    /** All tags exist everywhere: the build is recorded as skipped. */
    method Skip(d: Deps, others: nat -> seq<Label>) returns (err: bool)
      requires w.Valid() && w.state.runner.pc.Working?
      modifies w
      ensures w.Valid() && old(w.trace) <= w.trace && w.calls == old(w.calls)
      ensures w.state.runner.pc == if err then Failing else Idle
      ensures !err <==> d.completion.Acked?
      ensures w.writes == old(w.writes) + if d.completion.Committed() then [Skipped] else []
    {
      hide World.Valid;
      w.Do(TagsExist);
      w.Interfere(others(2));
      w.Do(SkippedWrite(d.completion));
      return !d.completion.Acked?;
    }

    /** The image build and the write that follows it. */
    method Execute(d: Deps, others: nat -> seq<Label>) returns (err: bool)
      requires w.Valid() && w.state.runner.pc.Working?
      modifies w
      ensures w.Valid() && old(w.trace) <= w.trace
      ensures w.state.runner.pc == if err then Failing else Idle
      ensures !err <==> d.buildOk && d.completion.Acked?
      ensures w.calls == old(w.calls) + 1
      ensures w.writes == old(w.writes) + if d.buildOk && d.completion.Committed() then [Success] else []
    {
      hide World.Valid;
      w.Do(BuildCalled);
      w.Interfere(others(3));
      w.Do(BuildReturned(d.buildOk));
      if !d.buildOk {
        return true;
      }
      w.Interfere(others(4));
      w.Do(SuccessWrite(d.completion));
      return !d.completion.Acked?;
    }

    /** The deferred completion of an attempt that returns an error. */
    method Conclude(d: Deps, others: nat -> seq<Label>) returns (cancelled: bool)
      requires w.Valid() && w.state.runner.pc.Failing?
      modifies w
      ensures w.Valid() && old(w.trace) <= w.trace && w.state.runner.pc.Idle?
      ensures w.calls == old(w.calls)
      ensures w.writes == old(w.writes) + if d.final.Committed() then [Verdict(cancelled)] else []
      ensures FlagReadAs(w.trace, |old(w.trace)|, cancelled)
    {
      hide World.Valid;
      w.Interfere(others(5));
      cancelled := w.state.runner.listener.FlagSet?;
      w.LeadsHere();
      ghost var f := |w.trace|;
      ghost var before := w.trace;
      w.Do(FlagRead);
      ghost var upTo := w.trace;
      assert upTo[f] == FlagRead && upTo[..f] == before;
      w.Interfere(others(6));
      w.Do(FinalWrite(cancelled, d.final));
      assert upTo <= w.trace;
      assert w.trace[f] == FlagRead && w.trace[..f] == before;
    }

    /** One attempt. handedOver says that it took over the build, cancelled what its deferred
        completion found in the cancellation flag, read at which step of the trace it read the row. */
    method Run(d: Deps, others: nat -> seq<Label>)
      returns (err: bool, handedOver: bool, cancelled: bool, ghost read: nat)
      requires w.Valid() && Enabled(w.state, AttemptBegin)
      modifies w
      ensures w.Valid() && old(w.trace) <= w.trace && w.state.runner.pc.Idle?
      // it takes over the build exactly when it finds it NotStarted and is told that it has set Running
      ensures ReadsAt(w.trace, |old(w.trace)|, read)
      ensures handedOver <==> d.readOk && StatusAt(w.trace, read).NotStarted? && d.handoff.Acked?
      // without the hand-off it fails, builds nothing and ends nothing
      ensures !handedOver ==> err && w.calls == old(w.calls)
      ensures !handedOver ==>
                w.writes == old(w.writes) +
                  if d.readOk && StatusAt(w.trace, read).NotStarted? && d.handoff.Lost? then [Running] else []
      // over all attempts on this build, the image is built at most once
      ensures w.calls <= 1
      // with the hand-off, the outcome is what the answers of its dependencies amount to
      ensures handedOver ==> err == Errs(d)
      ensures handedOver ==> w.calls == old(w.calls) + if Builds(d) then 1 else 0
      ensures handedOver ==> w.writes == old(w.writes) + [Running] + Verdicts(d, cancelled)
      // a failed attempt counts as cancelled exactly when the flag was set before it looked
      ensures handedOver && err ==> FlagReadAs(w.trace, |old(w.trace)|, cancelled)
    {
      hide World.Valid, ReadsAt;
      cancelled := false;
      handedOver, read := TakeOver(d, others);
      err := true;
      ghost var upTo := w.trace;
      if handedOver {
        err := Work(d, others);
        if err {
          cancelled := Conclude(d, others);
        }
      }
      assert upTo <= w.trace;
      StillReads(upTo, w.trace, |old(w.trace)|, read);
      w.CallsAtMostOnce();
    }
  }

  lemma {:induction false} StillReads(ls: seq<Label>, more: seq<Label>, from: nat, r: nat)
    requires ls <= more && ReadsAt(ls, from, r)
    ensures ReadsAt(more, from, r) && StatusAt(more, r) == StatusAt(ls, r)
  {
    assert more[..r] == ls[..r];
  }

  /** An attempt that took over the build returns an error. */
  predicate Errs(d: Deps) {
    !(Ends(d) && d.completion.Acked?)
  }

  /** The terminal statuses that an attempt which took over the build commits. */
  function Verdicts(d: Deps, cancelled: bool): seq<BuildStatus> {
    (if Ends(d) && d.completion.Committed() then [if Skips(d) then Skipped else Success] else [])
    + (if Errs(d) && d.final.Committed() then [Verdict(cancelled)] else [])
  }

  /** If the deferred write commits where it is due, a build that was taken over ends: as a success or
      skipped exactly when Run returns nil, as a failure or cancelled exactly when it returns an
      error, and with a single verdict unless the write of the first was wrongly reported as lost. */
  lemma {:induction false} CompletionContract(d: Deps, cancelled: bool)
    requires Errs(d) ==> d.final.Committed()
    ensures var vs := Verdicts(d, cancelled);
            && vs != [] && TerminalState(Last(vs))
            && (!Errs(d) <==> Last(vs).Success? || Last(vs).Skipped?)
            && (Errs(d) <==> Last(vs).Failure? || Last(vs).Cancelled?)
            && (|vs| == 1 <==> !(Ends(d) && d.completion.Lost?))
  {
  }

  /** An attempt that took over the build calls BRunner.Build exactly when it has the credential and the
      commit, the skip test, if asked for, found a tag missing before any registry failed, and the
      sources were fetched. */
  lemma {:induction false} BuildsExactly(d: Deps)
    ensures Builds(d) <==>
            && d.tokenOk && d.shaOk
            && (d.skipIfExists ==>
                  exists i :: 0 <= i < |d.checks| && d.checks[i] == Some(false)
                              && forall j :: 0 <= j < i ==> d.checks[j] == Some(true))
            && d.tempDirOk && d.fetchOk && d.subdirOk
  {
    EarlyExit(d.checks);
  }

  /** The first answer that is not a plain yes. */
  lemma {:induction false} FirstOther(checks: seq<Option<bool>>) returns (i: nat)
    ensures i <= |checks| && (forall j :: 0 <= j < i ==> checks[j] == Some(true))
    ensures i < |checks| ==> checks[i] != Some(true)
  {
    if checks == [] || checks[0] != Some(true) {
      i := 0;
    } else {
      var k := FirstOther(checks[1..]);
      i := k + 1;
      forall j | 0 <= j < i ensures checks[j] == Some(true) {
        if j > 0 { assert checks[1..][j - 1] == checks[j]; }
      }
    }
  }

  /** The skip test has three outcomes, of which exactly one occurs. */
  lemma {:induction false} EarlyExit(checks: seq<Option<bool>>)
    ensures SomeLacks(checks) <==> !AllExist(checks) && !CheckFails(checks)
  {
    var i := FirstOther(checks);
    if i < |checks| {
      assert !AllExist(checks);
      if checks[i].None? {
        assert AllExist(checks[..i]) && CheckFails(checks);
      } else {
        var present := checks[i].value;
        assert checks[i] == Some(present) && !present;
        forall k | i < k < |checks| ensures !AllExist(checks[..k]) {
          assert checks[..k][i] == checks[i];
        }
      }
    }
  }

  /** It returns nil exactly when that was recorded: all tags exist where that was asked for, or the
      image was built. */
  lemma {:induction false} SucceedsExactly(d: Deps)
    ensures !Errs(d) <==>
            && d.completion.Acked? && d.tokenOk && d.shaOk
            && ((d.skipIfExists && forall i :: 0 <= i < |d.checks| ==> d.checks[i] == Some(true))
                || (Builds(d) && d.buildOk))
  {
  }

  /** A dependency that fails before the build leaves nothing but an error. */
  lemma {:induction false} FailsEarly(d: Deps, cancelled: bool)
    requires !d.tokenOk || !d.shaOk || (!Skips(d) && (!d.tempDirOk || !d.fetchOk || !d.subdirOk))
    ensures !Builds(d) && Errs(d)
    ensures Verdicts(d, cancelled) == if d.final.Committed() then [Verdict(cancelled)] else []
  {
  }
}
