/** ListBuilds twice: as the query PostgresDBLayer generates and PostgreSQL evaluates, and as the chain
    of filters FakeDataLayer runs over its store. */
module Listing {
  import opened Models

  // ---------- Options, rows and builds ----------

  /** Nanoseconds since 0001-01-01T00:00:00Z, the instant of Go's zero time. */
  type Time = int

  const ZERO: Time := 0

  type Uint32 = n: nat | n < 0x1_0000_0000

  datatype Options = Options(
    withRepo: string,
    withRef: string,
    withImageRepo: string,
    withStatus: BuildStatus,
    completedAfter: Time,
    startedAfter: Time,
    completedBefore: Time,
    startedBefore: Time,
    limit: Uint32)

  const NO_OPTIONS := Options("", "", "", Unknown, ZERO, ZERO, ZERO, ZERO, 0)

  /** A row of the builds table, as far as it can be selected by. */
  datatype Row = Row(
    repo: string,
    ref: string,
    imageRepos: Option<seq<string>>,
    status: BuildStatus,
    created: Time,
    completed: Option<Time>)

  /** What the service stores: a known status, timestamps that come from a clock, and a completion time
      for every build that has ended. */
  predicate ValidRow(r: Row) {
    && !r.status.Unknown?
    && r.created > ZERO && (r.completed.Some? ==> r.completed.value > ZERO)
    && (TerminalState(r.status) ==> r.completed.Some?)
  }

  datatype Build = Build(
    repo: string,
    ref: string,
    imageRepos: seq<string>,
    status: BuildStatus,
    created: Time,
    completed: Time)

  /** The build a row is read into: what is null stays at its zero value. */
  function Scan(r: Row): Build {
    Build(
      r.repo, r.ref,
      if r.imageRepos.Some? then r.imageRepos.value else [],
      r.status, r.created,
      if r.completed.Some? then r.completed.value else ZERO)
  }

  // ---------- The criteria ----------

  datatype Test =
    | RepoIs
    | RefIs
    | HasImageRepo
    | StatusIs
    | CompletedFrom
    | CreatedFrom
    | CompletedUntil
    | CreatedUntil

  /** In the order in which both implementations look at them. */
  const TESTS := [RepoIs, RefIs, HasImageRepo, StatusIs, CompletedFrom, CreatedFrom, CompletedUntil, CreatedUntil]

  predicate Wanted(t: Test, o: Options) {
    match t
    case RepoIs => o.withRepo != ""
    case RefIs => o.withRef != ""
    case HasImageRepo => o.withImageRepo != ""
    case StatusIs => !o.withStatus.Unknown?
    case CompletedFrom => o.completedAfter != ZERO
    case CreatedFrom => o.startedAfter != ZERO
    case CompletedUntil => o.completedBefore != ZERO
    case CreatedUntil => o.startedBefore != ZERO
  }

  // ---------- SQL ----------

  datatype Truth = True | False | Null

  function ToTruth(b: bool): Truth { if b then True else False }

  function And(a: Truth, b: Truth): Truth {
    if a.False? || b.False? then False else if a.True? && b.True? then True else Null
  }

  datatype Arg = Text(s: string) | StatusArg(st: BuildStatus) | TimeArg(t: Time)

  /** One parenthesised condition with its numbered placeholder. */
  datatype Cond = Cond(test: Test, placeholder: nat)

  /** The condition with its placeholder replaced by an argument; comparing with null gives null. */
  function EvalWith(t: Test, a: Arg, r: Row): Truth {
    match (t, a)
    case (RepoIs, Text(s)) => ToTruth(r.repo == s)
    case (RefIs, Text(s)) => ToTruth(r.ref == s)
    case (HasImageRepo, Text(s)) =>
      if r.imageRepos.None? then Null else ToTruth(s in r.imageRepos.value)
    case (StatusIs, StatusArg(st)) => ToTruth(r.status == st)
    case (CompletedFrom, TimeArg(x)) =>
      if r.completed.None? then Null else ToTruth(r.completed.value >= x)
    case (CreatedFrom, TimeArg(x)) => ToTruth(r.created >= x)
    case (CompletedUntil, TimeArg(x)) =>
      if r.completed.None? then Null else ToTruth(r.completed.value < x)
    case (CreatedUntil, TimeArg(x)) => ToTruth(r.created < x)
    case _ => Null
  }

  /** Placeholder $n stands for the n-th argument. */
  function Eval(c: Cond, args: seq<Arg>, r: Row): Truth {
    if 1 <= c.placeholder <= |args| then EvalWith(c.test, args[c.placeholder - 1], r) else Null
  }

  function Where(conds: seq<Cond>, args: seq<Arg>, r: Row): Truth {
    if conds == [] then True
    else And(Where(conds[..|conds| - 1], args, r), Eval(conds[|conds| - 1], args, r))
  }

  /** The argument a criterion is meant to be compared with. */
  function ArgOf(t: Test, o: Options): Arg {
    match t
    case RepoIs => Text(o.withRepo)
    case RefIs => Text(o.withRef)
    case HasImageRepo => Text(o.withImageRepo)
    case StatusIs => StatusArg(o.withStatus)
    case CompletedFrom => TimeArg(o.completedAfter)
    case CreatedFrom => TimeArg(o.startedAfter)
    case CompletedUntil => TimeArg(o.completedBefore)
    case CreatedUntil => TimeArg(o.startedBefore)
  }

  /** The row meets the first n criteria, as far as they are wanted. */
  ghost predicate MatchesFirst(n: nat, o: Options, r: Row)
    requires n <= |TESTS|
  {
    forall j :: 0 <= j < n && Wanted(TESTS[j], o) ==> EvalWith(TESTS[j], ArgOf(TESTS[j], o), r).True?
  }

  /** The row meets every criterion that is set; this is what a listing is for. */
  ghost predicate Matches(o: Options, r: Row) {
    MatchesFirst(|TESTS|, o, r)
  }

  /** The clause says what the first n criteria say, its placeholders are $1, $2, ... in this order,
      and each stands for its own criterion's value. */
  ghost predicate Renders(n: nat, o: Options, conds: seq<Cond>, args: seq<Arg>)
    requires n <= |TESTS|
  {
    && |conds| == |args|
    && (forall i :: 0 <= i < |conds| ==>
          conds[i].placeholder == i + 1 && args[i] == ArgOf(conds[i].test, o) && Wanted(conds[i].test, o))
    && (forall r :: Where(conds, args, r).True? <==> MatchesFirst(n, o, r))
    && (conds == [] <==> forall j :: 0 <= j < n ==> !Wanted(TESTS[j], o))
  }

  lemma {:induction false} MoreArgsSameWhere(conds: seq<Cond>, args: seq<Arg>, a: Arg, r: Row)
    requires forall i :: 0 <= i < |conds| ==> conds[i].placeholder <= |args|
    ensures Where(conds, args + [a], r) == Where(conds, args, r)
  {
    if conds != [] {
      MoreArgsSameWhere(conds[..|conds| - 1], args, a, r);
    }
  }

  lemma {:induction false} OneMore(n: nat, o: Options, conds: seq<Cond>, args: seq<Arg>)
    requires n < |TESTS| && Renders(n, o, conds, args) && Wanted(TESTS[n], o)
    ensures Renders(n + 1, o, conds + [Cond(TESTS[n], |args| + 1)], args + [ArgOf(TESTS[n], o)])
  {
    hide EvalWith, ArgOf, Wanted;
    var conds', args' := conds + [Cond(TESTS[n], |args| + 1)], args + [ArgOf(TESTS[n], o)];
    forall r ensures Where(conds', args', r).True? <==> MatchesFirst(n + 1, o, r) {
      OneMoreOnRow(n, o, conds, args, r);
    }
    hide Where, MatchesFirst;
  }

  lemma {:induction false} OneMoreOnRow(n: nat, o: Options, conds: seq<Cond>, args: seq<Arg>, r: Row)
    requires n < |TESTS| && Wanted(TESTS[n], o)
    requires forall i :: 0 <= i < |conds| ==> conds[i].placeholder <= |args|
    requires Where(conds, args, r).True? <==> MatchesFirst(n, o, r)
    ensures Where(conds + [Cond(TESTS[n], |args| + 1)], args + [ArgOf(TESTS[n], o)], r).True? <==>
            MatchesFirst(n + 1, o, r)
  {
    hide EvalWith, ArgOf, Wanted, MatchesFirst, Where;
    var c, a := Cond(TESTS[n], |args| + 1), ArgOf(TESTS[n], o);
    MatchesOneMore(n, o, r);
    MoreArgsSameWhere(conds, args, a, r);
    WhereOneMore(conds, c, args + [a], r);
  }

  lemma {:induction false} WhereOneMore(conds: seq<Cond>, c: Cond, args: seq<Arg>, r: Row)
    ensures Where(conds + [c], args, r) == And(Where(conds, args, r), Eval(c, args, r))
  {
    hide EvalWith;
    assert (conds + [c])[..|conds|] == conds;
  }

  lemma {:induction false} MatchesOneMore(n: nat, o: Options, r: Row)
    requires n < |TESTS| && Wanted(TESTS[n], o)
    ensures MatchesFirst(n + 1, o, r) <==>
            MatchesFirst(n, o, r) && EvalWith(TESTS[n], ArgOf(TESTS[n], o), r).True?
  {
    hide EvalWith, ArgOf, Wanted;
  }

  /** One of the eight branches: number the placeholder by the arguments there are, then append. */
  method Branch(ghost n: nat, t: Test, a: Arg, o: Options, conds: seq<Cond>, args: seq<Arg>)
    returns (conds': seq<Cond>, args': seq<Arg>)
    requires n < |TESTS| && t == TESTS[n] && a == ArgOf(t, o)
    requires Renders(n, o, conds, args)
    ensures Renders(n + 1, o, conds', args')
  {
    conds', args' := conds, args;
    if Wanted(t, o) {
      OneMore(n, o, conds, args);
      conds' := conds + [Cond(t, |args| + 1)];
      args' := args + [a];
    }
  }

  /** What becomes of the options: a refusal, a statement whose WHERE is followed by nothing it could
      hold of, which PostgreSQL rejects, or a query. */
  datatype Query = Rejected | Malformed | Select(conds: seq<Cond>, args: seq<Arg>, limit: Option<nat>)

  /** Both ends of a window are set, and equal. */
  predicate EmptyWindow(before: Time, after: Time) {
    before != ZERO && after != ZERO && before == after
  }

  /** Options that ask for nothing, or for the builds of an empty window. */
  predicate Refuses(o: Options) {
    || o == NO_OPTIONS
    || EmptyWindow(o.completedBefore, o.completedAfter) || EmptyWindow(o.startedBefore, o.startedAfter)
  }

  /** Something besides the limit is set. */
  ghost predicate HasCriterion(o: Options) {
    exists t :: Wanted(t, o)
  }

  /** The checks both implementations begin with. */
  method Validate(o: Options) returns (ok: bool)
    ensures ok <==> !Refuses(o)
  {
    if o == NO_OPTIONS {
      return false;
    }
    if o.completedBefore != ZERO && o.completedAfter != ZERO {
      if o.completedBefore == o.completedAfter {
        return false;
      }
    }
    if o.startedBefore != ZERO && o.startedAfter != ZERO {
      if o.startedBefore == o.startedAfter {
        return false;
      }
    }
    return true;
  }

  method Conditions(o: Options) returns (conds: seq<Cond>, args: seq<Arg>)
    ensures Renders(|TESTS|, o, conds, args)
  {
    hide Renders, Wanted, EvalWith, Where, MatchesFirst, Keeps;
    conds, args := [], [];
    NothingRendered(o);
    conds, args := Branch(0, RepoIs, Text(o.withRepo), o, conds, args);
    conds, args := Branch(1, RefIs, Text(o.withRef), o, conds, args);
    conds, args := Branch(2, HasImageRepo, Text(o.withImageRepo), o, conds, args);
    conds, args := Branch(3, StatusIs, StatusArg(o.withStatus), o, conds, args);
    conds, args := Branch(4, CompletedFrom, TimeArg(o.completedAfter), o, conds, args);
    conds, args := Branch(5, CreatedFrom, TimeArg(o.startedAfter), o, conds, args);
    conds, args := Branch(6, CompletedUntil, TimeArg(o.completedBefore), o, conds, args);
    conds, args := Branch(7, CreatedUntil, TimeArg(o.startedBefore), o, conds, args);
  }

  /** The options are refused, or lead to a malformed statement because no criterion is set, or to a
      query that renders their criteria and their limit. */
  ghost predicate Generates(o: Options, q: Query) {
    && (q.Rejected? <==> Refuses(o))
    && (q.Malformed? <==> !Refuses(o) && !HasCriterion(o))
    && (q.Select? ==> Renders(|TESTS|, o, q.conds, q.args) && q.conds != [])
    && (q.Select? ==> q.limit == if o.limit > 0 then Some(o.limit) else None)
  }

  /** The query of PostgresDBLayer.ListBuilds. */
  method GenerateQuery(o: Options) returns (q: Query)
    ensures Generates(o, q)
  {
    hide Refuses, Wanted;
    var ok := Validate(o);
    if !ok {
      return Rejected;
    }
    var conds, args := Conditions(o);
    ConditionForCriterion(o, conds, args);
    if conds == [] {
      return Malformed;
    }
    q := Select(conds, args, if o.limit > 0 then Some(o.limit) else None);
  }

  /** The clause is empty exactly when there is no criterion. */
  lemma {:induction false} ConditionForCriterion(o: Options, conds: seq<Cond>, args: seq<Arg>)
    requires Renders(|TESTS|, o, conds, args)
    ensures conds != [] <==> HasCriterion(o)
  {
    hide Wanted, Where, MatchesFirst;
    if t :| Wanted(t, o) {
      var j := Place(t);
    }
  }

  /** Where a criterion stands in the list. */
  lemma {:induction false} Place(t: Test) returns (j: nat)
    ensures j < |TESTS| && TESTS[j] == t
  {
    j := match t
      case RepoIs => 0
      case RefIs => 1
      case HasImageRepo => 2
      case StatusIs => 3
      case CompletedFrom => 4
      case CreatedFrom => 5
      case CompletedUntil => 6
      case CreatedUntil => 7;
  }

  lemma {:induction false} NothingRendered(o: Options)
    ensures Renders(0, o, [], [])
  {
  }

  // ---------- The fake ----------

  /** The filter a criterion stands for in the fake. */
  predicate Keeps(t: Test, o: Options, b: Build) {
    match t
    case RepoIs => b.repo == o.withRepo
    case RefIs => b.ref == o.withRef
    case HasImageRepo => o.withImageRepo in b.imageRepos
    case StatusIs => b.status == o.withStatus
    case CompletedFrom => b.completed > o.completedAfter || b.completed == o.completedAfter
    case CreatedFrom => b.created > o.startedAfter || b.created == o.startedAfter
    case CompletedUntil => if b.completed == ZERO then false else b.completed < o.completedBefore
    case CreatedUntil => if b.created == ZERO then false else b.created < o.startedBefore
  }

  ghost predicate KeptFirst(n: nat, o: Options, b: Build)
    requires n <= |TESTS|
  {
    forall j :: 0 <= j < n && Wanted(TESTS[j], o) ==> Keeps(TESTS[j], o, b)
  }

  /** The builds of bs that the first n filters keep. */
  ghost function Kept(n: nat, o: Options, bs: seq<Build>): seq<Build>
    requires n <= |TESTS|
  {
    if bs == [] then []
    else Kept(n, o, bs[..|bs| - 1]) + if KeptFirst(n, o, bs[|bs| - 1]) then [bs[|bs| - 1]] else []
  }

  function Filtered(t: Test, o: Options, bs: seq<Build>): seq<Build> {
    if bs == [] then []
    else Filtered(t, o, bs[..|bs| - 1]) + if Keeps(t, o, bs[|bs| - 1]) then [bs[|bs| - 1]] else []
  }

  /** The loop of the local filter closure. */
  method Filter(t: Test, o: Options, builds: seq<Build>) returns (pres: seq<Build>)
    ensures pres == Filtered(t, o, builds)
  {
    pres := [];
    for i := 0 to |builds|
      invariant pres == Filtered(t, o, builds[..i])
    {
      assert builds[..i + 1][..i] == builds[..i];
      if Keeps(t, o, builds[i]) {
        pres := pres + [builds[i]];
      }
    }
    assert builds[..|builds|] == builds;
  }

  lemma {:induction false} FilteredConcat(t: Test, o: Options, a: seq<Build>, b: Build)
    ensures Filtered(t, o, a + [b]) == Filtered(t, o, a) + if Keeps(t, o, b) then [b] else []
  {
    assert (a + [b])[..|a|] == a;
  }

  /** One filter more. */
  lemma {:induction false} FilterStep(n: nat, o: Options, bs: seq<Build>)
    requires n < |TESTS|
    ensures Kept(n + 1, o, bs) ==
            if Wanted(TESTS[n], o) then Filtered(TESTS[n], o, Kept(n, o, bs)) else Kept(n, o, bs)
  {
    hide Keeps, Wanted;
    if bs != [] {
      var front, b := bs[..|bs| - 1], bs[|bs| - 1];
      FilterStep(n, o, front);
      assert KeptFirst(n + 1, o, b) <==> KeptFirst(n, o, b) && (Wanted(TESTS[n], o) ==> Keeps(TESTS[n], o, b));
      FilteredConcat(TESTS[n], o, Kept(n, o, front), b);
      assert Kept(n, o, front) + [] == Kept(n, o, front);
    }
  }

  /** One of the eight branches of the chain. */
  method Narrow(ghost n: nat, t: Test, o: Options, ghost store: seq<Build>, builds: seq<Build>)
    returns (out: seq<Build>)
    requires n < |TESTS| && t == TESTS[n] && builds == Kept(n, o, store)
    ensures out == Kept(n + 1, o, store)
  {
    out := builds;
    if Wanted(t, o) {
      out := Filter(t, o, out);
    }
    FilterStep(n, o, store);
  }

  datatype Answer = Refused | Builds(builds: seq<Build>)

  method Filters(o: Options, store: seq<Build>) returns (out: seq<Build>)
    ensures out == Kept(|TESTS|, o, store)
  {
    hide Kept, Wanted;
    out := store;
    AllKeptAtFirst(o, store);
    out := Narrow(0, RepoIs, o, store, out);
    out := Narrow(1, RefIs, o, store, out);
    out := Narrow(2, HasImageRepo, o, store, out);
    out := Narrow(3, StatusIs, o, store, out);
    out := Narrow(4, CompletedFrom, o, store, out);
    out := Narrow(5, CreatedFrom, o, store, out);
    out := Narrow(6, CompletedUntil, o, store, out);
    out := Narrow(7, CreatedUntil, o, store, out);
  }

  /** No more than limit of the builds, where zero sets no limit. */
  function Limited(limit: nat, bs: seq<Build>): seq<Build> {
    if 0 < limit < |bs| then bs[..limit] else bs
  }

  /** FakeDataLayer.ListBuilds; store is what its map holds, in the order of the iteration. */
  method FakeListBuilds(o: Options, store: seq<Build>) returns (a: Answer)
    ensures a.Refused? <==> Refuses(o)
    ensures a.Builds? ==> a.builds == Limited(o.limit, Kept(|TESTS|, o, store))
  {
    hide Kept, Refuses, Wanted;
    var ok := Validate(o);
    if !ok {
      return Refused;
    }
    var out := Filters(o, store);
    if o.limit > 0 && |out| > o.limit {
      return Builds(out[..o.limit]);
    }
    return Builds(out);
  }

  lemma {:induction false} AllKeptAtFirst(o: Options, bs: seq<Build>)
    ensures Kept(0, o, bs) == bs
  {
    if bs != [] {
      AllKeptAtFirst(o, bs[..|bs| - 1]);
      assert bs[..|bs| - 1] + [bs[|bs| - 1]] == bs;
    }
  }

  // ---------- Agreement on a row ----------

  ghost predicate FakeMatches(o: Options, b: Build) {
    KeptFirst(|TESTS|, o, b)
  }

  /** The two readings of a criterion differ exactly on builds that have not ended, when the lower
      bound on the completion time lies before Go's zero time. */
  lemma {:induction false} TestAgreement(t: Test, o: Options, r: Row)
    requires ValidRow(r) && Wanted(t, o)
    ensures (EvalWith(t, ArgOf(t, o), r).True? <==> Keeps(t, o, Scan(r))) <==>
            !(t.CompletedFrom? && r.completed.None? && o.completedAfter < ZERO)
  {
  }

  lemma {:induction false} RowAgreement(o: Options, r: Row)
    requires ValidRow(r) && (r.completed.Some? || o.completedAfter >= ZERO)
    ensures Matches(o, r) <==> FakeMatches(o, Scan(r))
  {
    forall j | 0 <= j < |TESTS| && Wanted(TESTS[j], o)
      ensures EvalWith(TESTS[j], ArgOf(TESTS[j], o), r).True? <==> Keeps(TESTS[j], o, Scan(r))
    {
      TestAgreement(TESTS[j], o, r);
    }
    hide EvalWith, Keeps, Wanted, ArgOf;
  }

  /** No build can have been created within the window asked for. */
  predicate NoCreation(o: Options) {
    o.startedBefore != ZERO && (o.startedBefore <= ZERO + 1 || (o.startedAfter != ZERO && o.startedBefore <= o.startedAfter))
  }

  /** What a caller can check: the lower bound on the completion time is not before Go's zero time, or
      another criterion rules out every build that has not ended. */
  predicate Agreeable(o: Options) {
    o.completedAfter >= ZERO || o.completedBefore != ZERO || NoCreation(o) || TerminalState(o.withStatus)
  }

  lemma {:induction false} UnendedRow(o: Options, r: Row)
    requires ValidRow(r) && r.completed.None?
    requires o.completedBefore != ZERO || NoCreation(o) || TerminalState(o.withStatus)
    ensures !Matches(o, r) && !FakeMatches(o, Scan(r))
  {
    if o.completedBefore != ZERO {
      assert TESTS[6].CompletedUntil? && Wanted(TESTS[6], o);
      TestAgreement(TESTS[6], o, r);
    } else if TerminalState(o.withStatus) {
      assert TESTS[3].StatusIs? && Wanted(TESTS[3], o);
      TestAgreement(TESTS[3], o, r);
    } else {
      assert TESTS[7].CreatedUntil? && Wanted(TESTS[7], o);
      TestAgreement(TESTS[7], o, r);
      if o.startedAfter != ZERO {
        assert TESTS[5].CreatedFrom? && Wanted(TESTS[5], o);
        TestAgreement(TESTS[5], o, r);
      }
    }
  }

  /** A build on which the two implementations differ: as asked for, and not yet ended. */
  function Witness(o: Options): Row {
    Row(if o.withRepo == "" then "owner/repo" else o.withRepo,
        if o.withRef == "" then "master" else o.withRef,
        Some([if o.withImageRepo == "" then "quay.io/owner/repo" else o.withImageRepo]),
        if o.withStatus.Unknown? then NotStarted else o.withStatus,
        if o.startedAfter > ZERO then o.startedAfter else ZERO + 1,
        None)
  }

  lemma {:induction false} WitnessDiffers(o: Options)
    requires !Agreeable(o)
    ensures ValidRow(Witness(o)) && !Matches(o, Witness(o)) && FakeMatches(o, Scan(Witness(o)))
  {
    var r := Witness(o);
    assert TESTS[4].CompletedFrom? && Wanted(TESTS[4], o);
    assert EvalWith(TESTS[4], ArgOf(TESTS[4], o), r).Null?;
    forall j | 0 <= j < |TESTS| && Wanted(TESTS[j], o) ensures Keeps(TESTS[j], o, Scan(r)) {
    }
  }

  /** The query selects the builds that the filters keep, for every store, exactly when the options
      are agreeable. */
  lemma {:induction false} RowsAgreeExactly(o: Options)
    ensures (forall r :: ValidRow(r) ==> (Matches(o, r) <==> FakeMatches(o, Scan(r)))) <==> Agreeable(o)
  {
    if Agreeable(o) {
      forall r | ValidRow(r) ensures Matches(o, r) <==> FakeMatches(o, Scan(r)) {
        if r.completed.Some? || o.completedAfter >= ZERO {
          RowAgreement(o, r);
        } else {
          UnendedRow(o, r);
        }
      }
    } else {
      WitnessDiffers(o);
    }
  }

  // ---------- Agreement on a listing ----------

  /** The rows of a table that satisfy a query's clause, as the builds they are read into. */
  function Selected(conds: seq<Cond>, args: seq<Arg>, table: seq<Row>): seq<Build> {
    if table == [] then []
    else Selected(conds, args, table[..|table| - 1]) +
         if Where(conds, args, table[|table| - 1]).True? then [Scan(table[|table| - 1])] else []
  }

  function ScanAll(table: seq<Row>): (bs: seq<Build>)
    ensures |bs| == |table|
  {
    if table == [] then [] else ScanAll(table[..|table| - 1]) + [Scan(table[|table| - 1])]
  }

  lemma {:induction false} SelectedIsKept(o: Options, conds: seq<Cond>, args: seq<Arg>, table: seq<Row>)
    requires Renders(|TESTS|, o, conds, args) && Agreeable(o)
    requires forall r :: r in table ==> ValidRow(r)
    ensures Selected(conds, args, table) == Kept(|TESTS|, o, ScanAll(table))
  {
    hide EvalWith, Keeps, Wanted, ArgOf, Where, KeptFirst, MatchesFirst, Agreeable;
    if table != [] {
      var front, r := table[..|table| - 1], table[|table| - 1];
      SelectedIsKept(o, conds, args, front);
      RowsAgreeExactly(o);
      assert r in table;
      assert Matches(o, r) <==> FakeMatches(o, Scan(r));
      assert ScanAll(table)[..|table| - 1] == ScanAll(front);
    }
  }

  /** How often a build is kept depends on the build alone. */
  lemma {:induction false} KeptCount(o: Options, bs: seq<Build>, b: Build)
    ensures multiset(Kept(|TESTS|, o, bs))[b] == if FakeMatches(o, b) then multiset(bs)[b] else 0
  {
    hide KeptFirst;
    if bs != [] {
      var front := bs[..|bs| - 1];
      KeptCount(o, front, b);
      assert bs == front + [bs[|bs| - 1]];
    }
  }

  lemma {:induction false} OrderDoesNotMatter(o: Options, a: seq<Build>, b: seq<Build>)
    requires multiset(a) == multiset(b)
    ensures multiset(Kept(|TESTS|, o, a)) == multiset(Kept(|TESTS|, o, b))
  {
    hide Kept, FakeMatches;
    forall x: Build ensures multiset(Kept(|TESTS|, o, a))[x] == multiset(Kept(|TESTS|, o, b))[x] {
      KeptCount(o, a, x);
      KeptCount(o, b, x);
    }
  }

  /** What LIMIT without ORDER BY allows: some of the candidates, as many as the limit leaves. */
  ghost predicate Answers(out: seq<Build>, candidates: seq<Build>, limit: nat) {
    && multiset(out) <= multiset(candidates)
    && |out| == if 0 < limit < |candidates| then limit else |candidates|
  }

  /** The store holds the builds of the table, in whatever order. */
  ghost predicate SameBuilds(table: seq<Row>, store: seq<Build>) {
    && (forall r :: r in table ==> ValidRow(r))
    && multiset(store) == multiset(ScanAll(table))
  }

  /** PostgresDBLayer.ListBuilds may return these builds. A malformed statement returns none at all. */
  ghost predicate MayReturn(q: Query, table: seq<Row>, out: seq<Build>) {
    q.Select? && Answers(out, Selected(q.conds, q.args, table), if q.limit.Some? then q.limit.value else 0)
  }

  /** What the fake returns. */
  ghost function Listed(o: Options, store: seq<Build>): seq<Build> {
    Limited(o.limit, Kept(|TESTS|, o, store))
  }

  lemma {:induction false} KeptIsAnswer(
      o: Options, conds: seq<Cond>, args: seq<Arg>, table: seq<Row>, store: seq<Build>)
    requires Renders(|TESTS|, o, conds, args) && Agreeable(o) && SameBuilds(table, store)
    ensures Answers(Listed(o, store), Selected(conds, args, table), o.limit)
    ensures o.limit == 0 ==> multiset(Listed(o, store)) == multiset(Selected(conds, args, table))
  {
    hide Kept, Renders, Agreeable;
    SelectedIsKept(o, conds, args, table);
    OrderDoesNotMatter(o, store, ScanAll(table));
    var kept, selected := Kept(|TESTS|, o, store), Selected(conds, args, table);
    assert |kept| == |multiset(kept)| == |multiset(selected)| == |selected|;
    if 0 < o.limit < |kept| {
      assert kept == kept[..o.limit] + kept[o.limit..];
    }
  }

  /** For agreeable options, over the same builds, the fake returns a listing that the query may return
      as well exactly when there is a criterion; without a limit that is all of the builds that match. */
  lemma {:induction false} ListingsAgree(o: Options, q: Query, table: seq<Row>, store: seq<Build>)
    requires Generates(o, q) && !q.Rejected? && Agreeable(o) && SameBuilds(table, store)
    ensures MayReturn(q, table, Listed(o, store)) <==> HasCriterion(o)
    ensures HasCriterion(o) && o.limit == 0 ==>
              q.Select? && multiset(Listed(o, store)) == multiset(Selected(q.conds, q.args, table))
  {
    hide Renders, Agreeable, SameBuilds, Answers, Listed, Refuses, HasCriterion, Selected;
    if q.Select? {
      KeptIsAnswer(o, q.conds, q.args, table, store);
    }
  }

  /** A store of one build that the fake keeps and the query does not select. */
  lemma {:induction false} OneBuild(o: Options, conds: seq<Cond>, args: seq<Arg>, r: Row)
    requires !Where(conds, args, r).True? && FakeMatches(o, Scan(r))
    ensures Selected(conds, args, [r]) == [] && ScanAll([r]) == [Scan(r)]
    ensures Listed(o, [Scan(r)]) == [Scan(r)]
  {
    hide Where, KeptFirst, Scan;
    assert [r][..0] == [] && [Scan(r)][..0] == [];
    assert Kept(|TESTS|, o, []) == [];
    assert Kept(|TESTS|, o, [Scan(r)]) == [] + [Scan(r)];
  }

  /** On the witness alone the fake returns a build, and the query none. */
  lemma {:induction false} ListingsDiffer(o: Options, q: Query)
    requires Generates(o, q) && q.Select? && !Agreeable(o)
    ensures var w := Witness(o);
            SameBuilds([w], [Scan(w)]) && !MayReturn(q, [w], Listed(o, [Scan(w)]))
  {
    var w := Witness(o);
    WitnessDiffers(o);
    assert !Where(q.conds, q.args, w).True?;
    hide Witness, Agreeable, Generates, FakeMatches, Matches, Where, ValidRow, Scan, Selected, Listed, ScanAll;
    OneBuild(o, q.conds, q.args, w);
  }

  /** For options that neither side refuses: the fake's listing is one that PostgreSQL may return, over
      all tables and stores, exactly when the options are agreeable and there is a criterion. */
  lemma {:induction false} AlikeExactly(o: Options, q: Query)
    requires Generates(o, q) && !q.Rejected?
    ensures (forall table, store :: SameBuilds(table, store) ==> MayReturn(q, table, Listed(o, store))) <==>
            Agreeable(o) && HasCriterion(o)
  {
    hide Agreeable, SameBuilds, MayReturn, Listed, HasCriterion, Renders, Refuses;
    if Agreeable(o) {
      forall table, store | SameBuilds(table, store)
        ensures MayReturn(q, table, Listed(o, store)) <==> HasCriterion(o)
      {
        ListingsAgree(o, q, table, store);
      }
      EmptyStore();
    } else if q.Select? {
      ListingsDiffer(o, q);
    } else {
      EmptyStore();
      MalformedReturnsNothing(q, Listed(o, []));
    }
  }

  lemma {:induction false} EmptyStore()
    ensures SameBuilds([], [])
  {
  }

  lemma {:induction false} MalformedReturnsNothing(q: Query, out: seq<Build>)
    requires !q.Select?
    ensures !MayReturn(q, [], out)
  {
  }

  /** The two implementations side by side, on the same builds: they refuse the same options; for all
      agreeable ones the fake's answer is one that the query may return, exactly when there is a
      criterion, and PostgreSQL rejects the statement when there is none. */
  method ListBoth(o: Options, ghost table: seq<Row>, store: seq<Build>) returns (q: Query, a: Answer)
    requires SameBuilds(table, store)
    ensures Generates(o, q) && (q.Rejected? <==> a.Refused?)
    ensures a.Builds? && Agreeable(o) ==> (MayReturn(q, table, a.builds) <==> HasCriterion(o))
    ensures q.Malformed? ==> a.Builds?
  {
    hide Renders, Answers, Kept, Agreeable, SameBuilds, MayReturn, HasCriterion, Refuses;
    q := GenerateQuery(o);
    a := FakeListBuilds(o, store);
    if a.Builds? && Agreeable(o) {
      ListingsAgree(o, q, table, store);
    }
  }

  // ---------- Requests ----------

  /** A ListBuilds request. state is the number on the wire, which need not be a known state. */
  datatype Request = Request(
    repo: string,
    ref: string,
    imageRepo: string,
    state: int,
    completedAfter: Option<Time>,
    startedAfter: Option<Time>,
    completedBefore: Option<Time>,
    startedBefore: Option<Time>,
    limit: Uint32)

  function OrZero(t: Option<Time>): Time {
    if t.Some? then t.value else ZERO
  }

  /** datalayerListBuildsOptions */
  function ToOptions(q: Request): Options {
    Options(q.repo, q.ref, q.imageRepo, FromCode(q.state),
            OrZero(q.completedAfter), OrZero(q.startedAfter),
            OrZero(q.completedBefore), OrZero(q.startedBefore), q.limit)
  }

  /** What the handler demands of a request. */
  predicate Admitted(q: Request) {
    !(q.repo == "" && q.ref == "" && q.imageRepo == "" && q.state == 0 &&
      q.completedAfter.None? && q.startedAfter.None? && q.completedBefore.None? && q.startedBefore.None?)
  }

  // ---------- What a request asks for ----------

  /** The row has the status with this number on the wire, if it is the number of a known status. */
  predicate HasState(n: int, r: Row) {
    && (n == 1 ==> r.status == NotStarted)
    && (n == 2 ==> r.status == Skipped)
    && (n == 3 ==> r.status == Running)
    && (n == 4 ==> r.status == Failure)
    && (n == 5 ==> r.status == Success)
    && (n == 6 ==> r.status == CancelRequested)
    && (n == 7 ==> r.status == Cancelled)
  }

  /** A bound that is set, and not to Go's zero time, which is as good as unset. */
  predicate Bounds(t: Option<Time>) {
    t.Some? && t.value != ZERO
  }

  /** The row meets the request, field by field. Where the request has an empty text, no known status, or
      no bound, it asks for nothing; a build without image repositories or completion time meets no
      criterion on them. "After" includes the instant itself, "before" does not. */
  predicate Meets(q: Request, r: Row) {
    && (q.repo != "" ==> r.repo == q.repo)
    && (q.ref != "" ==> r.ref == q.ref)
    && (q.imageRepo != "" ==> r.imageRepos.Some? && q.imageRepo in r.imageRepos.value)
    && HasState(q.state, r)
    && (Bounds(q.completedAfter) ==> r.completed.Some? && q.completedAfter.value <= r.completed.value)
    && (Bounds(q.startedAfter) ==> q.startedAfter.value <= r.created)
    && (Bounds(q.completedBefore) ==> r.completed.Some? && r.completed.value < q.completedBefore.value)
    && (Bounds(q.startedBefore) ==> r.created < q.startedBefore.value)
  }

  /** The row meets one criterion, if it is wanted. */
  predicate Holds(t: Test, o: Options, r: Row) {
    Wanted(t, o) ==> EvalWith(t, ArgOf(t, o), r).True?
  }

  lemma {:induction false} MatchesByTest(o: Options, r: Row)
    ensures Matches(o, r) <==>
            (Holds(RepoIs, o, r) && Holds(RefIs, o, r) && Holds(HasImageRepo, o, r) && Holds(StatusIs, o, r)
             && Holds(CompletedFrom, o, r) && Holds(CreatedFrom, o, r)
             && Holds(CompletedUntil, o, r) && Holds(CreatedUntil, o, r))
  {
    hide Wanted, EvalWith, ArgOf;
    forall t: Test ensures Matches(o, r) ==> Holds(t, o, r) {
      var j := Place(t);
    }
  }

  /** The criteria made from a request say what the request asks for. */
  lemma {:induction false} RequestMeans(q: Request, r: Row)
    ensures Matches(ToOptions(q), r) <==> Meets(q, r)
  {
    hide Matches;
    MatchesByTest(ToOptions(q), r);
  }

  /** The window between two bounds of a request is empty because they are equal. */
  predicate SameInstant(before: Option<Time>, after: Option<Time>) {
    Bounds(before) && Bounds(after) && before.value == after.value
  }

  /** Answered carries the query whose rows are returned. */
  datatype Response = InvalidArgument | Internal | Answered(q: Query)

  /** The ListBuilds handler. */
  method HandleListBuilds(q: Request) returns (resp: Response)
    ensures resp.InvalidArgument? <==>
            && q.repo == "" && q.ref == "" && q.imageRepo == "" && q.state == 0
            && q.completedAfter.None? && q.startedAfter.None? && q.completedBefore.None? && q.startedBefore.None?
    ensures resp.Internal? <==>
            !resp.InvalidArgument? &&
            (OnlyVoidCriteria(q)
             || SameInstant(q.completedBefore, q.completedAfter) || SameInstant(q.startedBefore, q.startedAfter))
    ensures resp.Answered? ==>
              && resp.q.Select? && resp.q.limit == (if q.limit > 0 then Some(q.limit) else None)
              && forall r :: Where(resp.q.conds, resp.q.args, r).True? <==> Meets(q, r)
  {
    VoidExactly(q);
    hide Where, MatchesFirst, Wanted, OnlyVoidCriteria, HasCriterion, Meets;
    if !Admitted(q) {
      return InvalidArgument;
    }
    var g := GenerateQuery(ToOptions(q));
    if !g.Select? {
      return Internal;
    }
    forall r ensures Where(g.conds, g.args, r).True? <==> Meets(q, r) {
      RequestMeans(q, r);
    }
    return Answered(g);
  }

  /** The request names a status or a time, but none that counts as a criterion. */
  predicate OnlyVoidCriteria(q: Request) {
    && q.repo == "" && q.ref == "" && q.imageRepo == ""
    && (q.state < 1 || q.state > 7)
    && (forall t :: t in [q.completedAfter, q.startedAfter, q.completedBefore, q.startedBefore] ==>
          OrZero(t) == ZERO)
  }

  /** A request makes no criterion exactly when all its criteria are void. */
  lemma {:induction false} VoidExactly(r: Request)
    ensures !HasCriterion(ToOptions(r)) <==> OnlyVoidCriteria(r)
    ensures ToOptions(r) == NO_OPTIONS <==> OnlyVoidCriteria(r) && r.limit == 0
  {
    var o := ToOptions(r);
    assert HasCriterion(o) <==>
           (Wanted(RepoIs, o) || Wanted(RefIs, o) || Wanted(HasImageRepo, o) || Wanted(StatusIs, o)
            || Wanted(CompletedFrom, o) || Wanted(CreatedFrom, o) || Wanted(CompletedUntil, o) || Wanted(CreatedUntil, o));
    var ts := [r.completedAfter, r.startedAfter, r.completedBefore, r.startedBefore];
    assert ts[0] in ts && ts[1] in ts && ts[2] in ts && ts[3] in ts;
  }

  /** An admitted request leads to a malformed statement exactly when its only criteria are void ones
      and there is a limit. */
  lemma {:induction false} MalformedExactly(r: Request, q: Query)
    requires Admitted(r) && Generates(ToOptions(r), q)
    ensures q.Malformed? <==> OnlyVoidCriteria(r) && r.limit > 0
  {
    VoidExactly(r);
    hide Renders;
  }

  /** The handler's check lets such requests through. */
  lemma {:induction false} MalformedIsAdmitted()
    ensures exists q :: Admitted(q) && OnlyVoidCriteria(q) && q.limit > 0 && ToOptions(q) != NO_OPTIONS
  {
    var q := Request("", "", "", 42, None, None, None, None, 5);
    assert Admitted(q) && OnlyVoidCriteria(q) && q.limit > 0 && ToOptions(q) != NO_OPTIONS;
  }
}
