/** The images a build pushes, and the decision not to build because they all exist. */
module Images {
  import opened Models
  import opened Lifecycle
  import Builder
  import TagCheck

  // ---------- imageNames ----------

  function Name(repo: string, tag: string): string {
    repo + ":" + tag
  }

  /** Slot i*|tags|+j of the preallocated slice belongs to repository i and tag j. */
  function Slot(i: nat, j: nat, tags: nat): nat {
    i * tags + j
  }

  lemma {:induction false} SlotInBounds(i: nat, j: nat, repos: nat, tags: nat)
    requires i < repos && j < tags
    ensures Slot(i, j, tags) < repos * tags
  {
    assert (i + 1) * tags <= repos * tags;
  }

  lemma {:induction false} SlotInjective(i: nat, j: nat, k: nat, l: nat, tags: nat)
    requires j < tags && l < tags && Slot(i, j, tags) == Slot(k, l, tags)
    ensures i == k && j == l
  {
    if i < k {
      SlotInBounds(i, j, k, tags);
    } else if k < i {
      SlotInBounds(k, l, i, tags);
    }
  }

  ghost predicate Owned(s: nat, repos: nat, tags: nat) {
    exists i: nat, j: nat :: i < repos && j < tags && Slot(i, j, tags) == s
  }

  lemma {:induction false} EverySlotOwned(s: nat, repos: nat, tags: nat)
    requires s < repos * tags
    ensures Owned(s, repos, tags)
  {
    var i: nat := repos - 1;
    assert repos * tags == i * tags + tags;
    if s < i * tags {
      EverySlotOwned(s, i, tags);
    } else {
      assert Slot(i, s - i * tags, tags) == s;
    }
  }

  /** Pairs of indices and slots are in one-to-one correspondence. */
  lemma {:induction false} SlotBijection(repos: nat, tags: nat)
    ensures forall i: nat, j: nat :: i < repos && j < tags ==> Slot(i, j, tags) < repos * tags
    ensures forall i: nat, j: nat, k: nat, l: nat ::
              i < repos && j < tags && k < repos && l < tags && Slot(i, j, tags) == Slot(k, l, tags) ==>
                i == k && j == l
    ensures forall s: nat :: s < repos * tags ==> Owned(s, repos, tags)
  {
    hide Slot, Owned;
    forall i: nat, j: nat | i < repos && j < tags ensures Slot(i, j, tags) < repos * tags {
      SlotInBounds(i, j, repos, tags);
    }
    forall i: nat, j: nat, k: nat, l: nat
      | i < repos && j < tags && k < repos && l < tags && Slot(i, j, tags) == Slot(k, l, tags)
      ensures i == k && j == l
    {
      SlotInjective(i, j, k, l, tags);
    }
    forall s: nat | s < repos * tags ensures Owned(s, repos, tags) {
      EverySlotOwned(s, repos, tags);
    }
  }

  /** Every slot holds the name of its own pair. */
  ghost predicate HoldsNames(out: seq<string>, repos: seq<string>, tags: seq<string>) {
    && |out| == |repos| * |tags|
    && forall i: nat, j: nat :: i < |repos| && j < |tags| ==>
         Slot(i, j, |tags|) < |out| && out[Slot(i, j, |tags|)] == Name(repos[i], tags[j])
  }

  /** imageNames. written is the sequence of slots as they are filled: each of them once, in order. */
  method ImageNames(repos: seq<string>, tags: seq<string>) returns (out: array<string>, ghost written: seq<nat>)
    ensures fresh(out) && HoldsNames(out[..], repos, tags)
    ensures |written| == |repos| * |tags| && forall s :: 0 <= s < |written| ==> written[s] == s
  {
    out := new string[|repos| * |tags|](_ => "");
    written := [];
    for i := 0 to |repos|
      invariant |written| == Slot(i, 0, |tags|) && forall s :: 0 <= s < |written| ==> written[s] == s
      invariant forall k: nat, l: nat :: k < i && l < |tags| ==>
                  Slot(k, l, |tags|) < out.Length && out[Slot(k, l, |tags|)] == Name(repos[k], tags[l])
    {
      for j := 0 to |tags|
        invariant |written| == Slot(i, j, |tags|) && forall s :: 0 <= s < |written| ==> written[s] == s
        invariant forall k: nat, l: nat :: k < i && l < |tags| ==>
                    Slot(k, l, |tags|) < out.Length && out[Slot(k, l, |tags|)] == Name(repos[k], tags[l])
        invariant forall l: nat :: l < j ==>
                    Slot(i, l, |tags|) < out.Length && out[Slot(i, l, |tags|)] == Name(repos[i], tags[l])
      {
        SlotInBounds(i, j, |repos|, |tags|);
        forall k: nat, l: nat | k < i && l < |tags| && Slot(k, l, |tags|) == Slot(i, j, |tags|) ensures false {
          SlotInjective(k, l, i, j, |tags|);
        }
        out[Slot(i, j, |tags|)] := Name(repos[i], tags[j]);
        written := written + [Slot(i, j, |tags|)];
      }
      assert Slot(i, |tags|, |tags|) == Slot(i + 1, 0, |tags|);
    }
  }

  // ---------- Skipping against pushing ----------

  /** The tags plus, if the flag is set, the commit SHA. */
  function WithSha(tags: seq<string>, flag: bool, sha: string): seq<string> {
    if flag then tags + [sha] else tags
  }

  /** What is pushed: every repository with every tag, and with the commit SHA only if the flag is set. */
  lemma {:induction false} PushedExactly(
      names: seq<string>, repos: seq<string>, tags: seq<string>, flag: bool, sha: string, name: string)
    requires HoldsNames(names, repos, WithSha(tags, flag, sha))
    ensures name in names <==>
            exists r, t :: r in repos && (t in tags || (flag && t == sha)) && name == r + ":" + t
  {
    var all := WithSha(tags, flag, sha);
    assert forall t :: t in all <==> t in tags || (flag && t == sha);
    hide WithSha;
    if name in names {
      var s: nat :| s < |names| && names[s] == name;
      var i, j := OwnerOf(names, repos, all, s);
      assert repos[i] in repos && all[j] in all && name == repos[i] + ":" + all[j];
    }
    if r, t :| r in repos && (t in tags || (flag && t == sha)) && name == r + ":" + t {
      assert t in all;
      var s := SlotOf(names, repos, all, r, t);
    }
  }

  lemma {:induction false} OwnerOf(names: seq<string>, repos: seq<string>, tags: seq<string>, s: nat) returns (i: nat, j: nat)
    requires HoldsNames(names, repos, tags) && s < |names|
    ensures i < |repos| && j < |tags| && names[s] == repos[i] + ":" + tags[j]
  {
    EverySlotOwned(s, |repos|, |tags|);
    i, j :| i < |repos| && j < |tags| && Slot(i, j, |tags|) == s;
  }

  lemma {:induction false} SlotOf(names: seq<string>, repos: seq<string>, tags: seq<string>, r: string, t: string)
    returns (s: nat)
    requires HoldsNames(names, repos, tags) && r in repos && t in tags
    ensures s < |names| && names[s] == r + ":" + t
  {
    var i: nat :| i < |repos| && repos[i] == r;
    var j: nat :| j < |tags| && tags[j] == t;
    s := Slot(i, j, |tags|);
  }

  /** Every name in the list exists. */
  predicate AllPresent(names: seq<string>, registry: set<string>) {
    forall k :: 0 <= k < |names| ==> names[k] in registry
  }

  /** The registries answer truthfully which repositories have all the tags. */
  ghost predicate TruthfulChecks(
      checks: seq<Option<bool>>, repos: seq<string>, tags: seq<string>, registry: set<string>) {
    && |checks| == |repos|
    && forall i :: 0 <= i < |repos| ==>
         checks[i] == Some(forall j :: 0 <= j < |tags| ==> Name(repos[i], tags[j]) in registry)
  }

  /** All repositories have all tags exactly when all names of the slice exist. */
  lemma {:induction false} ChecksDecideNames(
      checks: seq<Option<bool>>, repos: seq<string>, tags: seq<string>, names: seq<string>, registry: set<string>)
    requires TruthfulChecks(checks, repos, tags, registry) && HoldsNames(names, repos, tags)
    ensures Builder.AllExist(checks) <==> AllPresent(names, registry)
    ensures !Builder.CheckFails(checks)
  {
    if Builder.AllExist(checks) {
      forall s | 0 <= s < |names| ensures names[s] in registry {
        EverySlotOwned(s, |repos|, |tags|);
        var i: nat, j: nat :| i < |repos| && j < |tags| && Slot(i, j, |tags|) == s;
        assert checks[i] == Some(true);
      }
    }
    if AllPresent(names, registry) {
      forall i | 0 <= i < |checks| ensures checks[i] == Some(true) {
        forall j | 0 <= j < |tags| ensures Name(repos[i], tags[j]) in registry {
          assert names[Slot(i, j, |tags|)] == Name(repos[i], tags[j]);
        }
      }
    }
  }

  /** An attempt on a build made by StartBuild, whose two commit-SHA flags are one, decides to skip
      exactly when that was asked for and every image it would push exists. */
  lemma {:induction false} SkipAgreesWithPush(
      d: Builder.Deps, repos: seq<string>, tags: seq<string>, flag: bool, sha: string,
      pushed: seq<string>, registry: set<string>)
    requires d.tokenOk && d.shaOk
    requires TruthfulChecks(d.checks, repos, WithSha(tags, flag, sha), registry)
    requires HoldsNames(pushed, repos, WithSha(tags, flag, sha))
    ensures Builder.Skips(d) <==> d.skipIfExists && AllPresent(pushed, registry)
    ensures d.tempDirOk && d.fetchOk && d.subdirOk ==> (Builder.Builds(d) <==> !Builder.Skips(d))
  {
    ChecksDecideNames(d.checks, repos, WithSha(tags, flag, sha), pushed, registry);
  }

  // ---------- The decision, from the registries' answers to the names ----------

  /** What the registry of one repository answers: to a request per tag (Quay and GCR), or to a
      description of the image of each tag (ECR). */
  datatype Lookup =
    | PerTag(answers: seq<TagCheck.TagAnswer>)
    | Described(described: seq<TagCheck.Description>)

  /** The tags of a repository are those whose names the registries know. */
  ghost predicate TagsOf(existing: set<string>, repo: string, registry: set<string>) {
    forall t :: t in existing <==> Name(repo, t) in registry
  }

  /** The registry of repo answers as it is. */
  ghost predicate AnswersTruly(l: Lookup, tags: seq<string>, repo: string, existing: set<string>) {
    match l
    case PerTag(answers) =>
      |answers| == |tags| && forall i :: 0 <= i < |tags| ==> TagCheck.TruthfulAnswer(answers[i], tags[i], existing)
    case Described(described) =>
      TagCheck.TruthfulEcr(tags, described, existing) && TagCheck.WellFormedRepo(repo)
  }

  /** Checker.AllTagsExist of one repository, as far as Run looks at the result. */
  method CheckTags(l: Lookup, tags: seq<string>, repo: string, ghost existing: set<string>, ghost registry: set<string>)
    returns (ok: bool)
    requires AnswersTruly(l, tags, repo, existing) && TagsOf(existing, repo, registry)
    ensures ok <==> forall j :: 0 <= j < |tags| ==> Name(repo, tags[j]) in registry
  {
    assert (forall t :: t in tags ==> t in existing) <==> forall j :: 0 <= j < |tags| ==> Name(repo, tags[j]) in registry;
    hide TagsOf, TagCheck.WellFormedRepo;
    match l {
      case PerTag(answers) =>
        var present := TagCheck.CheckEach(tags, answers);
        forall i | 0 <= i < |tags| ensures present[i] == Some(tags[i] in existing) {
          assert present[i].Some?;
          var found := present[i].value;
          assert present[i] == Some(found);
        }
        var a := TagCheck.AllTagsExist(true, tags, present);
        TagCheck.NoneAbsent(tags, present, existing);
        return a.ok;
      case Described(described) =>
        var a := TagCheck.EcrAllTagsExist(tags, repo, true, described);
        TagCheck.NoneEnumerated(a.missing, (set t | t in tags) - TagCheck.Listed(described));
        TagCheck.NoneMissing(tags, described, existing);
        return a.ok;
    }
  }

  /** The skip test of Run on a build made by StartBuild: the registries are asked about each
      repository and all tags, and the answer is whether every image that would be pushed exists. */
  method AllImagesExist(
      repos: seq<string>, tags: seq<string>, flag: bool, sha: string, lookups: seq<Lookup>,
      ghost existing: seq<set<string>>, ghost registry: set<string>)
    returns (checks: seq<Option<bool>>, allexist: bool, names: array<string>)
    requires |lookups| == |repos| == |existing|
    requires forall i :: 0 <= i < |repos| ==>
               && AnswersTruly(lookups[i], WithSha(tags, flag, sha), repos[i], existing[i])
               && TagsOf(existing[i], repos[i], registry)
    ensures fresh(names) && HoldsNames(names[..], repos, WithSha(tags, flag, sha))
    ensures TruthfulChecks(checks, repos, WithSha(tags, flag, sha), registry)
    ensures allexist <==> AllPresent(names[..], registry)
  {
    hide AnswersTruly, TagsOf, HoldsNames, Builder.AllExist, Builder.CheckFails;
    var all := WithSha(tags, flag, sha);
    checks := [];
    for i := 0 to |repos|
      invariant TruthfulChecks(checks, repos[..i], all, registry)
    {
      var ok := CheckTags(lookups[i], all, repos[i], existing[i], registry);
      checks := checks + [Some(ok)];
    }
    assert repos[..|repos|] == repos;
    ghost var written;
    names, written := ImageNames(repos, all);
    ChecksDecideNames(checks, repos, all, names[..], registry);
    var r := Builder.CheckRepos(checks);
    allexist := r.value;
  }

  /** One attempt on a build made by StartBuild, with the registries' answers for its dependencies: it
      commits Skipped exactly when that was asked for, it got as far as to ask, every image that would
      be pushed exists, and the write commits. */
  method RunAttempt(
      m: Builder.Manager, d: Builder.Deps, others: nat -> seq<Label>,
      repos: seq<string>, tags: seq<string>, flag: bool, sha: string, lookups: seq<Lookup>,
      ghost existing: seq<set<string>>, ghost registry: set<string>)
    returns (err: bool, handedOver: bool, names: array<string>, ghost read: nat)
    requires m.w.Valid() && Enabled(m.w.state, AttemptBegin)
    requires |lookups| == |repos| == |existing|
    requires forall i :: 0 <= i < |repos| ==>
               && AnswersTruly(lookups[i], WithSha(tags, flag, sha), repos[i], existing[i])
               && TagsOf(existing[i], repos[i], registry)
    modifies m.w
    ensures m.w.Valid() && HoldsNames(names[..], repos, WithSha(tags, flag, sha))
    ensures old(m.w.writes) <= m.w.writes
    ensures Builder.ReadsAt(m.w.trace, |old(m.w.trace)|, read)
    ensures handedOver <==> d.readOk && StatusAt(m.w.trace, read).NotStarted? && d.handoff.Acked?
    ensures handedOver ==>
              (Skipped in m.w.writes[|old(m.w.writes)|..] <==>
                 && d.tokenOk && d.shaOk && d.skipIfExists
                 && AllPresent(names[..], registry) && d.completion.Committed())
    ensures handedOver && d.tokenOk && d.shaOk && d.skipIfExists && AllPresent(names[..], registry) ==>
              m.w.calls == old(m.w.calls) && (err <==> !d.completion.Acked?)
  {
    hide AnswersTruly, TagsOf, HoldsNames, AllPresent, TruthfulChecks, Builder.AllExist, Builder.CheckFails,
      Builder.World.Valid;
    var checks, allexist;
    checks, allexist, names := AllImagesExist(repos, tags, flag, sha, lookups, existing, registry);
    var d' := d.(checks := checks);
    ChecksDecideNames(checks, repos, WithSha(tags, flag, sha), names[..], registry);
    ghost var before := m.w.writes;
    var cancelled;
    err, handedOver, cancelled, read := m.Run(d', others);
    if handedOver {
      assert m.w.writes[|before|..] == [Running] + Builder.Verdicts(d', cancelled);
    }
  }

  // ---------- When the two flags differ ----------

  /** Run looks at the request's flag, genSolveOpt at the build's: do they look for the same images? */
  ghost predicate SameDecision(
      repos: seq<string>, tags: seq<string>, requestFlag: bool, buildFlag: bool, sha: string, registry: set<string>)
  {
    (forall i, j :: 0 <= i < |repos| && 0 <= j < |WithSha(tags, requestFlag, sha)| ==>
       Name(repos[i], WithSha(tags, requestFlag, sha)[j]) in registry) <==>
    (forall i, j :: 0 <= i < |repos| && 0 <= j < |WithSha(tags, buildFlag, sha)| ==>
       Name(repos[i], WithSha(tags, buildFlag, sha)[j]) in registry)
  }

  /** A tag has no colon, so the last colon of a name separates repository and tag. */
  lemma {:induction false} NameInjective(r: string, t: string, r': string, t': string)
    requires ':' !in t && ':' !in t' && Name(r, t) == Name(r', t')
    ensures r == r' && t == t'
  {
    var n := Name(r, t);
    assert n[|r|] == ':' && n[|r'|] == ':';
    assert n[|r| + 1..] == t && n[|r'| + 1..] == t';
    assert forall k :: |r| < k < |n| ==> n[k] in t;
    assert forall k :: |r'| < k < |n| ==> n[k] in t';
    assert n[..|r|] == r && n[..|r'|] == r';
  }

  /** The names without the commit SHA. */
  function PlainNames(repos: seq<string>, tags: seq<string>): set<string> {
    set r, t | r in repos && t in tags :: Name(r, t)
  }

  lemma {:induction false} FlagsMatter(repos: seq<string>, tags: seq<string>, f: bool, g: bool, sha: string)
    requires f != g && repos != [] && sha !in tags
    requires ':' !in sha && forall t :: t in tags ==> ':' !in t
    ensures !SameDecision(repos, tags, f, g, sha, PlainNames(repos, tags))
  {
    var names := PlainNames(repos, tags);
    var more := WithSha(tags, true, sha);
    if Name(repos[0], sha) in names {
      var r, t :| r in repos && t in tags && Name(r, t) == Name(repos[0], sha);
      NameInjective(r, t, repos[0], sha);
    }
    assert more[|tags|] == sha;
    assert Name(repos[0], more[|tags|]) !in names;
  }

  /** For every state of the registries the two decisions are the same exactly when the flags are, or
      the commit SHA is among the tags anyway, or there is no repository. */
  lemma {:induction false} FlagsAgreeExactly(repos: seq<string>, tags: seq<string>, f: bool, g: bool, sha: string)
    requires ':' !in sha && forall t :: t in tags ==> ':' !in t
    ensures (forall registry :: SameDecision(repos, tags, f, g, sha, registry)) <==>
            f == g || sha in tags || repos == []
  {
    if f != g && sha !in tags && repos != [] {
      FlagsMatter(repos, tags, f, g, sha);
    } else if sha in tags {
      var k :| 0 <= k < |tags| && tags[k] == sha;
      forall registry ensures SameDecision(repos, tags, f, g, sha, registry) {
        ShaAmongTags(repos, tags, f, sha, registry, k);
        ShaAmongTags(repos, tags, g, sha, registry, k);
      }
    }
  }

  lemma {:induction false} ShaAmongTags(repos: seq<string>, tags: seq<string>, f: bool, sha: string, registry: set<string>, k: nat)
    requires k < |tags| && tags[k] == sha
    ensures (forall i, j :: 0 <= i < |repos| && 0 <= j < |WithSha(tags, f, sha)| ==>
               Name(repos[i], WithSha(tags, f, sha)[j]) in registry) <==>
            (forall i, j :: 0 <= i < |repos| && 0 <= j < |tags| ==> Name(repos[i], tags[j]) in registry)
  {
    var more := WithSha(tags, f, sha);
    assert forall j :: 0 <= j < |tags| ==> more[j] == tags[j];
    assert forall j :: |tags| <= j < |more| ==> more[j] == tags[k];
  }
}
