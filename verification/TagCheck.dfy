/** The three registry checkers: which of a build's tags does an image repository lack? */
module TagCheck {
  import opened Models

  /** The answer of AllTagsExist. */
  datatype Answer = Answer(ok: bool, missing: seq<string>) | Failed

  // ---------- Quay and GCR: one request per tag ----------

  /** What a registry says about one tag. */
  datatype Response = Found | NotFound | OtherStatus

  /** checkTag of the Quay checker; None stands for an error. */
  function QuayCheckTag(r: Response): Option<bool> {
    match r
    case Found => Some(true)
    case NotFound => Some(false)
    case OtherStatus => None
  }

  /** The body of a successful GCR response; None stands for one that does not parse. */
  method GcrCheckTag(r: Response, body: Option<seq<string>>, tag: string) returns (present: Option<bool>)
    ensures present.None? <==> r.OtherStatus? || (r.Found? && body.None?)
    ensures present == Some(true) <==> r.Found? && body.Some? && tag in body.value
  {
    match r {
      case Found =>
        if body.None? {
          return None;
        }
        var tagFound := false;
        for i := 0 to |body.value|
          invariant tagFound <==> tag in body.value[..i]
        {
          if body.value[i] == tag {
            tagFound := true;
          }
        }
        assert body.value[..|body.value|] == body.value;
        return Some(tagFound);
      case NotFound => return Some(false);
      case OtherStatus => return None;
    }
  }

  /** What the registry answers when it is asked for one tag: Quay says whether it exists, GCR lists the
      tags of the repository. */
  datatype TagAnswer = Quay(r: Response) | Gcr(r: Response, body: Option<seq<string>>)

  /** checkTag, of either checker, for one tag after the other. */
  method CheckEach(tags: seq<string>, answers: seq<TagAnswer>) returns (present: seq<Option<bool>>)
    requires |answers| == |tags|
    ensures |present| == |tags|
    ensures forall i :: 0 <= i < |tags| ==>
              (present[i].None? <==> answers[i].r == OtherStatus
                                     || (answers[i].Gcr? && answers[i].r == Found && answers[i].body.None?))
    ensures forall i :: 0 <= i < |tags| ==>
              (present[i] == Some(true) <==> answers[i].r == Found
                                             && (answers[i].Gcr? ==> answers[i].body.Some? && tags[i] in answers[i].body.value))
  {
    present := [];
    for i := 0 to |tags|
      invariant |present| == i
      invariant forall k :: 0 <= k < i ==>
                  (present[k].None? <==> answers[k].r == OtherStatus
                                         || (answers[k].Gcr? && answers[k].r == Found && answers[k].body.None?))
      invariant forall k :: 0 <= k < i ==>
                  (present[k] == Some(true) <==> answers[k].r == Found
                                                 && (answers[k].Gcr? ==> answers[k].body.Some? && tags[k] in answers[k].body.value))
    {
      var p: Option<bool>;
      match answers[i] {
        case Quay(r) => p := QuayCheckTag(r);
        case Gcr(r, body) => p := GcrCheckTag(r, body, tags[i]);
      }
      present := present + [p];
    }
  }

  /** The answer is as the repository is. */
  ghost predicate TruthfulAnswer(a: TagAnswer, tag: string, existing: set<string>) {
    match a
    case Quay(r) => r == if tag in existing then Found else NotFound
    case Gcr(r, body) =>
      if r == NotFound then tag !in existing
      else r == Found && body.Some? && (tag in body.value <==> tag in existing)
  }

  /** The tags that are not present, in order and with repetitions. */
  function Absent(tags: seq<string>, present: seq<Option<bool>>): seq<string>
    requires |tags| == |present|
  {
    if tags == [] then []
    else Absent(tags[..|tags| - 1], present[..|tags| - 1]) +
         if present[|tags| - 1] == Some(false) then [tags[|tags| - 1]] else []
  }

  /** The loop of the Quay and GCR checkers; present holds what checkTag returns for each tag. */
  method AllTagsExist(repoOk: bool, tags: seq<string>, present: seq<Option<bool>>) returns (a: Answer)
    requires |tags| == |present|
    ensures a.Failed? <==> !repoOk || None in present
    ensures a.Answer? ==> a.missing == Absent(tags, present) && (a.ok <==> a.missing == [])
  {
    if !repoOk {
      return Failed;
    }
    var missing: seq<string> := [];
    for i := 0 to |tags|
      invariant None !in present[..i]
      invariant missing == Absent(tags[..i], present[..i])
    {
      if present[i].None? {
        return Failed;
      }
      assert tags[..i + 1][..i] == tags[..i] && present[..i + 1][..i] == present[..i];
      if !present[i].value {
        missing := missing + [tags[i]];
      }
    }
    assert tags[..|tags|] == tags && present[..|tags|] == present;
    return Answer(|missing| == 0, missing);
  }

  // ---------- ECR: pages of images ----------

  /** The tags of one image; AWS hands out pointers, which may be nil. */
  type Image = seq<Option<string>>

  datatype Outcome = Complete | ImageNotFound | OtherError

  /** The pages DescribeImagesPages passes to its callback before it returns. */
  datatype Description = Description(pages: seq<seq<Image>>, outcome: Outcome)

  function ImageTags(image: Image): set<string> {
    set t | t in image && t.Some? :: t.value
  }

  function PageTags(page: seq<Image>): set<string> {
    if page == [] then {} else PageTags(page[..|page| - 1]) + ImageTags(page[|page| - 1])
  }

  function AllTags(pages: seq<seq<Image>>): set<string> {
    if pages == [] then {} else AllTags(pages[..|pages| - 1]) + PageTags(pages[|pages| - 1])
  }

  /** Every tag listed in a page of any of the descriptions. */
  function Listed(ds: seq<Description>): set<string> {
    if ds == [] then {} else Listed(ds[..|ds| - 1]) + AllTags(ds[|ds| - 1].pages)
  }

  /** A tag is among the listed ones exactly when some image on some page of some description has it,
      at whatever place. */
  lemma {:induction false} ListedExactly(ds: seq<Description>, t: string)
    ensures t in Listed(ds) <==>
            exists d, p, i, k ::
              && 0 <= d < |ds| && 0 <= p < |ds[d].pages| && 0 <= i < |ds[d].pages[p]|
              && 0 <= k < |ds[d].pages[p][i]| && ds[d].pages[p][i][k] == Some(t)
  {
    ListedTag(ds, t);
    forall d | 0 <= d < |ds|
      ensures t in AllTags(ds[d].pages) <==>
              exists p, i, k ::
                && 0 <= p < |ds[d].pages| && 0 <= i < |ds[d].pages[p]|
                && 0 <= k < |ds[d].pages[p][i]| && ds[d].pages[p][i][k] == Some(t)
    {
      TagOfPages(ds[d].pages, t);
      forall p | 0 <= p < |ds[d].pages| ensures t in PageTags(ds[d].pages[p]) <==>
              exists i, k :: 0 <= i < |ds[d].pages[p]| && 0 <= k < |ds[d].pages[p][i]| && ds[d].pages[p][i][k] == Some(t)
      {
        TagOfPage(ds[d].pages[p], t);
      }
    }
  }

  lemma {:induction false} TagOfPages(pages: seq<seq<Image>>, t: string)
    ensures t in AllTags(pages) <==> exists p :: 0 <= p < |pages| && t in PageTags(pages[p])
  {
    if pages != [] {
      var front := pages[..|pages| - 1];
      TagOfPages(front, t);
      if p :| 0 <= p < |pages| && t in PageTags(pages[p]) {
        if p < |front| { assert front[p] == pages[p]; }
      }
      if t in AllTags(front) {
        var p :| 0 <= p < |front| && t in PageTags(front[p]);
        assert pages[p] == front[p];
      }
    }
  }

  lemma {:induction false} TagOfPage(page: seq<Image>, t: string)
    ensures t in PageTags(page) <==>
            exists i, k :: 0 <= i < |page| && 0 <= k < |page[i]| && page[i][k] == Some(t)
  {
    if page != [] {
      var front := page[..|page| - 1];
      TagOfPage(front, t);
      var image := page[|page| - 1];
      assert t in ImageTags(image) <==> exists k :: 0 <= k < |image| && image[k] == Some(t);
      if i, k :| 0 <= i < |page| && 0 <= k < |page[i]| && page[i][k] == Some(t) {
        if i < |front| { assert front[i] == page[i] && front[i][k] == Some(t); }
      }
      if i, k :| 0 <= i < |front| && 0 <= k < |front[i]| && front[i][k] == Some(t) {
        assert page[i] == front[i] && page[i][k] == Some(t);
      }
    }
  }

  /** What the callback leaves of the missing set. */
  method Visit(page: seq<Image>, before: set<string>) returns (missing: set<string>)
    ensures missing == before - PageTags(page)
  {
    missing := before;
    for i := 0 to |page|
      invariant missing == before - PageTags(page[..i])
    {
      ghost var here := missing;
      for j := 0 to |page[i]|
        invariant missing == here - ImageTags(page[i][..j])
      {
        assert ImageTags(page[i][..j + 1]) ==
               ImageTags(page[i][..j]) + if page[i][j].Some? then {page[i][j].value} else {} by {
          assert page[i][..j + 1] == page[i][..j] + [page[i][j]];
        }
        if page[i][j].Some? {
          missing := missing - {page[i][j].value};
        }
      }
      assert page[i][..|page[i]|] == page[i];
      assert page[..i + 1][..i] == page[..i];
    }
    assert page[..|page|] == page;
  }

  /** DescribeImagesPages calls the callback on one page after the other. */
  method VisitAll(pages: seq<seq<Image>>, before: set<string>) returns (missing: set<string>)
    ensures missing == before - AllTags(pages)
  {
    missing := before;
    for j := 0 to |pages|
      invariant missing == before - AllTags(pages[..j])
    {
      missing := Visit(pages[j], missing);
      assert pages[..j + 1][..j] == pages[..j];
    }
    assert pages[..|pages|] == pages;
  }

  /** A repository name that AllTagsExist of the ECR checker can work with: [server]/[name], where
      the name carries no tag. */
  predicate WellFormedRepo(repo: string) {
    exists i :: 0 <= i < |repo| && repo[i] == '/' && '/' !in repo[..i] && ':' !in repo[i + 1..]
  }

  method SplitRepo(repo: string) returns (ok: bool)
    ensures ok <==> WellFormedRepo(repo)
  {
    for i := 0 to |repo|
      invariant '/' !in repo[..i]
    {
      if repo[i] == '/' {
        assert forall k :: 0 <= k < i ==> repo[..i][k] == repo[k];
        assert forall k :: i < k <= |repo| ==> repo[..k][i] == repo[i];
        return ':' !in repo[i + 1..];
      }
    }
    assert repo[..|repo|] == repo;
    return false;
  }

  /** ECRChecker.AllTagsExist. registryOk says whether the server part is an ECR registry, and
      described[i] what describing the i-th tag yields. */
  method EcrAllTagsExist(tags: seq<string>, repo: string, registryOk: bool, described: seq<Description>)
    returns (a: Answer)
    requires |described| == |tags|
    ensures a.Failed? <==>
            !WellFormedRepo(repo) || !registryOk || exists d :: d in described && d.outcome.OtherError?
    ensures a.Answer? ==>
            multiset(a.missing) == multiset((set t | t in tags) - Listed(described)) && (a.ok <==> a.missing == [])
  {
    hide WellFormedRepo, AllTags;
    var repoOk := SplitRepo(repo);
    if !repoOk || !registryOk {
      return Failed;
    }
    var missing := set t | t in tags;
    for i := 0 to |described|
      invariant forall d :: d in described[..i] ==> !d.outcome.OtherError?
      invariant missing == (set t | t in tags) - Listed(described[..i])
    {
      missing := VisitAll(described[i].pages, missing);
      assert described[..i + 1][..i] == described[..i];
      if described[i].outcome.OtherError? {
        return Failed;
      }
    }
    assert described[..|described|] == described;
    var mt := Enumerate(missing);
    return Answer(|missing| == 0, mt);
  }

  /** Ranging over a map, in whatever order. */
  method Enumerate(s: set<string>) returns (out: seq<string>)
    ensures multiset(out) == multiset(s) && (out == [] <==> s == {})
  {
    var rest := s;
    out := [];
    while rest != {}
      invariant rest <= s && multiset(out) == multiset(s - rest)
      decreases |rest|
    {
      var x :| x in rest;
      assert s - (rest - {x}) == (s - rest) + {x};
      out, rest := out + [x], rest - {x};
    }
    assert s - rest == s;
    if x :| x in s {
      assert x in multiset(out);
    }
  }

  // ---------- The checkers agree ----------

  /** The registry describes each tag truthfully: it lists only tags that exist, the one it was asked
      for among them if that one exists, and otherwise finds no image. */
  ghost predicate TruthfulEcr(tags: seq<string>, described: seq<Description>, existing: set<string>) {
    && |described| == |tags|
    && forall i :: 0 <= i < |tags| ==>
         && AllTags(described[i].pages) <= existing
         && (tags[i] in existing ==> tags[i] in AllTags(described[i].pages))
         && !described[i].outcome.OtherError?
  }

  ghost predicate Truthful(tags: seq<string>, present: seq<Option<bool>>, existing: set<string>) {
    && |present| == |tags|
    && forall i :: 0 <= i < |tags| ==> present[i] == Some(tags[i] in existing)
  }

  lemma {:induction false} ListedTag(ds: seq<Description>, t: string)
    ensures t in Listed(ds) <==> exists i :: 0 <= i < |ds| && t in AllTags(ds[i].pages)
  {
    if ds != [] {
      var front := ds[..|ds| - 1];
      ListedTag(front, t);
      if i :| 0 <= i < |ds| && t in AllTags(ds[i].pages) {
        if i < |ds| - 1 { assert front[i] == ds[i]; }
      }
      if t in Listed(front) {
        var i :| 0 <= i < |front| && t in AllTags(front[i].pages);
        assert ds[i] == front[i];
      }
    }
  }

  /** Of a truthful ECR registry the nested loops leave exactly the tags that do not exist. */
  lemma {:induction false} EcrMissingIsAbsent(tags: seq<string>, described: seq<Description>, existing: set<string>)
    requires TruthfulEcr(tags, described, existing)
    ensures (set t | t in tags) - Listed(described) == set t | t in tags && t !in existing
  {
    forall t | t in tags ensures t in Listed(described) <==> t in existing {
      ListedTag(described, t);
      var i :| 0 <= i < |tags| && tags[i] == t;
      assert t in existing ==> t in AllTags(described[i].pages);
    }
  }

  lemma {:induction false} AbsentTags(tags: seq<string>, present: seq<Option<bool>>, existing: set<string>, t: string)
    requires Truthful(tags, present, existing)
    ensures t in Absent(tags, present) <==> t in tags && t !in existing
  {
    if tags != [] {
      var n := |tags| - 1;
      AbsentTags(tags[..n], present[..n], existing, t);
      assert t in tags <==> t in tags[..n] || t == tags[n] by {
        assert tags == tags[..n] + [tags[n]];
      }
    }
  }

  /** Nothing is absent exactly when every tag exists. */
  lemma {:induction false} NoneAbsent(tags: seq<string>, present: seq<Option<bool>>, existing: set<string>)
    requires Truthful(tags, present, existing)
    ensures None !in present
    ensures Absent(tags, present) == [] <==> forall t :: t in tags ==> t in existing
  {
    forall t ensures t in Absent(tags, present) <==> t in tags && t !in existing {
      AbsentTags(tags, present, existing, t);
    }
    if Absent(tags, present) != [] {
      assert Absent(tags, present)[0] in Absent(tags, present);
    }
  }

  lemma {:induction false} NoneEnumerated(missing: seq<string>, left: set<string>)
    requires multiset(missing) == multiset(left)
    ensures missing == [] <==> left == {}
  {
    assert forall t :: t in left ==> t in multiset(left);
    assert missing != [] ==> missing[0] in multiset(missing);
  }

  /** Nothing is missing exactly when every tag exists. */
  lemma {:induction false} NoneMissing(tags: seq<string>, described: seq<Description>, existing: set<string>)
    requires TruthfulEcr(tags, described, existing)
    ensures (set t | t in tags) - Listed(described) == {} <==> forall t :: t in tags ==> t in existing
  {
    EcrMissingIsAbsent(tags, described, existing);
    hide TruthfulEcr, Listed;
    var left := set t | t in tags && t !in existing;
    assert left == {} <==> forall t :: t in tags ==> t in existing by {
      if left != {} { var t :| t in left; }
      else { assert forall t :: t in tags && t !in existing ==> t in left; }
    }
  }

  /** The set the ECR loops compute is the set of the tags that the Quay and GCR loop lists, and it is
      empty exactly when every tag exists. */
  lemma {:induction false} CheckersAgree(
      tags: seq<string>, described: seq<Description>, present: seq<Option<bool>>, existing: set<string>)
    requires TruthfulEcr(tags, described, existing) && Truthful(tags, present, existing)
    ensures (set t | t in tags) - Listed(described) == set t | t in Absent(tags, present)
    ensures Absent(tags, present) == [] <==> forall t :: t in tags ==> t in existing
  {
    EcrMissingIsAbsent(tags, described, existing);
    forall t ensures t in Absent(tags, present) <==> t in tags && t !in existing {
      AbsentTags(tags, present, existing, t);
    }
    var missing := set t | t in Absent(tags, present);
    if Absent(tags, present) != [] {
      assert Absent(tags, present)[0] in missing;
    }
    assert forall t :: t in missing <==> t in tags && t !in existing;
  }
}
