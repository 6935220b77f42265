/** The limits on uploads (internal/service/problem_service.go:140-212, internal/problems/validator.go:26-27), with
    each upload request taken as one step. */
module UploadLimits {
  import opened Common
  import opened Paths
  import opened Catalog

  const MAX_PROBLEMS_PER_USER := 20
  const MAX_VERSIONS_PER_PROBLEM := 10

  /** One validated problem of an archive: without a slug in its manifest it becomes a new problem, under the slug
      generated for it; with one it becomes a new version. */
  datatype Item = NewProblem(generated: Slug) | NewVersion(slug: Slug)

  datatype Error = ProblemNotFound | NotProblemOwner | VersionLimitReached | ProblemLimitReached

  function UserProblems(cat: Tables, u: UserId): set<Slug> {
    set slug | slug in cat.problems && cat.problems[slug].owner == Some(u)
  }

  function NewCount(items: seq<Item>): nat {
    if items == [] then 0 else NewCount(items[..|items| - 1]) + (if items[|items| - 1].NewProblem? then 1 else 0)
  }

  function Occurrences(items: seq<Item>, slug: Slug): nat {
    if items == [] then 0
    else Occurrences(items[..|items| - 1], slug) + (if items[|items| - 1] == NewVersion(slug) then 1 else 0)
  }

  /** The checks on one manifest slug, in their order. */
  function CheckVersion(cat: Tables, slug: Slug, u: UserId): Result<(), Error> {
    if slug !in cat.problems then Err(ProblemNotFound)
    else if cat.problems[slug].owner != Some(u) then Err(NotProblemOwner)
    else if |Ids(cat, slug)| >= MAX_VERSIONS_PER_PROBLEM then Err(VersionLimitReached)
    else Ok(())
  }

  predicate Validated(cat: Tables, items: seq<Item>, u: UserId) {
    && (forall i | 0 <= i < |items| && items[i].NewVersion? :: CheckVersion(cat, items[i].slug, u).Ok?)
    && (NewCount(items) > 0 ==> |UserProblems(cat, u)| + NewCount(items) <= MAX_PROBLEMS_PER_USER)
  }

  /** Item i is the first whose slug is not that of a problem of u with less than ten versions. */
  ghost predicate FirstRefused(cat: Tables, items: seq<Item>, u: UserId, i: nat)
    requires i < |items| && items[i].NewVersion?
  {
    && (items[i].slug in cat.problems && cat.problems[items[i].slug].owner == Some(u) ==>
          |Ids(cat, items[i].slug)| >= 10)
    && (forall j | 0 <= j < i && items[j].NewVersion? ::
          items[j].slug in cat.problems && cat.problems[items[j].slug].owner == Some(u)
              && |Ids(cat, items[j].slug)| < 10)
  }

  /** ValidateUploadBatch: every slug of the batch is that of a problem of the user with less than ten versions, and the
      new problems leave the user with at most twenty. */
  method ValidateUploadBatch(cat: Tables, items: seq<Item>, u: UserId) returns (r: Result<(), Error>)
    ensures r.Ok? <==> Validated(cat, items, u)
    ensures r.Ok? <==>
              && (forall i | 0 <= i < |items| && items[i].NewVersion? ::
                    && items[i].slug in cat.problems && cat.problems[items[i].slug].owner == Some(u)
                    && |Ids(cat, items[i].slug)| < 10)
              && (NewCount(items) > 0 ==> |UserProblems(cat, u)| + NewCount(items) <= 20)
    ensures r == Err(ProblemLimitReached) <==>
              && (forall i | 0 <= i < |items| && items[i].NewVersion? ::
                    && items[i].slug in cat.problems && cat.problems[items[i].slug].owner == Some(u)
                    && |Ids(cat, items[i].slug)| < 10)
              && NewCount(items) > 0 && |UserProblems(cat, u)| + NewCount(items) > 20
    ensures r.Err? && r.error != ProblemLimitReached ==>
              exists i | 0 <= i < |items| && items[i].NewVersion? :: FirstRefused(cat, items, u, i)
                  && r.error == if items[i].slug !in cat.problems then ProblemNotFound
                      else if cat.problems[items[i].slug].owner != Some(u) then NotProblemOwner
                      else VersionLimitReached
    ensures r == Err(NotProblemOwner) ==>
              exists slug | slug in cat.problems :: NewVersion(slug) in items && cat.problems[slug].owner != Some(u)
  {
    var newProblemCount := 0;
    for i := 0 to |items|
      invariant newProblemCount == NewCount(items[..i])
      invariant forall j | 0 <= j < i && items[j].NewVersion? :: CheckVersion(cat, items[j].slug, u).Ok?
    {
      assert items[..i + 1][..i] == items[..i];
      if items[i].NewProblem? {
        newProblemCount := newProblemCount + 1;
      } else {
        var slug := items[i].slug;
        if slug !in cat.problems {
          return Err(ProblemNotFound);
        }
        if cat.problems[slug].owner.None? {
          return Err(NotProblemOwner);
        }
        if cat.problems[slug].owner.value != u {
          return Err(NotProblemOwner);
        }
        if |Ids(cat, slug)| >= MAX_VERSIONS_PER_PROBLEM {
          return Err(VersionLimitReached);
        }
      }
    }
    assert items[..|items|] == items;
    if newProblemCount > 0 {
      var existing := |UserProblems(cat, u)|;
      if existing + newProblemCount > MAX_PROBLEMS_PER_USER {
        return Err(ProblemLimitReached);
      }
    }
    r := Ok(());
  }

  predicate CanUpload(cat: Tables, item: Item) {
    match item
    case NewProblem(slug) => slug !in cat.problems && SlashFree(slug)
    case NewVersion(slug) => Owned(cat, slug)
  }

  ghost function Upload(cat: Tables, item: Item, u: UserId): Tables
    requires CanUpload(cat, item)
  {
    match item
    case NewProblem(slug) => UploadNew(cat, slug, u)
    case NewVersion(slug) => UploadVersion(cat, slug)
  }

  /** The uploads of a request up to the first that fails go through one after the other. */
  ghost predicate Uploadable(cat: Tables, items: seq<Item>, u: UserId)
    decreases |items|, 0
  {
    items == [] || (Uploadable(cat, items[..|items| - 1], u)
        && CanUpload(UploadAll(cat, items[..|items| - 1], u), items[|items| - 1]))
  }

  ghost function UploadAll(cat: Tables, items: seq<Item>, u: UserId): Tables
    requires Uploadable(cat, items, u)
    decreases |items|, 1
  {
    if items == [] then cat else Upload(UploadAll(cat, items[..|items| - 1], u), items[|items| - 1], u)
  }

  lemma UploadNewCounts(cat: Tables, g: Slug, u: UserId, slug: Slug)
    requires CatalogOk(cat) && g !in cat.problems
    ensures |Ids(UploadNew(cat, g, u), slug)| == |Ids(cat, slug)| + (if slug == g then 1 else 0)
  {
    var mid := cat.(problems := cat.problems[g := ProblemRow(Some(u), None)]);
    assert Ids(mid, slug) == Ids(cat, slug);
    IdsAfterAdd(mid, g, 1, slug);
  }

  lemma UploadVersionCounts(cat: Tables, g: Slug, slug: Slug)
    requires CatalogOkIds(cat) && g in cat.problems
    ensures |Ids(UploadVersion(cat, g), slug)| == |Ids(cat, slug)| + (if slug == g then 1 else 0)
  {
    IdsAfterAdd(cat, g, MaxOf(Numbers(cat, g)) + 1, slug);
  }

  /** One upload adds one version to its own problem and to no other. */
  lemma UploadCounts(cat: Tables, item: Item, u: UserId, slug: Slug)
    requires CatalogOk(cat) && CanUpload(cat, item)
    ensures CatalogOk(Upload(cat, item, u)) && Grows(cat, Upload(cat, item, u))
    ensures |Ids(Upload(cat, item, u), slug)| == |Ids(cat, slug)|
              + (if item == NewVersion(slug) || item == NewProblem(slug) then 1 else 0)
  {
    match item
    case NewProblem(g) =>
      UploadNewOk(cat, g, u);
      UploadNewCounts(cat, g, u, slug);
    case NewVersion(g) =>
      UploadVersionOk(cat, g);
      UploadVersionCounts(cat, g, slug);
  }

  lemma UploadOwners(cat: Tables, item: Item, u: UserId, v: UserId)
    requires CanUpload(cat, item)
    ensures UserProblems(Upload(cat, item, u), v) == UserProblems(cat, v)
              + (if item.NewProblem? && v == u then {item.generated} else {})
  {
  }

  /** A request adds to each existing problem one version per occurrence of its slug. */
  lemma {:induction false} RequestCounts(cat: Tables, items: seq<Item>, u: UserId, slug: Slug)
    requires CatalogOk(cat) && Uploadable(cat, items, u) && slug in cat.problems
    ensures CatalogOk(UploadAll(cat, items, u)) && Grows(cat, UploadAll(cat, items, u))
    ensures |Ids(UploadAll(cat, items, u), slug)| == |Ids(cat, slug)| + Occurrences(items, slug)
    decreases |items|
  {
    if items != [] {
      var init, last := items[..|items| - 1], items[|items| - 1];
      RequestCounts(cat, init, u, slug);
      UploadCounts(UploadAll(cat, init, u), last, u, slug);
      GrowsTransitive(cat, UploadAll(cat, init, u), UploadAll(cat, items, u));
    }
  }

  // Whose requests add versions

  /** A request leaves a problem that none of its slugs names as it was. */
  lemma {:induction false} UnnamedUntouched(cat: Tables, items: seq<Item>, u: UserId, slug: Slug)
    requires CatalogOk(cat) && Uploadable(cat, items, u) && slug in cat.problems && NewVersion(slug) !in items
    ensures CatalogOk(UploadAll(cat, items, u)) && slug in UploadAll(cat, items, u).problems
    ensures Ids(UploadAll(cat, items, u), slug) == Ids(cat, slug)
    ensures UploadAll(cat, items, u).problems[slug] == cat.problems[slug]
    decreases |items|
  {
    if items != [] {
      var init, last := items[..|items| - 1], items[|items| - 1];
      UnnamedUntouched(cat, init, u, slug);
      UploadCounts(UploadAll(cat, init, u), last, u, slug);
      UploadLeaves(UploadAll(cat, init, u), last, u, slug);
    }
  }

  lemma UploadLeaves(cat: Tables, item: Item, u: UserId, slug: Slug)
    requires CatalogOk(cat) && CanUpload(cat, item) && slug in cat.problems && item != NewVersion(slug)
    ensures slug in Upload(cat, item, u).problems && Upload(cat, item, u).problems[slug] == cat.problems[slug]
    ensures Ids(Upload(cat, item, u), slug) == Ids(cat, slug)
  {
  }

  /** A validated request does not touch the problems of others: neither their row nor their versions. */
  lemma OthersUntouched(cat: Tables, items: seq<Item>, u: UserId, slug: Slug)
    requires CatalogOk(cat) && Validated(cat, items, u) && Uploadable(cat, items, u)
    requires slug in cat.problems && cat.problems[slug].owner != Some(u)
    ensures slug in UploadAll(cat, items, u).problems
    ensures Ids(UploadAll(cat, items, u), slug) == Ids(cat, slug)
    ensures UploadAll(cat, items, u).problems[slug] == cat.problems[slug]
  {
    UnnamedUntouched(cat, items, u, slug);
  }

  lemma GrowsTransitive(a: Tables, b: Tables, c: Tables)
    requires Grows(a, b) && Grows(b, c)
    ensures Grows(a, c)
  {
  }

  ghost predicate LimitsOk(cat: Tables) {
    && (forall u :: |UserProblems(cat, u)| <= MAX_PROBLEMS_PER_USER)
    && (forall slug | Owned(cat, slug) :: |Ids(cat, slug)| <= MAX_VERSIONS_PER_PROBLEM)
  }

  /** A problem created in the request has the one version it was created with, because the request's slugs exist
      already. */
  lemma {:induction false} CreatedHasOneVersion(cat: Tables, items: seq<Item>, u: UserId, slug: Slug)
    requires CatalogOk(cat) && Uploadable(cat, items, u) && slug !in cat.problems
    requires forall i | 0 <= i < |items| && items[i].NewVersion? :: items[i].slug in cat.problems
    ensures CatalogOk(UploadAll(cat, items, u)) && Grows(cat, UploadAll(cat, items, u))
    ensures |Ids(UploadAll(cat, items, u), slug)| <= 1
              && (slug !in UploadAll(cat, items, u).problems ==> Ids(UploadAll(cat, items, u), slug) == {})
    decreases |items|
  {
    if items == [] {
      assert Ids(cat, slug) == {};
    } else {
      var init, last := items[..|items| - 1], items[|items| - 1];
      CreatedHasOneVersion(cat, init, u, slug);
      UploadCounts(UploadAll(cat, init, u), last, u, slug);
      GrowsTransitive(cat, UploadAll(cat, init, u), UploadAll(cat, items, u));
      if slug !in UploadAll(cat, items, u).problems {
        assert CatalogOk(UploadAll(cat, items, u));
      }
    }
  }

  /** A validated request keeps both limits if and only if no problem's versions plus the occurrences of its slug in
      the request exceed ten. */
  lemma LimitsKeptExactly(cat: Tables, items: seq<Item>, u: UserId)
    requires CatalogOk(cat) && LimitsOk(cat) && Validated(cat, items, u) && Uploadable(cat, items, u)
    ensures LimitsOk(UploadAll(cat, items, u)) <==>
            forall slug | Owned(cat, slug) :: |Ids(cat, slug)| + Occurrences(items, slug) <= MAX_VERSIONS_PER_PROBLEM
  {
    var cat' := UploadAll(cat, items, u);
    forall slug | slug in cat.problems
      ensures |Ids(cat', slug)| == |Ids(cat, slug)| + Occurrences(items, slug) && slug in cat'.problems
              && cat'.problems[slug].owner == cat.problems[slug].owner
    {
      RequestCounts(cat, items, u, slug);
    }
    forall slug | Owned(cat', slug) && slug !in cat.problems ensures |Ids(cat', slug)| <= 1 {
      CreatedHasOneVersion(cat, items, u, slug);
    }
    forall v: UserId ensures |UserProblems(cat', v)| <= MAX_PROBLEMS_PER_USER {
      UserCounts(cat, items, u, v);
    }
  }

  lemma {:induction false} RequestOk(cat: Tables, items: seq<Item>, u: UserId)
    requires CatalogOk(cat) && Uploadable(cat, items, u)
    ensures CatalogOk(UploadAll(cat, items, u))
    decreases |items|
  {
    if items != [] {
      var init, last := items[..|items| - 1], items[|items| - 1];
      RequestOk(cat, init, u);
      UploadCounts(UploadAll(cat, init, u), last, u, "");
    }
  }

  /** A request adds to its user one problem per item without a slug, and to nobody else any. */
  lemma {:induction false} UserCounts(cat: Tables, items: seq<Item>, u: UserId, v: UserId)
    requires Uploadable(cat, items, u)
    ensures |UserProblems(UploadAll(cat, items, u), v)| == |UserProblems(cat, v)|
              + (if v == u then NewCount(items) else 0)
    decreases |items|
  {
    if items != [] {
      var init, last := items[..|items| - 1], items[|items| - 1];
      UserCounts(cat, init, u, v);
      UploadOwners(UploadAll(cat, init, u), last, u, v);
    }
  }

  predicate DistinctSlugs(items: seq<Item>) {
    forall i, j | 0 <= i < j < |items| && items[i].NewVersion? :: items[i] != items[j]
  }

  lemma {:induction false} OccursAtMostOnce(items: seq<Item>, slug: Slug)
    requires DistinctSlugs(items)
    ensures Occurrences(items, slug) <= 1
    ensures Occurrences(items, slug) == 1 ==> NewVersion(slug) in items
    ensures Occurrences(items, slug) == 0 ==> NewVersion(slug) !in items
    decreases |items|
  {
    if items != [] {
      OccursAtMostOnce(items[..|items| - 1], slug);
      assert items == items[..|items| - 1] + [items[|items| - 1]];
    }
  }

  /** With distinct slugs in the request, as an archive of distinct problems has, the limits hold afterwards. */
  lemma DistinctSlugsKeepLimits(cat: Tables, items: seq<Item>, u: UserId)
    requires CatalogOk(cat) && LimitsOk(cat) && Validated(cat, items, u) && Uploadable(cat, items, u)
              && DistinctSlugs(items)
    ensures LimitsOk(UploadAll(cat, items, u)) && CatalogOk(UploadAll(cat, items, u))
  {
    forall slug | Owned(cat, slug) ensures |Ids(cat, slug)| + Occurrences(items, slug) <= MAX_VERSIONS_PER_PROBLEM {
      OccursAtMostOnce(items, slug);
      if NewVersion(slug) in items {
        assert CheckVersion(cat, slug, u).Ok?;
      }
    }
    LimitsKeptExactly(cat, items, u);
    RequestOk(cat, items, u);
  }

  lemma TwiceUploadable(cat: Tables, slug: Slug, u: UserId)
    requires CatalogOk(cat) && Owned(cat, slug)
    ensures Uploadable(cat, [NewVersion(slug), NewVersion(slug)], u)
  {
    var once, twice := [NewVersion(slug)], [NewVersion(slug), NewVersion(slug)];
    assert once[..0] == [] && twice[..1] == once;
    assert Uploadable(cat, [], u);
    assert UploadAll(cat, once, u) == UploadVersion(cat, slug);
  }

  lemma TwiceCounts(slug: Slug)
    ensures NewCount([NewVersion(slug), NewVersion(slug)]) == 0
    ensures Occurrences([NewVersion(slug), NewVersion(slug)], slug) == 2
  {
    var once, twice := [NewVersion(slug)], [NewVersion(slug), NewVersion(slug)];
    assert once[..0] == [] && twice[..1] == once;
    assert NewCount(once) == 0 && Occurrences(once, slug) == 1;
  }

  /** The check does not see a slug that comes twice: with nine versions in place such a request is accepted and
      leaves eleven. */
  lemma RepeatedSlugPassesLimit(cat: Tables, slug: Slug, u: UserId)
    requires CatalogOk(cat) && slug in cat.problems && cat.problems[slug].owner == Some(u)
    requires |Ids(cat, slug)| == MAX_VERSIONS_PER_PROBLEM - 1
    ensures var items := [NewVersion(slug), NewVersion(slug)];
            && Validated(cat, items, u) && Uploadable(cat, items, u)
            && |Ids(UploadAll(cat, items, u), slug)| == MAX_VERSIONS_PER_PROBLEM + 1
  {
    var items := [NewVersion(slug), NewVersion(slug)];
    TwiceUploadable(cat, slug, u);
    TwiceCounts(slug);
    TwiceValidated(cat, items, slug, u);
    RequestCounts(cat, items, u, slug);
  }

  lemma TwiceValidated(cat: Tables, items: seq<Item>, slug: Slug, u: UserId)
    requires CheckVersion(cat, slug, u).Ok? && NewCount(items) == 0 && forall i | 0 <= i < |items| ::
              items[i] == NewVersion(slug)
    ensures Validated(cat, items, u)
  {
  }

  /** One upload request: what it carries and who sends it. A single new version is a request with one item. */
  datatype Request = Request(items: seq<Item>, user: UserId)

  ghost predicate Accepted(cat: Tables, req: Request) {
    Validated(cat, req.items, req.user) && Uploadable(cat, req.items, req.user) && DistinctSlugs(req.items)
  }

  ghost predicate ValidRequests(cat: Tables, reqs: seq<Request>)
    decreases |reqs|
  {
    reqs == [] || (Accepted(cat, reqs[0]) && ValidRequests(UploadAll(cat, reqs[0].items, reqs[0].user), reqs[1..]))
  }

  ghost function Serve(cat: Tables, reqs: seq<Request>): Tables
    requires ValidRequests(cat, reqs)
    decreases |reqs|
  {
    if reqs == [] then cat else Serve(UploadAll(cat, reqs[0].items, reqs[0].user), reqs[1..])
  }

  /** Over every sequence of accepted requests no user has more than 20 problems and no problem more than 10
      versions. */
  lemma {:induction false} LimitsHoldOverRequests(cat: Tables, reqs: seq<Request>)
    requires CatalogOk(cat) && LimitsOk(cat) && ValidRequests(cat, reqs)
    ensures LimitsOk(Serve(cat, reqs)) && CatalogOk(Serve(cat, reqs))
    decreases |reqs|
  {
    if reqs != [] {
      DistinctSlugsKeepLimits(cat, reqs[0].items, reqs[0].user);
      LimitsHoldOverRequests(UploadAll(cat, reqs[0].items, reqs[0].user), reqs[1..]);
    }
  }

  /** The versions that the requests of v ask for. */
  function VersionsAsked(reqs: seq<Request>, slug: Slug, v: UserId): nat {
    if reqs == [] then 0
    else (if reqs[0].user == v then Occurrences(reqs[0].items, slug) else 0) + VersionsAsked(reqs[1..], slug, v)
  }

  /** Over every sequence of accepted requests the versions a problem gets are those its owner asked for; with no
      request of its owner, and hence always if nobody owns it, its row and its versions stay as they are. */
  lemma {:induction false} VersionsComeFromOwner(cat: Tables, reqs: seq<Request>, slug: Slug, v: UserId)
    requires CatalogOk(cat) && ValidRequests(cat, reqs) && slug in cat.problems
    ensures slug in Serve(cat, reqs).problems && Serve(cat, reqs).problems[slug].owner == cat.problems[slug].owner
    ensures cat.problems[slug].owner == Some(v) ==>
              |Ids(Serve(cat, reqs), slug)| == |Ids(cat, slug)| + VersionsAsked(reqs, slug, v)
    ensures (forall i | 0 <= i < |reqs| :: cat.problems[slug].owner != Some(reqs[i].user)) ==>
              Serve(cat, reqs).problems[slug] == cat.problems[slug] && Ids(Serve(cat, reqs), slug) == Ids(cat, slug)
    decreases |reqs|
  {
    if reqs != [] {
      var items, u := reqs[0].items, reqs[0].user;
      RequestCounts(cat, items, u, slug);
      if cat.problems[slug].owner != Some(u) {
        OthersUntouched(cat, items, u, slug);
      }
      VersionsComeFromOwner(UploadAll(cat, items, u), reqs[1..], slug, v);
    }
  }
}
