/** The upload limits when requests overlap (internal/service/problem_service.go:140-212): each request checks its
    counts,
    uploads its problems one by one afterwards, and up to k requests are between their check and their end. */
module UploadRace {
  import opened Common
  import opened Paths
  import opened Catalog
  import opened UploadLimits

  /** A request that passed its check: who sent it and what it still has to upload. */
  datatype Flight = Flight(user: UserId, todo: seq<Item>)

  datatype State = State(cat: Tables, flights: seq<Flight>)

  datatype Event = Begin(user: UserId, items: seq<Item>) | Next(i: nat) | End(i: nat)

  predicate Enabled(k: nat, s: State, e: Event) {
    match e
    case Begin(u, items) => |s.flights| < k && Validated(s.cat, items, u) && DistinctSlugs(items)
    case Next(i) => i < |s.flights| && s.flights[i].todo != [] && CanUpload(s.cat, s.flights[i].todo[0])
    case End(i) => i < |s.flights|
  }

  function Without(fs: seq<Flight>, i: nat): seq<Flight>
    requires i < |fs|
  {
    fs[..i] + fs[i + 1..]
  }

  /** A request may end before it is through, when an upload of it fails. */
  ghost function Step(k: nat, s: State, e: Event): State
    requires Enabled(k, s, e)
  {
    match e
    case Begin(u, items) => s.(flights := s.flights + [Flight(u, items)])
    case Next(i) =>
      var f := s.flights[i];
      State(Upload(s.cat, f.todo[0], f.user), s.flights[i := f.(todo := f.todo[1..])])
    case End(i) => s.(flights := Without(s.flights, i))
  }

  ghost predicate ValidRun(k: nat, s: State, es: seq<Event>)
    decreases |es|
  {
    es == [] || (Enabled(k, s, es[0]) && ValidRun(k, Step(k, s, es[0]), es[1..]))
  }

  ghost function Exec(k: nat, s: State, es: seq<Event>): State
    requires ValidRun(k, s, es)
    decreases |es|
  {
    if es == [] then s else Exec(k, Step(k, s, es[0]), es[1..])
  }

  // What the requests in flight may still add

  function Sum(fs: seq<Flight>, w: Flight -> nat): nat {
    if fs == [] then 0 else Sum(fs[..|fs| - 1], w) + w(fs[|fs| - 1])
  }

  lemma {:induction false} SumConcat(fs: seq<Flight>, gs: seq<Flight>, w: Flight -> nat)
    ensures Sum(fs + gs, w) == Sum(fs, w) + Sum(gs, w)
    decreases |gs|
  {
    if gs == [] {
      assert fs + gs == fs;
    } else {
      var init := gs[..|gs| - 1];
      assert (fs + gs)[..|fs + gs| - 1] == fs + init;
      SumConcat(fs, init, w);
    }
  }

  lemma SumOne(f: Flight, w: Flight -> nat)
    ensures Sum([f], w) == w(f)
  {
    assert [f][..0] == [];
  }

  lemma SumSplit(fs: seq<Flight>, i: nat, w: Flight -> nat)
    requires i < |fs|
    ensures Sum(fs, w) == Sum(fs[..i], w) + w(fs[i]) + Sum(fs[i + 1..], w)
  {
    var head, tail := fs[..i] + [fs[i]], fs[i + 1..];
    assert fs == head + tail;
    SumConcat(head, tail, w);
    SumConcat(fs[..i], [fs[i]], w);
    SumOne(fs[i], w);
  }

  lemma SumWithout(fs: seq<Flight>, i: nat, w: Flight -> nat)
    requires i < |fs|
    ensures Sum(Without(fs, i), w) == Sum(fs, w) - w(fs[i])
  {
    SumSplit(fs, i, w);
    SumConcat(fs[..i], fs[i + 1..], w);
  }

  lemma SumUpdate(fs: seq<Flight>, i: nat, f: Flight, w: Flight -> nat)
    requires i < |fs|
    ensures Sum(fs[i := f], w) == Sum(fs, w) - w(fs[i]) + w(f)
  {
    SumSplit(fs, i, w);
    SumSplit(fs[i := f], i, w);
    assert fs[i := f][..i] == fs[..i] && fs[i := f][i + 1..] == fs[i + 1..];
  }

  lemma {:induction false} SumAtMost(fs: seq<Flight>, w: Flight -> nat, b: nat)
    requires forall i | 0 <= i < |fs| :: w(fs[i]) <= b
    ensures Sum(fs, w) <= b * |fs|
    decreases |fs|
  {
    if fs != [] {
      SumAtMost(fs[..|fs| - 1], w, b);
      assert b * |fs| == b * (|fs| - 1) + b;
    }
  }

  /** Whether the request still has a version of this problem to upload. */
  function Wants(slug: Slug): Flight -> nat {
    (f: Flight) => if NewVersion(slug) in f.todo then 1 else 0
  }

  /** How many problems the request still has to create for this user. */
  function Creates(u: UserId): Flight -> nat {
    (f: Flight) => if f.user == u then NewCount(f.todo) else 0
  }

  lemma {:induction false} NewCountFront(items: seq<Item>)
    requires items != []
    ensures NewCount(items) == (if items[0].NewProblem? then 1 else 0) + NewCount(items[1..])
    decreases |items|
  {
    var init := items[..|items| - 1];
    if init != [] {
      NewCountFront(init);
      assert init[1..] == items[1..][..|items[1..]| - 1];
    }
  }

  // The invariant

  ghost predicate VersionsOk(k: nat, s: State, slug: Slug) {
    slug in s.cat.problems && Owned(s.cat, slug) ==>
        |Ids(s.cat, slug)| + Sum(s.flights, Wants(slug)) <= MAX_VERSIONS_PER_PROBLEM - 1 + k
  }

  ghost predicate ProblemsOk(k: nat, s: State, u: UserId) {
    |UserProblems(s.cat, u)| + Sum(s.flights, Creates(u)) <= MAX_PROBLEMS_PER_USER * k
  }

  ghost predicate FlightsOk(k: nat, s: State) {
    && CatalogOk(s.cat) && |s.flights| <= k
    && (forall i | 0 <= i < |s.flights| ::
          DistinctSlugs(s.flights[i].todo) && NewCount(s.flights[i].todo) <= MAX_PROBLEMS_PER_USER)
  }

  lemma StepFlights(k: nat, s: State, e: Event)
    requires FlightsOk(k, s) && Enabled(k, s, e)
    ensures FlightsOk(k, Step(k, s, e))
  {
    if e.Next? {
      var f := s.flights[e.i];
      UploadCounts(s.cat, f.todo[0], f.user, "");
      NewCountFront(f.todo);
    }
  }

  lemma FewWants(s: State, slug: Slug)
    ensures Sum(s.flights, Wants(slug)) <= |s.flights|
  {
    SumAtMost(s.flights, Wants(slug), 1);
  }

  lemma BeginVersions(k: nat, s: State, u: UserId, items: seq<Item>, slug: Slug)
    requires FlightsOk(k, s) && Enabled(k, s, Begin(u, items)) && VersionsOk(k, s, slug)
    ensures VersionsOk(k, Step(k, s, Begin(u, items)), slug)
  {
    var f := Flight(u, items);
    SumConcat(s.flights, [f], Wants(slug));
    SumOne(f, Wants(slug));
    FewWants(s, slug);
    if NewVersion(slug) in items {
      var i :| 0 <= i < |items| && items[i] == NewVersion(slug);
      assert CheckVersion(s.cat, slug, u).Ok?;
    }
  }

  lemma NextVersions(k: nat, s: State, i: nat, slug: Slug)
    requires FlightsOk(k, s) && Enabled(k, s, Next(i)) && VersionsOk(k, s, slug)
    ensures VersionsOk(k, Step(k, s, Next(i)), slug)
  {
    var f := s.flights[i];
    SumUpdate(s.flights, i, f.(todo := f.todo[1..]), Wants(slug));
    FewWants(s, slug);
    WantsAfter(f, slug);
    if Owned(Upload(s.cat, f.todo[0], f.user), slug) {
      VersionsAfter(s.cat, f.todo[0], f.user, slug);
    }
  }

  /** What an upload does to the versions of a problem that is owned afterwards. */
  lemma VersionsAfter(cat: Tables, item: Item, u: UserId, slug: Slug)
    requires CatalogOk(cat) && CanUpload(cat, item) && Owned(Upload(cat, item, u), slug)
    ensures var after := |Ids(Upload(cat, item, u), slug)|;
            if Owned(cat, slug) then after == |Ids(cat, slug)| + (if item == NewVersion(slug) then 1 else 0)
            else after == 1 && item != NewVersion(slug)
  {
    UploadCounts(cat, item, u, slug);
    OwnersAfter(cat, item, u, slug);
  }

  lemma WantsAfter(f: Flight, slug: Slug)
    requires f.todo != [] && DistinctSlugs(f.todo)
    ensures var f' := f.(todo := f.todo[1..]);
            Wants(slug)(f') == Wants(slug)(f) - (if f.todo[0] == NewVersion(slug) then 1 else 0)
  {
    assert f.todo == [f.todo[0]] + f.todo[1..];
  }

  /** A problem that is owned afterwards was owned before, or is the one just created, with its first version. */
  lemma OwnersAfter(cat: Tables, item: Item, u: UserId, slug: Slug)
    requires CatalogOk(cat) && CanUpload(cat, item) && Owned(Upload(cat, item, u), slug)
    ensures Owned(cat, slug) || (item == NewProblem(slug) && |Ids(cat, slug)| == 0)
  {
    if item == NewProblem(slug) {
      assert Ids(cat, slug) == {};
    }
  }

  lemma EndVersions(k: nat, s: State, i: nat, slug: Slug)
    requires FlightsOk(k, s) && Enabled(k, s, End(i)) && VersionsOk(k, s, slug)
    ensures VersionsOk(k, Step(k, s, End(i)), slug)
  {
    SumWithout(s.flights, i, Wants(slug));
  }

  lemma StepProblems(k: nat, s: State, e: Event, u: UserId)
    requires FlightsOk(k, s) && Enabled(k, s, e) && ProblemsOk(k, s, u)
    ensures ProblemsOk(k, Step(k, s, e), u)
  {
    match e
    case Begin(v, items) => BeginProblems(k, s, v, items, u);
    case Next(i) =>
      var f := s.flights[i];
      SumUpdate(s.flights, i, f.(todo := f.todo[1..]), Creates(u));
      NewCountFront(f.todo);
      UploadOwners(s.cat, f.todo[0], f.user, u);
    case End(i) => SumWithout(s.flights, i, Creates(u));
  }

  lemma BeginProblems(k: nat, s: State, v: UserId, items: seq<Item>, u: UserId)
    requires FlightsOk(k, s) && Enabled(k, s, Begin(v, items)) && ProblemsOk(k, s, u)
    ensures ProblemsOk(k, Step(k, s, Begin(v, items)), u)
  {
    var f := Flight(v, items);
    SumConcat(s.flights, [f], Creates(u));
    SumOne(f, Creates(u));
    SumAtMost(s.flights, Creates(u), MAX_PROBLEMS_PER_USER);
  }

  ghost predicate Inv(k: nat, s: State) {
    FlightsOk(k, s) && (forall slug :: VersionsOk(k, s, slug)) && (forall u :: ProblemsOk(k, s, u))
  }

  lemma StepKeepsInv(k: nat, s: State, e: Event)
    requires Inv(k, s) && Enabled(k, s, e)
    ensures Inv(k, Step(k, s, e))
  {
    StepFlights(k, s, e);
    forall slug ensures VersionsOk(k, Step(k, s, e), slug) {
      match e
      case Begin(u, items) => BeginVersions(k, s, u, items, slug);
      case Next(i) => NextVersions(k, s, i, slug);
      case End(i) => EndVersions(k, s, i, slug);
    }
    forall u ensures ProblemsOk(k, Step(k, s, e), u) {
      StepProblems(k, s, e, u);
    }
  }

  lemma {:induction false} RunKeepsInv(k: nat, s: State, es: seq<Event>)
    requires Inv(k, s) && ValidRun(k, s, es)
    ensures Inv(k, Exec(k, s, es))
    decreases |es|
  {
    if es != [] {
      StepKeepsInv(k, s, es[0]);
      RunKeepsInv(k, Step(k, s, es[0]), es[1..]);
    }
  }

  /** With up to k requests in flight, and distinct slugs in each, no user ever has more than 20 * k problems and no
      problem more than 9 + k versions. With k of one these are the limits themselves. */
  lemma LimitsWithOverlap(k: nat, cat: Tables, es: seq<Event>)
    requires k >= 1 && CatalogOk(cat) && LimitsOk(cat) && ValidRun(k, State(cat, []), es)
    ensures var end := Exec(k, State(cat, []), es).cat;
            && (forall u :: |UserProblems(end, u)| <= MAX_PROBLEMS_PER_USER * k)
            && (forall slug | Owned(end, slug) :: |Ids(end, slug)| <= MAX_VERSIONS_PER_PROBLEM - 1 + k)
  {
    var s := State(cat, []);
    forall u ensures ProblemsOk(k, s, u) {
      assert |UserProblems(cat, u)| <= MAX_PROBLEMS_PER_USER <= MAX_PROBLEMS_PER_USER * k;
    }
    RunKeepsInv(k, s, es);
    var end := Exec(k, s, es);
    forall u ensures |UserProblems(end.cat, u)| <= MAX_PROBLEMS_PER_USER * k {
      assert ProblemsOk(k, end, u);
    }
    forall slug | Owned(end.cat, slug) ensures |Ids(end.cat, slug)| <= MAX_VERSIONS_PER_PROBLEM - 1 + k {
      assert VersionsOk(k, end, slug);
    }
  }

  // Whose requests add versions

  /** The requests in flight name only problems of their users. */
  ghost predicate FlightsOwn(s: State) {
    forall i, slug | 0 <= i < |s.flights| && NewVersion(slug) in s.flights[i].todo ::
      slug in s.cat.problems && s.cat.problems[slug].owner == Some(s.flights[i].user)
  }

  /** The event adds a version to the problem. */
  predicate AddsVersion(s: State, e: Event, slug: Slug) {
    e.Next? && e.i < |s.flights| && s.flights[e.i].todo != [] && s.flights[e.i].todo[0] == NewVersion(slug)
  }

  lemma StepFlightsOwn(k: nat, s: State, e: Event)
    requires CatalogOk(s.cat) && FlightsOwn(s) && Enabled(k, s, e)
    ensures FlightsOwn(Step(k, s, e)) && CatalogOk(Step(k, s, e).cat) && Grows(s.cat, Step(k, s, e).cat)
  {
    var s' := Step(k, s, e);
    if e.Next? {
      UploadCounts(s.cat, s.flights[e.i].todo[0], s.flights[e.i].user, "");
    }
    forall i, slug | 0 <= i < |s'.flights| && NewVersion(slug) in s'.flights[i].todo
      ensures slug in s.cat.problems && s.cat.problems[slug].owner == Some(s'.flights[i].user)
    {
      NamedBefore(k, s, e, i, slug);
    }
  }

  /** What a request in flight still names it named before, unless it has just passed its check. */
  lemma NamedBefore(k: nat, s: State, e: Event, i: nat, slug: Slug)
    requires FlightsOwn(s) && Enabled(k, s, e)
    requires i < |Step(k, s, e).flights| && NewVersion(slug) in Step(k, s, e).flights[i].todo
    ensures slug in s.cat.problems && s.cat.problems[slug].owner == Some(Step(k, s, e).flights[i].user)
  {
    match e
    case Begin(u, items) =>
      if i == |s.flights| {
        var j :| 0 <= j < |items| && items[j] == NewVersion(slug);
        assert CheckVersion(s.cat, items[j].slug, u).Ok?;
      } else {
        assert NewVersion(slug) in s.flights[i].todo;
      }
    case Next(j) => assert NewVersion(slug) in s.flights[i].todo;
    case End(j) => assert NewVersion(slug) in s.flights[if i < j then i else i + 1].todo;
  }

  /** A version is added by a request of the problem's owner, and nothing else touches the problem. */
  lemma StepVersions(k: nat, s: State, e: Event, slug: Slug)
    requires CatalogOk(s.cat) && FlightsOwn(s) && Enabled(k, s, e) && slug in s.cat.problems
    ensures var cat' := Step(k, s, e).cat;
            && slug in cat'.problems && cat'.problems[slug].owner == s.cat.problems[slug].owner
            && (AddsVersion(s, e, slug) ==>
                  s.cat.problems[slug].owner == Some(s.flights[e.i].user)
                  && |Ids(cat', slug)| == |Ids(s.cat, slug)| + 1)
            && (!AddsVersion(s, e, slug) ==>
                  Ids(cat', slug) == Ids(s.cat, slug) && cat'.problems[slug] == s.cat.problems[slug])
  {
    if e.Next? {
      var f := s.flights[e.i];
      UploadCounts(s.cat, f.todo[0], f.user, slug);
      if AddsVersion(s, e, slug) {
        assert NewVersion(slug) in f.todo;
      } else {
        UploadLeaves(s.cat, f.todo[0], f.user, slug);
      }
    }
  }

  /** The versions of the problem that requests of v add in the run. */
  ghost function VersionsBy(k: nat, s: State, es: seq<Event>, slug: Slug, v: UserId): nat
    requires ValidRun(k, s, es)
    decreases |es|
  {
    if es == [] then 0 else
    (if AddsVersion(s, es[0], slug) && s.flights[es[0].i].user == v then 1 else 0)
    + VersionsBy(k, Step(k, s, es[0]), es[1..], slug, v)
  }

  /** No request of the owner is in flight. */
  ghost predicate NoneOf(s: State, owner: Option<UserId>) {
    forall i | 0 <= i < |s.flights| :: owner != Some(s.flights[i].user)
  }

  predicate NoneBegins(es: seq<Event>, owner: Option<UserId>) {
    forall j | 0 <= j < |es| && es[j].Begin? :: owner != Some(es[j].user)
  }

  lemma {:induction false} RunVersions(k: nat, s: State, es: seq<Event>, slug: Slug, v: UserId)
    requires CatalogOk(s.cat) && FlightsOwn(s) && ValidRun(k, s, es) && slug in s.cat.problems
    ensures var owner, end := s.cat.problems[slug].owner, Exec(k, s, es).cat;
            && slug in end.problems && end.problems[slug].owner == owner
            && (owner == Some(v) ==> |Ids(end, slug)| == |Ids(s.cat, slug)| + VersionsBy(k, s, es, slug, v))
            && (owner != Some(v) ==> VersionsBy(k, s, es, slug, v) == 0)
    decreases |es|
  {
    if es != [] {
      StepFlightsOwn(k, s, es[0]);
      StepVersions(k, s, es[0], slug);
      RunVersions(k, Step(k, s, es[0]), es[1..], slug, v);
    }
  }

  lemma NoneInFlight(k: nat, s: State, es: seq<Event>, owner: Option<UserId>)
    requires es != [] && Enabled(k, s, es[0]) && NoneOf(s, owner) && NoneBegins(es, owner)
    ensures NoneOf(Step(k, s, es[0]), owner) && NoneBegins(es[1..], owner)
  {
    forall j | 0 <= j < |es[1..]| && es[1..][j].Begin? ensures owner != Some(es[1..][j].user) {
      assert es[1..][j] == es[j + 1];
    }
  }

  lemma {:induction false} RunLeaves(k: nat, s: State, es: seq<Event>, slug: Slug)
    requires CatalogOk(s.cat) && FlightsOwn(s) && ValidRun(k, s, es) && slug in s.cat.problems
    requires NoneOf(s, s.cat.problems[slug].owner) && NoneBegins(es, s.cat.problems[slug].owner)
    ensures var end := Exec(k, s, es).cat;
            slug in end.problems && Ids(end, slug) == Ids(s.cat, slug) && end.problems[slug] == s.cat.problems[slug]
    decreases |es|
  {
    if es != [] {
      StepFlightsOwn(k, s, es[0]);
      StepVersions(k, s, es[0], slug);
      assert !AddsVersion(s, es[0], slug);
      NoneInFlight(k, s, es, s.cat.problems[slug].owner);
      RunLeaves(k, Step(k, s, es[0]), es[1..], slug);
    }
  }

  /** However requests overlap, every version a problem gets is added by a request of its owner; and if its owner sends
      none, its row and its versions stay as they are. */
  lemma OnlyOwnersAddVersions(k: nat, cat: Tables, es: seq<Event>, slug: Slug, v: UserId)
    requires CatalogOk(cat) && ValidRun(k, State(cat, []), es) && slug in cat.problems
    ensures var owner, end := cat.problems[slug].owner, Exec(k, State(cat, []), es).cat;
            && slug in end.problems && end.problems[slug].owner == owner
            && (owner == Some(v) ==>
                  |Ids(end, slug)| == |Ids(cat, slug)| + VersionsBy(k, State(cat, []), es, slug, v))
            && (owner != Some(v) ==> VersionsBy(k, State(cat, []), es, slug, v) == 0)
            && (NoneBegins(es, owner) ==>
                  Ids(end, slug) == Ids(cat, slug) && end.problems[slug] == cat.problems[slug])
  {
    RunVersions(k, State(cat, []), es, slug, v);
    if NoneBegins(es, cat.problems[slug].owner) {
      RunLeaves(k, State(cat, []), es, slug);
    }
  }

  // That overlapping requests do add up

  lemma {:induction false} Append(k: nat, s: State, es: seq<Event>, e: Event)
    requires ValidRun(k, s, es) && Enabled(k, Exec(k, s, es), e)
    ensures ValidRun(k, s, es + [e]) && Exec(k, s, es + [e]) == Step(k, Exec(k, s, es), e)
    decreases |es|
  {
    if es == [] {
      assert (es + [e])[1..] == [];
    } else {
      assert (es + [e])[1..] == es[1..] + [e];
      Append(k, Step(k, s, es[0]), es[1..], e);
    }
  }

  function Singles(items: seq<Item>, u: UserId): seq<Flight> {
    seq(|items|, i requires 0 <= i < |items| => Flight(u, [items[i]]))
  }

  /** One request per item, all checked before any uploads. */
  lemma {:induction false} AllBegin(k: nat, cat: Tables, items: seq<Item>, u: UserId) returns (es: seq<Event>)
    requires |items| <= k && forall i | 0 <= i < |items| :: Validated(cat, [items[i]], u)
    ensures ValidRun(k, State(cat, []), es) && Exec(k, State(cat, []), es) == State(cat, Singles(items, u))
    decreases |items|
  {
    if items == [] {
      es := [];
      assert Singles(items, u) == [];
    } else {
      var init, last := items[..|items| - 1], items[|items| - 1];
      var before := AllBegin(k, cat, init, u);
      Append(k, State(cat, []), before, Begin(u, [last]));
      es := before + [Begin(u, [last])];
      assert Singles(items, u) == Singles(init, u) + [Flight(u, [last])];
    }
  }

  ghost predicate FirstDone(fs: seq<Flight>, items: seq<Item>, u: UserId, n: nat) {
    && |fs| == |items|
    && forall i | n <= i < |items| :: fs[i] == Flight(u, [items[i]])
  }

  lemma {:induction false} AllUpload(k: nat, cat: Tables, items: seq<Item>, u: UserId, n: nat, start: State,
      before: seq<Event>)
    returns (es: seq<Event>)
    requires n <= |items| && Uploadable(cat, items[..n], u) && ValidRun(k, start, before)
    requires Exec(k, start, before) == State(cat, Singles(items, u))
    ensures ValidRun(k, start, es) && Exec(k, start, es).cat == UploadAll(cat, items[..n], u)
    ensures FirstDone(Exec(k, start, es).flights, items, u, n)
    decreases n
  {
    if n == 0 {
      es := before;
      assert items[..0] == [];
    } else {
      assert items[..n][..n - 1] == items[..n - 1];
      var earlier := AllUpload(k, cat, items, u, n - 1, start, before);
      var s := Exec(k, start, earlier);
      assert s.flights[n - 1].todo[0] == items[..n][n - 1];
      Append(k, start, earlier, Next(n - 1));
      es := earlier + [Next(n - 1)];
    }
  }

  /** Requests of one item each that all pass their checks together leave what one request with all the items would. */
  lemma OverlapUploadsAll(cat: Tables, items: seq<Item>, u: UserId)
    requires (forall i | 0 <= i < |items| :: Validated(cat, [items[i]], u)) && Uploadable(cat, items, u)
    ensures exists es :: ValidRun(|items|, State(cat, []), es)
              && Exec(|items|, State(cat, []), es).cat == UploadAll(cat, items, u)
  {
    var begun := AllBegin(|items|, cat, items, u);
    assert items[..|items|] == items;
    var es := AllUpload(|items|, cat, items, u, |items|, State(cat, []), begun);
  }

  function Copies(slug: Slug, k: nat): seq<Item> {
    seq(k, i requires 0 <= i < k => NewVersion(slug))
  }

  lemma {:induction false} CopiesUpload(cat: Tables, slug: Slug, u: UserId, k: nat)
    requires CatalogOk(cat) && Owned(cat, slug)
    ensures Uploadable(cat, Copies(slug, k), u) && Owned(UploadAll(cat, Copies(slug, k), u), slug)
    ensures CatalogOk(UploadAll(cat, Copies(slug, k), u)) && Occurrences(Copies(slug, k), slug) == k
    decreases k
  {
    if k > 0 {
      CopiesUpload(cat, slug, u, k - 1);
      assert Copies(slug, k)[..k - 1] == Copies(slug, k - 1);
      UploadCounts(UploadAll(cat, Copies(slug, k - 1), u), NewVersion(slug), u, slug);
    }
  }

  lemma OneVersionValidated(cat: Tables, slug: Slug, u: UserId)
    requires slug in cat.problems && cat.problems[slug].owner == Some(u) && |Ids(cat, slug)| < MAX_VERSIONS_PER_PROBLEM
    ensures Validated(cat, [NewVersion(slug)], u)
  {
    assert [NewVersion(slug)][..0] == [];
    assert NewCount([NewVersion(slug)]) == 0;
  }

  /** The bound on versions is reached: k overlapping requests for a problem with nine versions leave 9 + k. */
  lemma OverlapReachesVersions(cat: Tables, slug: Slug, u: UserId, k: nat)
    requires CatalogOk(cat) && slug in cat.problems && cat.problems[slug].owner == Some(u)
    requires |Ids(cat, slug)| == MAX_VERSIONS_PER_PROBLEM - 1
    ensures exists es ::
              && ValidRun(k, State(cat, []), es)
              && |Ids(Exec(k, State(cat, []), es).cat, slug)| == MAX_VERSIONS_PER_PROBLEM - 1 + k
  {
    var items := Copies(slug, k);
    forall i | 0 <= i < |items| ensures Validated(cat, [items[i]], u) {
      OneVersionValidated(cat, slug, u);
    }
    CopiesUpload(cat, slug, u, k);
    OverlapUploadsAll(cat, items, u);
    RequestCounts(cat, items, u, slug);
  }

  function Creations(slugs: seq<Slug>): seq<Item> {
    seq(|slugs|, i requires 0 <= i < |slugs| => NewProblem(slugs[i]))
  }

  predicate FreshSlugs(cat: Tables, slugs: seq<Slug>) {
    && (forall i | 0 <= i < |slugs| :: slugs[i] !in cat.problems && SlashFree(slugs[i]))
    && (forall i, j | 0 <= i < j < |slugs| :: slugs[i] != slugs[j])
  }

  lemma {:induction false} CreationsUpload(cat: Tables, slugs: seq<Slug>, u: UserId)
    requires CatalogOk(cat) && FreshSlugs(cat, slugs)
    ensures Uploadable(cat, Creations(slugs), u) && NewCount(Creations(slugs)) == |slugs|
    ensures forall slug | slug in UploadAll(cat, Creations(slugs), u).problems :: slug in cat.problems || slug in slugs
    decreases |slugs|
  {
    if slugs != [] {
      var init, last := slugs[..|slugs| - 1], slugs[|slugs| - 1];
      CreationsUpload(cat, init, u);
      assert Creations(slugs)[..|slugs| - 1] == Creations(init);
      assert last !in init;
      assert slugs == init + [last];
    }
  }

  lemma OneCreationValidated(cat: Tables, slug: Slug, u: UserId)
    requires |UserProblems(cat, u)| < MAX_PROBLEMS_PER_USER
    ensures Validated(cat, [NewProblem(slug)], u)
  {
    assert [NewProblem(slug)][..0] == [];
    assert NewCount([NewProblem(slug)]) == 1;
  }

  /** And the limit on problems is passed the same way: k overlapping requests of a user with 19 problems leave
      19 + k. */
  lemma OverlapPassesProblems(cat: Tables, slugs: seq<Slug>, u: UserId)
    requires CatalogOk(cat) && FreshSlugs(cat, slugs) && |UserProblems(cat, u)| == MAX_PROBLEMS_PER_USER - 1
    ensures exists es ::
              && ValidRun(|slugs|, State(cat, []), es)
              && |UserProblems(Exec(|slugs|, State(cat, []), es).cat, u)| == MAX_PROBLEMS_PER_USER - 1 + |slugs|
  {
    var items := Creations(slugs);
    forall i | 0 <= i < |items| ensures Validated(cat, [items[i]], u) {
      OneCreationValidated(cat, slugs[i], u);
    }
    CreationsUpload(cat, slugs, u);
    OverlapUploadsAll(cat, items, u);
    UserCounts(cat, items, u, u);
  }
}
