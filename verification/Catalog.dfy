/** The problem catalog: problems and problem_versions rows and what the upload transactions do to them
    (internal/problems/uploader.go:31-186, internal/db/sqlc/problems.sql.go, problem_versions.sql.go). */
module Catalog {
  import opened Common
  import opened Paths

  type Slug = string
  type VersionId = nat

  datatype ProblemRow = ProblemRow(owner: Option<UserId>, current: Option<VersionId>)

  datatype VersionRow = VersionRow(slug: Slug, number: nat, path: string)

  datatype Tables = Tables(problems: map<Slug, ProblemRow>, versions: map<VersionId, VersionRow>, nextVersion: nat)

  function Ids(cat: Tables, slug: Slug): set<VersionId> {
    set v | v in cat.versions && cat.versions[v].slug == slug
  }

  function Numbers(cat: Tables, slug: Slug): set<nat> {
    set v | v in Ids(cat, slug) :: cat.versions[v].number
  }

  /** COALESCE(MAX(version), 0). */
  ghost function MaxOf(s: set<nat>): (m: nat)
    ensures s == {} ==> m == 0
    ensures s != {} ==> m in s
    ensures forall x | x in s :: x <= m
  {
    if s == {} then 0 else
    var x :| x in s;
    var rest := MaxOf(s - {x});
    assert s == (s - {x}) + {x};
    if rest > x then rest else x
  }

  predicate Owned(cat: Tables, slug: Slug) {
    slug in cat.problems && cat.problems[slug].owner.Some?
  }

  /** CreateProblemVersion followed by SetProblemCurrentVersion. */
  function AddVersion(cat: Tables, slug: Slug, number: nat): Tables
    requires slug in cat.problems
  {
    Tables(cat.problems[slug := cat.problems[slug].(current := Some(cat.nextVersion))],
           cat.versions[cat.nextVersion := VersionRow(slug, number, ArtifactPath(slug, number))],
           cat.nextVersion + 1)
  }

  /** The transaction of UploadProblem for a slug that is not taken. */
  function UploadNew(cat: Tables, slug: Slug, owner: UserId): Tables
    requires slug !in cat.problems
  {
    AddVersion(cat.(problems := cat.problems[slug := ProblemRow(Some(owner), None)]), slug, 1)
  }

  /** The transaction of uploadNewVersion, under the lock on the problem row. */
  ghost function UploadVersion(cat: Tables, slug: Slug): Tables
    requires slug in cat.problems
  {
    AddVersion(cat, slug, MaxOf(Numbers(cat, slug)) + 1)
  }

  /** The version number a user-owned problem is at. */
  function CurrentNumber(cat: Tables, slug: Slug): nat {
    if slug in cat.problems && cat.problems[slug].current.Some? && cat.problems[slug].current.value in cat.versions
    then cat.versions[cat.problems[slug].current.value].number else 0
  }

  /** Versions are exactly 1..k, each once, and the current one is k. */
  ghost predicate OwnedOk(cat: Tables, slug: Slug)
    requires slug in cat.problems
  {
    var k := CurrentNumber(cat, slug);
    && cat.problems[slug].current.Some? && cat.problems[slug].current.value in Ids(cat, slug)
    && k >= 1
    && (forall v | v in Ids(cat, slug) ::
          1 <= cat.versions[v].number <= k && cat.versions[v].path == ArtifactPath(slug, cat.versions[v].number))
    && (forall n | 1 <= n <= k :: HasNumber(cat, slug, n))
    && (forall v, w | v in Ids(cat, slug) && w in Ids(cat, slug) && cat.versions[v].number == cat.versions[w].number ::
          v == w)
    && |Ids(cat, slug)| == k
  }

  ghost predicate HasNumber(cat: Tables, slug: Slug, n: nat) {
    exists v :: v in Ids(cat, slug) && cat.versions[v].number == n
  }

  ghost predicate CatalogOk(cat: Tables) {
    && (forall v | v in cat.versions :: v < cat.nextVersion && cat.versions[v].slug in cat.problems)
    && (forall slug | slug in cat.problems :: SlashFree(slug))
    && (forall slug | slug in cat.problems && cat.problems[slug].owner.Some? :: OwnedOk(cat, slug))
  }

  /** Rows only appear: owners, and everything about a version, stay as they are. */
  ghost predicate Grows(a: Tables, b: Tables) {
    && (forall v | v in a.versions :: v in b.versions && b.versions[v] == a.versions[v])
    && (forall slug | slug in a.problems :: slug in b.problems && b.problems[slug].owner == a.problems[slug].owner)
  }

  lemma IdsAfterAdd(cat: Tables, slug: Slug, number: nat, other: Slug)
    requires CatalogOkIds(cat) && slug in cat.problems
    ensures Ids(AddVersion(cat, slug, number), other) == if other == slug then Ids(cat, slug) + {cat.nextVersion}
              else Ids(cat, other)
    ensures cat.nextVersion !in Ids(cat, slug)
  {
  }

  ghost predicate CatalogOkIds(cat: Tables) {
    forall v | v in cat.versions :: v < cat.nextVersion
  }

  /** Another problem's rows are not touched by an added version. */
  lemma AddKeepsOthers(cat: Tables, slug: Slug, number: nat, other: Slug)
    requires CatalogOkIds(cat) && slug in cat.problems && other in cat.problems && other != slug && OwnedOk(cat, other)
    ensures OwnedOk(AddVersion(cat, slug, number), other)
  {
    var cat' := AddVersion(cat, slug, number);
    IdsAfterAdd(cat, slug, number, other);
    forall n | 1 <= n <= CurrentNumber(cat', other) ensures HasNumber(cat', other, n) {
      assert HasNumber(cat, other, n);
      var v :| v in Ids(cat, other) && cat.versions[v].number == n;
      assert v in Ids(cat', other) && cat'.versions[v].number == n;
    }
  }

  /** The next number after 1..k is k + 1. */
  lemma NextNumber(cat: Tables, slug: Slug)
    requires slug in cat.problems && OwnedOk(cat, slug)
    ensures MaxOf(Numbers(cat, slug)) == CurrentNumber(cat, slug)
  {
    var cv := cat.problems[slug].current.value;
    assert cat.versions[cv].number in Numbers(cat, slug);
  }

  /** A version added under the number after the current one extends 1..k to 1..k+1. */
  lemma AddExtends(cat: Tables, slug: Slug)
    requires CatalogOkIds(cat) && slug in cat.problems && OwnedOk(cat, slug)
    ensures OwnedOk(AddVersion(cat, slug, CurrentNumber(cat, slug) + 1), slug)
    ensures CurrentNumber(AddVersion(cat, slug, CurrentNumber(cat, slug) + 1), slug) == CurrentNumber(cat, slug) + 1
  {
    var k := CurrentNumber(cat, slug);
    IdsAfterAdd(cat, slug, k + 1, slug);
    NumbersAreThere(cat, slug, AddVersion(cat, slug, k + 1), k);
    RowsStayDistinct(cat, slug, AddVersion(cat, slug, k + 1), k);
  }

  lemma RowsStayDistinct(cat: Tables, slug: Slug, cat': Tables, k: nat)
    requires CatalogOkIds(cat) && slug in cat.problems && cat' == AddVersion(cat, slug, k + 1)
    requires forall v | v in Ids(cat, slug) ::
              1 <= cat.versions[v].number <= k && cat.versions[v].path == ArtifactPath(slug, cat.versions[v].number)
    requires forall v, w | v in Ids(cat, slug) && w in Ids(cat, slug)
              && cat.versions[v].number == cat.versions[w].number :: v == w
    ensures forall v | v in Ids(cat', slug) ::
              1 <= cat'.versions[v].number <= k + 1
                  && cat'.versions[v].path == ArtifactPath(slug, cat'.versions[v].number)
    ensures forall v, w | v in Ids(cat', slug) && w in Ids(cat', slug)
              && cat'.versions[v].number == cat'.versions[w].number :: v == w
  {
    IdsAfterAdd(cat, slug, k + 1, slug);
    assert forall v | v in Ids(cat, slug) :: cat'.versions[v] == cat.versions[v];
  }

  lemma NumbersAreThere(cat: Tables, slug: Slug, cat': Tables, k: nat)
    requires CatalogOkIds(cat) && slug in cat.problems && cat' == AddVersion(cat, slug, k + 1)
    requires forall n | 1 <= n <= k :: HasNumber(cat, slug, n)
    ensures forall n | 1 <= n <= k + 1 :: HasNumber(cat', slug, n)
  {
    forall n | 1 <= n <= k + 1 ensures HasNumber(cat', slug, n) {
      assert n <= k ==> HasNumber(cat, slug, n);
      NumberIsThere(cat, slug, k + 1, n);
    }
  }

  lemma NumberIsThere(cat: Tables, slug: Slug, number: nat, n: nat)
    requires CatalogOkIds(cat) && slug in cat.problems && (n == number || HasNumber(cat, slug, n))
    ensures HasNumber(AddVersion(cat, slug, number), slug, n)
  {
    var cat' := AddVersion(cat, slug, number);
    IdsAfterAdd(cat, slug, number, slug);
    if n == number {
      assert cat.nextVersion in Ids(cat', slug) && cat'.versions[cat.nextVersion].number == n;
    } else {
      var v :| v in Ids(cat, slug) && cat.versions[v].number == n;
      assert v in Ids(cat', slug) && cat'.versions[v].number == n;
    }
  }

  lemma AddOk(cat: Tables, slug: Slug)
    requires CatalogOk(cat) && Owned(cat, slug)
    ensures var cat' := AddVersion(cat, slug, CurrentNumber(cat, slug) + 1); CatalogOk(cat') && Grows(cat, cat')
  {
    var cat' := AddVersion(cat, slug, CurrentNumber(cat, slug) + 1);
    forall other | other in cat'.problems && cat'.problems[other].owner.Some? ensures OwnedOk(cat', other) {
      if other == slug {
        AddExtends(cat, slug);
      } else {
        AddKeepsOthers(cat, slug, CurrentNumber(cat, slug) + 1, other);
      }
    }
  }

  lemma NumberAfterAdd(cat: Tables, slug: Slug, number: nat)
    requires slug in cat.problems
    ensures CurrentNumber(AddVersion(cat, slug, number), slug) == number
  {
  }

  lemma UploadVersionIsNext(cat: Tables, slug: Slug)
    requires slug in cat.problems && OwnedOk(cat, slug)
    ensures UploadVersion(cat, slug) == AddVersion(cat, slug, CurrentNumber(cat, slug) + 1)
  {
    NextNumber(cat, slug);
  }

  /** uploadNewVersion gives a user-owned problem the next number and keeps the catalog good. */
  lemma UploadVersionOk(cat: Tables, slug: Slug)
    requires CatalogOk(cat) && Owned(cat, slug)
    ensures UploadVersion(cat, slug) == AddVersion(cat, slug, CurrentNumber(cat, slug) + 1)
    ensures CatalogOk(UploadVersion(cat, slug)) && Grows(cat, UploadVersion(cat, slug))
    ensures CurrentNumber(UploadVersion(cat, slug), slug) == CurrentNumber(cat, slug) + 1
  {
    UploadVersionIsNext(cat, slug);
    NumberAfterAdd(cat, slug, CurrentNumber(cat, slug) + 1);
    AddOk(cat, slug);
  }

  /** A version added to a problem nobody owns leaves the owned ones as they are. */
  lemma BuiltInVersionOk(cat: Tables, slug: Slug)
    requires CatalogOk(cat) && slug in cat.problems && !Owned(cat, slug)
    ensures CatalogOk(UploadVersion(cat, slug)) && Grows(cat, UploadVersion(cat, slug))
  {
    var number := MaxOf(Numbers(cat, slug)) + 1;
    var cat' := AddVersion(cat, slug, number);
    forall other | Owned(cat', other) ensures OwnedOk(cat', other) {
      AddKeepsOthers(cat, slug, number, other);
    }
  }

  lemma FirstVersion(cat: Tables, slug: Slug, owner: UserId)
    requires CatalogOk(cat) && slug !in cat.problems
    ensures OwnedOk(UploadNew(cat, slug, owner), slug) && CurrentNumber(UploadNew(cat, slug, owner), slug) == 1
  {
    var mid := cat.(problems := cat.problems[slug := ProblemRow(Some(owner), None)]);
    assert Ids(mid, slug) == {};
    IdsAfterAdd(mid, slug, 1, slug);
    var cat' := UploadNew(cat, slug, owner);
    assert Ids(cat', slug) == {cat.nextVersion};
    assert HasNumber(cat', slug, 1);
  }

  lemma UploadNewOk(cat: Tables, slug: Slug, owner: UserId)
    requires CatalogOk(cat) && slug !in cat.problems && SlashFree(slug)
    ensures CatalogOk(UploadNew(cat, slug, owner)) && Grows(cat, UploadNew(cat, slug, owner))
  {
    var mid := cat.(problems := cat.problems[slug := ProblemRow(Some(owner), None)]);
    var cat' := UploadNew(cat, slug, owner);
    FirstVersion(cat, slug, owner);
    forall other | other in cat'.problems && cat'.problems[other].owner.Some? ensures OwnedOk(cat', other) {
      if other != slug {
        assert Ids(mid, other) == Ids(cat, other);
        SameRowsOk(cat, mid, other);
        AddKeepsOthers(mid, slug, 1, other);
      }
    }
  }

  lemma SameRowsOk(a: Tables, b: Tables, slug: Slug)
    requires slug in a.problems && slug in b.problems && a.problems[slug] == b.problems[slug]
              && a.versions == b.versions
    requires OwnedOk(a, slug)
    ensures OwnedOk(b, slug)
  {
    assert Ids(a, slug) == Ids(b, slug);
    forall n | 1 <= n <= CurrentNumber(b, slug) ensures HasNumber(b, slug, n) {
      assert HasNumber(a, slug, n);
    }
  }
}
