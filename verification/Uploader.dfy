/** Store.GetByPath, UploadProblem and uploadNewVersion (internal/problems/store.go:49-66, uploader.go:31-186), each
    running alone against the catalog, the artifact directories and the cache. */
module Uploaders {
  import opened Common
  import opened Paths
  import opened Catalog
  import opened ArtifactStore
  import opened ArtifactTheorems

  datatype Error = ProblemNotFound | NoFreeSlug | MoveFailed

  class Store {
    var disk: map<string, Content>
    var cache: map<string, Problem>

    constructor (disk: map<string, Content>)
      ensures this.disk == disk && cache == map[] && Valid()
    {
      this.disk, cache := disk, map[];
    }

    /** The cache agrees with the directories. */
    ghost predicate Valid()
      reads this
    {
      forall path | path in cache :: Fresh(disk, path, cache[path])
    }

    /** GetByPath answers what a fresh load would, and remembers it. */
    method GetByPath(path: string) returns (r: Option<Problem>)
      requires Valid()
      modifies this`cache
      ensures Valid()
      ensures r == if path in disk then Load(path, disk[path]) else None
      ensures r.Some? <==>
                && path in disk && disk[path].title.Some? && |disk[path].title.value| > 0
                && disk[path].statement.Some? && disk[path].tests.Some? && |disk[path].tests.value| > 0
      ensures r.Some? ==>
                && r.value.slug == SlugOf(path)
                && disk[path] == Content(Some(r.value.title), Some(r.value.statement), Some(r.value.tests))
      ensures cache == if r.Some? then old(cache)[path := r.value] else old(cache)
    {
      if path in cache {
        r := Some(cache[path]);
        assert cache == cache[path := r.value];
        return;
      }
      if path !in disk {
        return None;
      }
      r := Load(path, disk[path]);
      if r.Some? {
        cache := cache[path := r.value];
      }
    }

    /** The move and the invalidation that end an upload. A rename onto a directory that is there replaces it or
        fails, which is for `moveFails` to say. */
    method Install(path: string, content: Content, moveFails: bool) returns (ok: bool)
      requires Valid()
      modifies this
      ensures Valid() && ok == !moveFails
      ensures disk == if ok then old(disk)[path := content] else old(disk)
      ensures cache == if ok then old(cache) - {path} else old(cache)
    {
      if moveFails {
        return false;
      }
      disk := disk[path := content];
      cache := cache - {path};
      ok := true;
    }
  }

  class Uploader {
    const store: Store
    var cat: Tables

    constructor (store: Store, cat: Tables)
      ensures this.store == store && this.cat == cat
    {
      this.store, this.cat := store, cat;
    }

    /** Catalog and directories are as some run leaves them. */
    ghost predicate Valid()
      reads this, store
    {
      && store.Valid() && CatalogOk(cat) && CurrentsExist(cat) && PathsSplit(cat)
      && forall path | path in store.disk :: PathKnown(cat, path)
    }

    /** GetMaxProblemVersion, one row after another. */
    method MaxVersion(slug: Slug) returns (max: nat)
      ensures max == MaxOf(Numbers(cat, slug))
      ensures forall v | v in cat.versions && cat.versions[v].slug == slug :: cat.versions[v].number <= max
      ensures max == 0 || exists v :: v in cat.versions && cat.versions[v].slug == slug && cat.versions[v].number == max
    {
      var ids := Ids(cat, slug);
      var seen: set<VersionId> := {};
      max := 0;
      while ids != {}
        invariant ids + seen == Ids(cat, slug)
        invariant forall v | v in seen :: cat.versions[v].number <= max
        invariant max == 0 || max in Numbers(cat, slug)
        decreases |ids|
      {
        var v :| v in ids;
        if cat.versions[v].number > max {
          max := cat.versions[v].number;
        }
        ids, seen := ids - {v}, seen + {v};
      }
      assert forall n | n in Numbers(cat, slug) :: n <= max;
    }

    /** uploadNewVersion: the number after the largest. For a user-owned problem that is the one after the current, and
        its path is free. */
    method UploadNewVersion(slug: Slug, content: Content, moveFails: bool) returns (r: Result<nat, Error>)
      requires Valid()
      modifies this, store
      ensures Valid()
      ensures r == Err(ProblemNotFound) <==> slug !in old(cat).problems
      ensures r == Err(ProblemNotFound) ==> cat == old(cat) && store.disk == old(store.disk)
      ensures slug in old(cat).problems ==>
                var n := MaxOf(Numbers(old(cat), slug)) + 1;
                && cat == UploadVersion(old(cat), slug)
                && cat.problems == old(cat).problems[slug := ProblemRow(old(cat).problems[slug].owner,
                  Some(old(cat).nextVersion))]
                && cat.versions == old(cat).versions[old(cat).nextVersion :=
                  VersionRow(slug, n, ArtifactPath(slug, n))]
                && r == (if moveFails then Err(MoveFailed) else Ok(n))
                && store.disk == if moveFails then old(store.disk)
                    else old(store.disk)[ArtifactPath(slug, n) := content]
      ensures Owned(old(cat), slug) ==>
                var n := MaxOf(Numbers(old(cat), slug)) + 1;
                && CurrentNumber(old(cat), slug) + 1 == n == CurrentNumber(cat, slug)
                && ArtifactPath(slug, n) !in old(store.disk)
    {
      if slug !in cat.problems {
        return Err(ProblemNotFound);
      }
      var maxVer := MaxVersion(slug);
      var newVersion := maxVer + 1;
      var artifactPath := ArtifactPath(slug, newVersion);
      if Owned(cat, slug) {
        PathIsFree(cat, store.disk, slug, newVersion);
      }
      NewVersionKnown(cat, store.disk, slug, newVersion, content);
      cat := AddVersion(cat, slug, newVersion);
      var moved := store.Install(artifactPath, content, moveFails);
      if !moved {
        return Err(MoveFailed);
      }
      r := Ok(newVersion);
    }

    /** UploadProblem for a manifest without a slug: the first of ten random candidates that is not taken. */
    method UploadProblem(candidates: seq<Slug>, owner: UserId, content: Content, moveFails: bool)
        returns (r: Result<Slug, Error>)
      requires Valid() && |candidates| == 10 && forall i | 0 <= i < 10 :: SlashFree(candidates[i])
      modifies this, store
      ensures Valid()
      ensures r == Err(NoFreeSlug) <==> forall i | 0 <= i < 10 :: candidates[i] in old(cat).problems
      ensures r == Err(NoFreeSlug) ==> cat == old(cat) && store.disk == old(store.disk)
      ensures r != Err(NoFreeSlug) ==>
                exists i :: 0 <= i < 10 && candidates[i] !in old(cat).problems
                    && (forall j | 0 <= j < i :: candidates[j] in old(cat).problems)
                  && cat == UploadNew(old(cat), candidates[i], owner)
                  && cat.problems == old(cat).problems[candidates[i] := ProblemRow(Some(owner),
                    Some(old(cat).nextVersion))]
                  && cat.versions == old(cat).versions[old(cat).nextVersion :=
                    VersionRow(candidates[i], 1, ArtifactPath(candidates[i], 1))]
                  && r == (if moveFails then Err(MoveFailed) else Ok(candidates[i]))
                  && store.disk == if moveFails then old(store.disk)
                      else old(store.disk)[ArtifactPath(candidates[i], 1) := content]
    {
      var i := 0;
      while i < 10 && candidates[i] in cat.problems
        invariant 0 <= i <= 10
        invariant forall j | 0 <= j < i :: candidates[j] in cat.problems
      {
        i := i + 1;
      }
      if i == 10 {
        return Err(NoFreeSlug);
      }
      var slug := candidates[i];
      NewProblemKnown(cat, store.disk, slug, owner, content);
      cat := UploadNew(cat, slug, owner);
      var moved := store.Install(ArtifactPath(slug, 1), content, moveFails);
      r := if moved then Ok(slug) else Err(MoveFailed);
    }
  }

  /** Directories stay known when the catalog advances and a known path is added. */
  lemma StillKnown(a: Tables, b: Tables, disk: map<string, Content>, path: string, content: Content)
    requires Advances(a, b) && (forall p | p in disk :: PathKnown(a, p)) && PathKnown(b, path)
    ensures forall p | p in disk[path := content] :: PathKnown(b, p)
  {
    forall p | p in disk ensures PathKnown(b, p) {
      PathStaysKnown(a, b, p);
    }
  }

  lemma NewProblemKnown(cat: Tables, disk: map<string, Content>, slug: Slug, owner: UserId, content: Content)
    requires CatalogOk(cat) && CurrentsExist(cat) && PathsSplit(cat) && SlashFree(slug) && slug !in cat.problems
    requires forall path | path in disk :: PathKnown(cat, path)
    ensures var cat' := UploadNew(cat, slug, owner); CatalogOk(cat') && CurrentsExist(cat') && PathsSplit(cat')
    ensures forall path | path in disk[ArtifactPath(slug, 1) := content] :: PathKnown(UploadNew(cat, slug, owner), path)
  {
    CommitNewAdvances(cat, slug, owner);
    FirstVersion(cat, slug, owner);
    SlugRecovered(slug, 1);
    AddSplits(cat.(problems := cat.problems[slug := ProblemRow(Some(owner), None)]), slug, 1);
    StillKnown(cat, UploadNew(cat, slug, owner), disk, ArtifactPath(slug, 1), content);
  }

  lemma VersionAdvances(cat: Tables, slug: Slug)
    requires CatalogOk(cat) && CurrentsExist(cat) && slug in cat.problems
    ensures var cat' := UploadVersion(cat, slug); CatalogOk(cat') && CurrentsExist(cat') && Advances(cat, cat')
  {
    if Owned(cat, slug) {
      CommitVersionAdvances(cat, slug);
    } else {
      BuiltInAdvances(cat, slug);
    }
  }

  lemma NewVersionKnown(cat: Tables, disk: map<string, Content>, slug: Slug, n: nat, content: Content)
    requires CatalogOk(cat) && CurrentsExist(cat) && PathsSplit(cat) && slug in cat.problems
    requires n == MaxOf(Numbers(cat, slug)) + 1 && forall path | path in disk :: PathKnown(cat, path)
    ensures var cat' := UploadVersion(cat, slug); CatalogOk(cat') && CurrentsExist(cat') && PathsSplit(cat')
    ensures forall path | path in disk[ArtifactPath(slug, n) := content] :: PathKnown(UploadVersion(cat, slug), path)
  {
    VersionAdvances(cat, slug);
    SlugRecovered(slug, n);
    NumberAfterAdd(cat, slug, n);
    AddSplits(cat, slug, n);
    StillKnown(cat, UploadVersion(cat, slug), disk, ArtifactPath(slug, n), content);
  }

  lemma PathIsFree(cat: Tables, disk: map<string, Content>, slug: Slug, n: nat)
    requires CatalogOk(cat) && Owned(cat, slug) && n == MaxOf(Numbers(cat, slug)) + 1
    requires forall path | path in disk :: PathKnown(cat, path)
    ensures ArtifactPath(slug, n) !in disk && n == CurrentNumber(cat, slug) + 1
  {
    var path := ArtifactPath(slug, n);
    NextNumber(cat, slug);
    SlugRecovered(slug, n);
    if path in disk {
      var m :| 1 <= m <= CurrentNumber(cat, slug) && path == ArtifactPath(slug, m);
      ArtifactPathInjective(slug, n, slug, m);
    }
  }
}
