/** Uploads, the artifact directories and the problem cache, in every interleaving (internal/problems/uploader.go,
    store.go). An upload commits its transaction, then moves its directory into place, then drops the cache entry;
    GetByPath looks the path up, loads it on a miss, and stores what it loaded. Built-in problems are seeded
    before any request is served. */
module ArtifactStore {
  import opened Common
  import opened Paths
  import opened Catalog

  type ReqId = nat
  type GameId = nat

  datatype TestCase = TestCase(name: string, input: string, expected: string)

  /** A problem directory as far as loading looks at it; None is a file that is missing or does not parse. */
  datatype Content = Content(title: Option<string>, statement: Option<string>, tests: Option<seq<TestCase>>)

  datatype Problem = Problem(slug: Slug, title: string, statement: string, tests: seq<TestCase>)

  /** loadProblemFromDir. */
  function Load(path: string, dir: Content): Option<Problem> {
    if dir.title.None? || dir.title.value == "" || dir.statement.None? || dir.tests.None?
        || dir.tests.value == [] then None
    else Some(Problem(SlugOf(path), dir.title.value, dir.statement.value, dir.tests.value))
  }

  /** A committed upload whose directory is not in place yet, or whose cache entry is not dropped yet. */
  datatype Upload = Committed(slug: Slug, number: nat, content: Content) | Moved(path: string)

  /** A GetByPath that missed the cache: before and after loading. */
  datatype Reader = Missed(path: string) | Loaded(path: string, problem: Problem)

  datatype State = State(
    cat: Tables,
    disk: map<string, Content>,
    cache: map<string, Problem>,
    uploads: map<ReqId, Upload>,
    readers: map<ReqId, Reader>,
    pins: map<GameId, seq<VersionId>>)

  datatype Event =
    | CommitNew(r: ReqId, slug: Slug, owner: UserId, content: Content)
    | CommitVersion(r: ReqId, slug: Slug, content: Content)
    | Move(r: ReqId)
    | UploadFails(r: ReqId)
    | Invalidate(r: ReqId)
    | Miss(q: ReqId, path: string)
    | LoadDir(q: ReqId)
    | Store(q: ReqId)
    | ReaderFails(q: ReqId)
    | PinGame(g: GameId, slugs: seq<Slug>)
    | Restart

  function PathOf(u: Upload): string {
    if u.Committed? then ArtifactPath(u.slug, u.number) else u.path
  }

  predicate Enabled(s: State, e: Event) {
    match e
    case CommitNew(r, slug, _, _) => r !in s.uploads && slug !in s.cat.problems && SlashFree(slug)
    case CommitVersion(r, slug, _) => r !in s.uploads && Owned(s.cat, slug)
    case Move(r) => r in s.uploads && s.uploads[r].Committed?
    case UploadFails(r) => r in s.uploads
    case Invalidate(r) => r in s.uploads && s.uploads[r].Moved?
    case Miss(q, path) => q !in s.readers && path !in s.cache
    case LoadDir(q) => q in s.readers && s.readers[q].Missed? && s.readers[q].path in s.disk
        && Load(s.readers[q].path, s.disk[s.readers[q].path]).Some?
    case Store(q) => q in s.readers && s.readers[q].Loaded?
    case ReaderFails(q) => q in s.readers
    case PinGame(g, slugs) =>
      g !in s.pins && forall i | 0 <= i < |slugs| ::
          slugs[i] in s.cat.problems && s.cat.problems[slugs[i]].current.Some?
    case Restart => true
  }

  /** A rename onto a path that exists would replace it, so that such a rename never happens is something to prove. */
  ghost function Step(s: State, e: Event): State
    requires Enabled(s, e)
  {
    match e
    case CommitNew(r, slug, owner, content) =>
      s.(cat := UploadNew(s.cat, slug, owner), uploads := s.uploads[r := Committed(slug, 1, content)])
    case CommitVersion(r, slug, content) =>
      s.(cat := UploadVersion(s.cat, slug),
         uploads := s.uploads[r := Committed(slug, MaxOf(Numbers(s.cat, slug)) + 1, content)])
    case Move(r) =>
      var u := s.uploads[r];
      s.(disk := s.disk[PathOf(u) := u.content], uploads := s.uploads[r := Moved(PathOf(u))])
    case UploadFails(r) => s.(uploads := s.uploads - {r})
    case Invalidate(r) => s.(cache := s.cache - {s.uploads[r].path}, uploads := s.uploads - {r})
    case Miss(q, path) => s.(readers := s.readers[q := Missed(path)])
    case LoadDir(q) =>
      var path := s.readers[q].path;
      s.(readers := s.readers[q := Loaded(path, Load(path, s.disk[path]).value)])
    case Store(q) => s.(cache := s.cache[s.readers[q].path := s.readers[q].problem], readers := s.readers - {q})
    case ReaderFails(q) => s.(readers := s.readers - {q})
    case PinGame(g, slugs) =>
      s.(pins := s.pins[g := seq(|slugs|, i requires 0 <= i < |slugs| => s.cat.problems[slugs[i]].current.value)])
    case Restart => s.(cache := map[], uploads := map[], readers := map[])
  }

  ghost predicate ValidRun(s: State, es: seq<Event>)
    decreases |es|
  {
    es == [] || (Enabled(s, es[0]) && ValidRun(Step(s, es[0]), es[1..]))
  }

  ghost function Exec(s: State, es: seq<Event>): State
    requires ValidRun(s, es)
    decreases |es|
  {
    if es == [] then s else Exec(Step(s, es[0]), es[1..])
  }

  // The invariant

  /** A path of a user-owned problem is that of one of its versions. */
  ghost predicate PathKnown(cat: Tables, path: string) {
    && SlugOf(path) in cat.problems
    && (Owned(cat, SlugOf(path)) ==> exists n ::
          1 <= n <= CurrentNumber(cat, SlugOf(path)) && path == ArtifactPath(SlugOf(path), n))
  }

  ghost predicate UploadOk(s: State, u: Upload) {
    u.Committed? ==>
      && Owned(s.cat, u.slug) && 1 <= u.number <= CurrentNumber(s.cat, u.slug)
      && ArtifactPath(u.slug, u.number) !in s.disk
  }

  ghost predicate UploadsOk(s: State) {
    && (forall r | r in s.uploads :: UploadOk(s, s.uploads[r]))
    && (forall r, t | r in s.uploads && t in s.uploads && s.uploads[r].Committed? && s.uploads[t].Committed?
                      && s.uploads[r].slug == s.uploads[t].slug && s.uploads[r].number == s.uploads[t].number :: r == t)
  }

  ghost predicate DiskOk(s: State) {
    forall path | path in s.disk :: PathKnown(s.cat, path)
  }

  /** The entry equals what a fresh load of its path would give. */
  ghost predicate Fresh(disk: map<string, Content>, path: string, problem: Problem) {
    path in disk && Load(path, disk[path]) == Some(problem)
  }

  ghost predicate Coherent(s: State) {
    && (forall path | path in s.cache :: Fresh(s.disk, path, s.cache[path]))
    && (forall q | q in s.readers && s.readers[q].Loaded? :: Fresh(s.disk, s.readers[q].path, s.readers[q].problem))
  }

  ghost predicate PinsOk(s: State) {
    forall g | g in s.pins :: forall i | 0 <= i < |s.pins[g]| :: s.pins[g][i] in s.cat.versions
  }

  /** The current version of a problem is a version of that problem. */
  ghost predicate CurrentsExist(cat: Tables) {
    forall slug | slug in cat.problems && cat.problems[slug].current.Some? ::
        cat.problems[slug].current.value in Ids(cat, slug)
  }

  /** Every version's path starts with its slug. */
  ghost predicate PathsSplit(cat: Tables) {
    forall v | v in cat.versions :: SlugOf(cat.versions[v].path) == cat.versions[v].slug
  }

  ghost predicate Inv(s: State) {
    CatalogOk(s.cat) && CurrentsExist(s.cat) && PathsSplit(s.cat) && UploadsOk(s) && DiskOk(s) && Coherent(s)
        && PinsOk(s)
  }

  /** Directories, once in place, stay as they are; version rows and pins too. */
  ghost predicate OnlyAdds(a: State, b: State) {
    && Grows(a.cat, b.cat)
    && (forall path | path in a.disk :: path in b.disk && b.disk[path] == a.disk[path])
    && (forall g | g in a.pins :: g in b.pins && b.pins[g] == a.pins[g])
  }
}
