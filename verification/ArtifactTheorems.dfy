/** Version numbering, write-once artifacts and cache coherence over every run of the artifact store. */
module ArtifactTheorems {
  import opened Common
  import opened Paths
  import opened Catalog
  import opened ArtifactStore

  /** The catalog grew and no problem's current number went down. */
  ghost predicate Advances(a: Tables, b: Tables) {
    Grows(a, b) && forall slug | Owned(a, slug) :: CurrentNumber(a, slug) <= CurrentNumber(b, slug)
  }

  lemma NumberElsewhere(cat: Tables, slug: Slug, number: nat, other: Slug)
    requires CatalogOk(cat) && slug in cat.problems && Owned(cat, other) && other != slug
    ensures CurrentNumber(AddVersion(cat, slug, number), other) == CurrentNumber(cat, other)
  {
    assert OwnedOk(cat, other);
  }

  lemma CommitVersionAdvances(cat: Tables, slug: Slug)
    requires CatalogOk(cat) && CurrentsExist(cat) && Owned(cat, slug)
    ensures var cat' := UploadVersion(cat, slug); CatalogOk(cat') && CurrentsExist(cat') && Advances(cat, cat')
  {
    UploadVersionOk(cat, slug);
    forall other | Owned(cat, other)
        ensures CurrentNumber(cat, other) <= CurrentNumber(UploadVersion(cat, slug), other) {
      if other != slug {
        NumberElsewhere(cat, slug, CurrentNumber(cat, slug) + 1, other);
      }
    }
  }

  lemma BuiltInAdvances(cat: Tables, slug: Slug)
    requires CatalogOk(cat) && CurrentsExist(cat) && slug in cat.problems && !Owned(cat, slug)
    ensures var cat' := UploadVersion(cat, slug); CatalogOk(cat') && CurrentsExist(cat') && Advances(cat, cat')
  {
    BuiltInVersionOk(cat, slug);
    forall other | Owned(cat, other)
        ensures CurrentNumber(cat, other) <= CurrentNumber(UploadVersion(cat, slug), other) {
      NumberElsewhere(cat, slug, MaxOf(Numbers(cat, slug)) + 1, other);
    }
  }

  lemma CommitNewAdvances(cat: Tables, slug: Slug, owner: UserId)
    requires CatalogOk(cat) && CurrentsExist(cat) && slug !in cat.problems && SlashFree(slug)
    ensures var cat' := UploadNew(cat, slug, owner); CatalogOk(cat') && CurrentsExist(cat') && Advances(cat, cat')
  {
    UploadNewOk(cat, slug, owner);
    var cat' := UploadNew(cat, slug, owner);
    forall other | Owned(cat, other) ensures CurrentNumber(cat, other) <= CurrentNumber(cat', other) {
      assert OwnedOk(cat, other);
    }
  }

  lemma PathStaysKnown(a: Tables, b: Tables, path: string)
    requires Advances(a, b) && PathKnown(a, path)
    ensures PathKnown(b, path)
  {
    if Owned(a, SlugOf(path)) {
      var n :| 1 <= n <= CurrentNumber(a, SlugOf(path)) && path == ArtifactPath(SlugOf(path), n);
      assert 1 <= n <= CurrentNumber(b, SlugOf(path));
    }
  }

  /** The path of a number beyond the current one is nobody's yet. */
  lemma NextPathIsNew(cat: Tables, slug: Slug, n: nat, path: string)
    requires SlashFree(slug) && PathKnown(cat, path)
    requires slug !in cat.problems || (Owned(cat, slug) && n > CurrentNumber(cat, slug))
    ensures path != ArtifactPath(slug, n)
  {
    if path == ArtifactPath(slug, n) {
      SlugRecovered(slug, n);
      var m :| 1 <= m <= CurrentNumber(cat, slug) && path == ArtifactPath(slug, m);
      ArtifactPathInjective(slug, n, slug, m);
    }
  }

  /** A commit takes a path that is neither on disk nor awaited by another upload. */
  lemma CommitKeepsUploads(s: State, s': State, r: ReqId, slug: Slug, n: nat, content: Content)
    requires UploadsOk(s) && r !in s.uploads
    requires slug !in s.cat.problems || (Owned(s.cat, slug) && n > CurrentNumber(s.cat, slug))
    requires s'.disk == s.disk && s'.uploads == s.uploads[r := Committed(slug, n, content)] && Advances(s.cat, s'.cat)
    requires Owned(s'.cat, slug) && 1 <= n <= CurrentNumber(s'.cat, slug) && ArtifactPath(slug, n) !in s.disk
    ensures UploadsOk(s')
  {
    forall t | t in s.uploads && s.uploads[t].Committed?
      ensures UploadOk(s', s.uploads[t]) && !(s.uploads[t].slug == slug && s.uploads[t].number == n)
    {
      assert UploadOk(s, s.uploads[t]);
    }
  }

  lemma CommitKeepsStore(s: State, s': State, r: ReqId, slug: Slug, n: nat, content: Content)
    requires UploadsOk(s) && DiskOk(s) && Coherent(s) && PinsOk(s) && r !in s.uploads && SlashFree(slug)
    requires slug !in s.cat.problems || (Owned(s.cat, slug) && n > CurrentNumber(s.cat, slug))
    requires s' == s.(cat := s'.cat, uploads := s.uploads[r := Committed(slug, n, content)])
    requires Advances(s.cat, s'.cat) && Owned(s'.cat, slug) && 1 <= n <= CurrentNumber(s'.cat, slug)
    ensures UploadsOk(s') && DiskOk(s') && Coherent(s') && PinsOk(s') && OnlyAdds(s, s')
  {
    forall path | path in s.disk ensures PathKnown(s'.cat, path) && path != ArtifactPath(slug, n) {
      PathStaysKnown(s.cat, s'.cat, path);
      NextPathIsNew(s.cat, slug, n, path);
    }
    CommitKeepsUploads(s, s', r, slug, n, content);
  }

  lemma AddSplits(cat: Tables, slug: Slug, number: nat)
    requires PathsSplit(cat) && slug in cat.problems && SlashFree(slug)
    ensures PathsSplit(AddVersion(cat, slug, number))
  {
    SlugRecovered(slug, number);
  }

  lemma CommitNewStep(s: State, e: Event)
    requires Inv(s) && e.CommitNew? && Enabled(s, e)
    ensures Inv(Step(s, e)) && OnlyAdds(s, Step(s, e))
  {
    CommitNewAdvances(s.cat, e.slug, e.owner);
    FirstVersion(s.cat, e.slug, e.owner);
    AddSplits(s.cat.(problems := s.cat.problems[e.slug := ProblemRow(Some(e.owner), None)]), e.slug, 1);
    CommitKeepsStore(s, Step(s, e), e.r, e.slug, 1, e.content);
  }

  lemma NextVersionNumber(cat: Tables, slug: Slug)
    requires slug in cat.problems && OwnedOk(cat, slug)
    ensures MaxOf(Numbers(cat, slug)) == CurrentNumber(cat, slug)
    ensures CurrentNumber(UploadVersion(cat, slug), slug) == CurrentNumber(cat, slug) + 1
    ensures PathsSplit(cat) && SlashFree(slug) ==> PathsSplit(UploadVersion(cat, slug))
  {
    NextNumber(cat, slug);
    NumberAfterAdd(cat, slug, CurrentNumber(cat, slug) + 1);
    if PathsSplit(cat) && SlashFree(slug) {
      AddSplits(cat, slug, CurrentNumber(cat, slug) + 1);
    }
  }

  lemma CommitVersionStore(s: State, e: Event)
    requires UploadsOk(s) && DiskOk(s) && Coherent(s) && PinsOk(s) && e.CommitVersion? && Enabled(s, e)
    requires SlashFree(e.slug) && OwnedOk(s.cat, e.slug) && Advances(s.cat, UploadVersion(s.cat, e.slug))
    ensures var s' := Step(s, e); UploadsOk(s') && DiskOk(s') && Coherent(s') && PinsOk(s') && OnlyAdds(s, s')
  {
    NextVersionNumber(s.cat, e.slug);
    CommitKeepsStore(s, Step(s, e), e.r, e.slug, CurrentNumber(s.cat, e.slug) + 1, e.content);
  }

  lemma CommitVersionStep(s: State, e: Event)
    requires Inv(s) && e.CommitVersion? && Enabled(s, e)
    ensures Inv(Step(s, e)) && OnlyAdds(s, Step(s, e))
  {
    CommitVersionAdvances(s.cat, e.slug);
    CommitVersionStore(s, e);
    NextVersionNumber(s.cat, e.slug);
  }

  lemma MoveKeepsUploads(s: State, r: ReqId)
    requires CatalogOk(s.cat) && UploadsOk(s) && Enabled(s, Move(r))
    ensures UploadsOk(Step(s, Move(r)))
  {
    var s' := Step(s, Move(r));
    var u := s.uploads[r];
    assert UploadOk(s, u);
    forall t | t in s'.uploads ensures UploadOk(s', s'.uploads[t]) {
      if t != r && s.uploads[t].Committed? {
        assert UploadOk(s, s.uploads[t]);
        if PathOf(s.uploads[t]) == PathOf(u) {
          ArtifactPathInjective(s.uploads[t].slug, s.uploads[t].number, u.slug, u.number);
        }
      }
    }
  }

  /** A directory is only ever moved to a path where there is none. */
  lemma MoveStep(s: State, r: ReqId)
    requires Inv(s) && Enabled(s, Move(r))
    ensures PathOf(s.uploads[r]) !in s.disk
    ensures Inv(Step(s, Move(r))) && OnlyAdds(s, Step(s, Move(r)))
  {
    var u := s.uploads[r];
    assert UploadOk(s, u);
    SlugRecovered(u.slug, u.number);
    assert PathKnown(s.cat, PathOf(u));
    MoveKeepsUploads(s, r);
  }

  lemma PinStep(s: State, g: GameId, slugs: seq<Slug>)
    requires Inv(s) && Enabled(s, PinGame(g, slugs))
    ensures Inv(Step(s, PinGame(g, slugs))) && OnlyAdds(s, Step(s, PinGame(g, slugs)))
  {
  }

  lemma OtherSteps(s: State, e: Event)
    requires Inv(s) && Enabled(s, e)
    requires !e.CommitNew? && !e.CommitVersion? && !e.Move? && !e.PinGame?
    ensures Inv(Step(s, e)) && OnlyAdds(s, Step(s, e))
  {
  }

  lemma StepKeepsInv(s: State, e: Event)
    requires Inv(s) && Enabled(s, e)
    ensures Inv(Step(s, e)) && OnlyAdds(s, Step(s, e))
  {
    match e
    case CommitNew(_, _, _, _) => CommitNewStep(s, e);
    case CommitVersion(_, _, _) => CommitVersionStep(s, e);
    case Move(r) => MoveStep(s, r);
    case PinGame(g, slugs) => PinStep(s, g, slugs);
    case _ => OtherSteps(s, e);
  }

  lemma {:induction false} RunKeepsInv(s: State, es: seq<Event>)
    requires Inv(s) && ValidRun(s, es)
    ensures Inv(Exec(s, es)) && OnlyAdds(s, Exec(s, es))
    decreases |es|
  {
    if es != [] {
      StepKeepsInv(s, es[0]);
      RunKeepsInv(Step(s, es[0]), es[1..]);
    }
  }

  // What a freshly started server begins with: a catalog in order, directories that belong to known problems,
  // an empty cache and nothing in flight.

  ghost predicate Started(s: State) {
    && CatalogOk(s.cat) && CurrentsExist(s.cat) && PathsSplit(s.cat) && DiskOk(s) && PinsOk(s)
    && s.cache == map[] && s.uploads == map[] && s.readers == map[]
  }

  /** Every user-owned problem has the versions 1..k, each once, and k is the current one, in every run. */
  lemma VersionsAreOneToCurrent(s: State, es: seq<Event>, slug: Slug)
    requires Started(s) && ValidRun(s, es) && Owned(Exec(s, es).cat, slug)
    ensures var cat := Exec(s, es).cat;
            var k := CurrentNumber(cat, slug);
            && k >= 1 && (forall n :: n in Numbers(cat, slug) <==> 1 <= n <= k) && |Ids(cat, slug)| == k
  {
    RunKeepsInv(s, es);
    var cat := Exec(s, es).cat;
    var k := CurrentNumber(cat, slug);
    assert OwnedOk(cat, slug);
    forall n | 1 <= n <= k ensures n in Numbers(cat, slug) {
      assert HasNumber(cat, slug, n);
    }
  }

  /** Cache coherence: in every interleaving every cached problem equals a fresh load of its path, and so does
      whatever a reader is about to store or return. */
  lemma CacheAgreesWithDisk(s: State, es: seq<Event>)
    requires Started(s) && ValidRun(s, es)
    ensures var end := Exec(s, es);
            && (forall path | path in end.cache ::
                  path in end.disk && Load(path, end.disk[path]) == Some(end.cache[path]))
            && (forall q | q in end.readers && end.readers[q].Loaded? ::
                  end.readers[q].path in end.disk && Load(end.readers[q].path, end.disk[end.readers[q].path]) ==
                      Some(end.readers[q].problem))
  {
    RunKeepsInv(s, es);
  }

  /** An artifact path is written at most once: each move finds its target free, and what is there never changes. */
  lemma ArtifactsWrittenOnce(s: State, es: seq<Event>, later: seq<Event>, path: string)
    requires Started(s) && ValidRun(s, es) && ValidRun(Exec(s, es), later)
    ensures forall r | Enabled(Exec(s, es), Move(r)) :: PathOf(Exec(s, es).uploads[r]) !in Exec(s, es).disk
    ensures path in Exec(s, es).disk ==>
              path in Exec(Exec(s, es), later).disk && Exec(Exec(s, es), later).disk[path] == Exec(s, es).disk[path]
  {
    RunKeepsInv(s, es);
    RunKeepsInv(Exec(s, es), later);
    forall r | Enabled(Exec(s, es), Move(r)) ensures PathOf(Exec(s, es).uploads[r]) !in Exec(s, es).disk {
      MoveStep(Exec(s, es), r);
    }
  }

  /** Whatever is uploaded later, a game keeps its pinned versions, each version keeps its row, and the directory
      behind it, once in place, keeps its content; the row's path splits into its slug, which is what the game
      protocol asks of a pin. */
  lemma PinnedProblemsNeverChange(s: State, es: seq<Event>, later: seq<Event>, g: GameId, i: nat)
    requires Started(s) && ValidRun(s, es) && ValidRun(Exec(s, es), later)
    requires g in Exec(s, es).pins && i < |Exec(s, es).pins[g]|
    ensures var a, b := Exec(s, es), Exec(Exec(s, es), later);
            && g in b.pins && b.pins[g] == a.pins[g]
            && a.pins[g][i] in a.cat.versions && a.pins[g][i] in b.cat.versions
            && b.cat.versions[a.pins[g][i]] == a.cat.versions[a.pins[g][i]]
            && var row := a.cat.versions[a.pins[g][i]];
               && SlugOf(row.path) == row.slug
               && (row.path in a.disk ==> row.path in b.disk && b.disk[row.path] == a.disk[row.path])
  {
    RunKeepsInv(s, es);
    RunKeepsInv(Exec(s, es), later);
  }

  /** A game pins, in order, the versions that are current for its slugs when it is created, and later uploads do not
      change which ones. */
  lemma GamePinsWhatIsCurrent(s: State, es: seq<Event>, g: GameId, slugs: seq<Slug>, later: seq<Event>, i: nat)
    requires Started(s) && ValidRun(s, es) && Enabled(Exec(s, es), PinGame(g, slugs)) && i < |slugs|
    requires ValidRun(Step(Exec(s, es), PinGame(g, slugs)), later)
    ensures var was, end := Exec(s, es).cat, Exec(Step(Exec(s, es), PinGame(g, slugs)), later);
            && g in end.pins && |end.pins[g]| == |slugs| && end.pins[g][i] in end.cat.versions
            && var row := end.cat.versions[end.pins[g][i]];
               && row.slug == slugs[i] && row.number == CurrentNumber(was, slugs[i])
               && (Owned(was, slugs[i]) ==> row.path == ArtifactPath(slugs[i], row.number))
  {
    var a := Exec(s, es);
    RunKeepsInv(s, es);
    StepKeepsInv(a, PinGame(g, slugs));
    RunKeepsInv(Step(a, PinGame(g, slugs)), later);
    assert a.cat.problems[slugs[i]].current.value in Ids(a.cat, slugs[i]);
    if Owned(a.cat, slugs[i]) {
      assert OwnedOk(a.cat, slugs[i]);
    }
  }

  /** An upload commits a version that is current from then on, and it is about to move its own content to the path of
      that version. */
  lemma CommitNamesItsDirectory(s: State, es: seq<Event>, e: Event)
    requires Started(s) && ValidRun(s, es) && (e.CommitNew? || e.CommitVersion?) && Enabled(Exec(s, es), e)
    ensures var end := Step(Exec(s, es), e);
            && e.slug in end.cat.problems && end.cat.problems[e.slug].current == Some(Exec(s, es).cat.nextVersion)
            && Exec(s, es).cat.nextVersion in end.cat.versions
            && end.cat.versions[Exec(s, es).cat.nextVersion].slug == e.slug
            && e.r in end.uploads && end.uploads[e.r].Committed? && end.uploads[e.r].content == e.content
            && PathOf(end.uploads[e.r]) == end.cat.versions[Exec(s, es).cat.nextVersion].path
  {
  }

  /** Once it has moved there, everybody who loads that path gets this content, then and ever after. */
  lemma UploadIsServed(s: State, es: seq<Event>, r: ReqId, later: seq<Event>)
    requires Started(s) && ValidRun(s, es) && Enabled(Exec(s, es), Move(r))
    requires ValidRun(Step(Exec(s, es), Move(r)), later)
    ensures var u, end := Exec(s, es).uploads[r], Exec(Step(Exec(s, es), Move(r)), later);
            && PathOf(u) in end.disk && end.disk[PathOf(u)] == u.content
            && (PathOf(u) in end.cache ==> Load(PathOf(u), u.content) == Some(end.cache[PathOf(u)]))
            && (forall q | q in end.readers && end.readers[q].Loaded? && end.readers[q].path == PathOf(u) ::
                  Load(PathOf(u), u.content) == Some(end.readers[q].problem))
  {
    RunKeepsInv(s, es);
    StepKeepsInv(Exec(s, es), Move(r));
    RunKeepsInv(Step(Exec(s, es), Move(r)), later);
  }

  // Requests that nothing interrupts, and requests that do not get through

  lemma ThreeEvents(s: State, a: Event, b: Event, c: Event)
    requires Enabled(s, a) && Enabled(Step(s, a), b) && Enabled(Step(Step(s, a), b), c)
    ensures ValidRun(s, [a, b, c]) && Exec(s, [a, b, c]) == Step(Step(Step(s, a), b), c)
  {
    var s3 := Step(Step(Step(s, a), b), c);
    assert [a, b, c][1..] == [b, c] && [b, c][1..] == [c] && [c][1..] == [];
    assert ValidRun(s3, []) && Exec(s3, []) == s3;
    assert ValidRun(Step(Step(s, a), b), [c]) && Exec(Step(Step(s, a), b), [c]) == s3;
    assert ValidRun(Step(s, a), [b, c]) && Exec(Step(s, a), [b, c]) == s3;
  }

  /** A GetByPath that misses the cache and loads the directory undisturbed leaves its problem in the cache, as the
      class method does, and nothing else. */
  lemma GetByPathAlone(s: State, q: ReqId, path: string)
    requires q !in s.readers && path !in s.cache && path in s.disk && Load(path, s.disk[path]).Some?
    ensures var es := [Miss(q, path), LoadDir(q), Store(q)];
            ValidRun(s, es) && Exec(s, es) == s.(cache := s.cache[path := Load(path, s.disk[path]).value])
  {
    var s1 := Step(s, Miss(q, path));
    var s2 := Step(s1, LoadDir(q));
    ThreeEvents(s, Miss(q, path), LoadDir(q), Store(q));
    assert Step(s2, Store(q)).readers == s.readers;
  }

  /** An upload that nothing interrupts leaves its content at the path of its new version, no cache entry for it, and
      nothing of itself in flight. */
  lemma UploadAlone(s: State, e: Event)
    requires Inv(s) && e.CommitVersion? && Enabled(s, e)
    ensures var es := [e, Move(e.r), Invalidate(e.r)];
            var path := ArtifactPath(e.slug, CurrentNumber(s.cat, e.slug) + 1);
            && ValidRun(s, es) && path !in s.disk
            && Exec(s, es) == s.(cat := UploadVersion(s.cat, e.slug), disk := s.disk[path := e.content],
                                 cache := s.cache - {path})
  {
    CommitPath(s, e);
    var s1 := Step(s, e);
    var s2 := Step(s1, Move(e.r));
    ThreeEvents(s, e, Move(e.r), Invalidate(e.r));
    assert s2.uploads[e.r] == Moved(PathOf(s1.uploads[e.r]));
    assert Step(s2, Invalidate(e.r)).uploads == s.uploads;
  }

  lemma CommitPath(s: State, e: Event)
    requires Inv(s) && e.CommitVersion? && Enabled(s, e)
    ensures var path := ArtifactPath(e.slug, CurrentNumber(s.cat, e.slug) + 1);
            PathOf(Step(s, e).uploads[e.r]) == path && path !in s.disk
  {
    UploadVersionOk(s.cat, e.slug);
    NextNumber(s.cat, e.slug);
    StepKeepsInv(s, e);
    assert UploadOk(Step(s, e), Step(s, e).uploads[e.r]);
  }

  /** Whatever fails in flight leaves catalog, directories, cache and pins as they are, and a restart leads to a state
      like those that runs start in. */
  lemma FailuresLeaveNoTrace(s: State, es: seq<Event>, r: ReqId)
    requires Started(s) && ValidRun(s, es)
    ensures var a := Exec(s, es);
            && (r in a.uploads ==>
                  Enabled(a, UploadFails(r)) && Step(a, UploadFails(r)) == a.(uploads := a.uploads - {r}))
            && (r in a.readers ==>
                  Enabled(a, ReaderFails(r)) && Step(a, ReaderFails(r)) == a.(readers := a.readers - {r}))
            && Enabled(a, Restart) && Started(Step(a, Restart))
            && Step(a, Restart) == a.(cache := map[], uploads := map[], readers := map[])
  {
    RunKeepsInv(s, es);
  }
}
