/** The readiness latch (internal/executor/docker_executor.go:194-232) at the grain of its atomic operations:
    the compare-and-swap on the language's flag, the add on the counter, and the store to `ready`. Any
    number of workers may notify for a language, each at its own pace. */
module ReadinessLatch {
  import opened Common

  type Lang = nat
  type WorkerId = nat

  /** A worker inside notifyPoolPrimed: won the swap, or won it and added the last one. */
  datatype Phase = Swapped | WillStore

  datatype State = State(langs: set<Lang>, primed: set<Lang>, count: nat, ready: bool, notifying: map<WorkerId, Phase>)

  function Init(langs: set<Lang>): State {
    State(langs, {}, 0, false, map[])
  }

  datatype Event = Swap(w: WorkerId, lang: Lang) | Add(w: WorkerId) | Store(w: WorkerId)

  predicate Enabled(s: State, e: Event) {
    match e
    case Swap(w, lang) => w !in s.notifying && lang in s.langs
    case Add(w) => w in s.notifying && s.notifying[w] == Swapped
    case Store(w) => w in s.notifying && s.notifying[w] == WillStore
  }

  /** A lost swap, and an add that does not reach the number of pools, end the notification. */
  function Step(s: State, e: Event): State
    requires Enabled(s, e)
  {
    match e
    case Swap(w, lang) =>
      if lang in s.primed then s
      else s.(primed := s.primed + {lang}, notifying := s.notifying[w := Swapped])
    case Add(w) =>
      var s' := s.(count := s.count + 1);
      if s'.count == |s.langs| then s'.(notifying := s.notifying[w := WillStore])
      else s'.(notifying := s.notifying - {w})
    case Store(w) => s.(ready := true, notifying := s.notifying - {w})
  }

  predicate IsReady(s: State) {
    |s.langs| > 0 && s.ready
  }

  predicate ValidRun(s: State, es: seq<Event>)
    decreases |es|
  {
    es == [] || (Enabled(s, es[0]) && ValidRun(Step(s, es[0]), es[1..]))
  }

  function Exec(s: State, es: seq<Event>): State
    requires ValidRun(s, es)
    decreases |es|
  {
    if es == [] then s else Exec(Step(s, es[0]), es[1..])
  }

  /** The workers between their swap and their add. */
  function Between(s: State): set<WorkerId> {
    set w | w in s.notifying && s.notifying[w] == Swapped
  }

  ghost predicate Inv(s: State) {
    && s.primed <= s.langs
    && s.count + |Between(s)| == |s.primed|
    && (forall w | w in s.notifying && s.notifying[w] == WillStore :: s.count == |s.langs|)
    && (s.ready ==> s.count == |s.langs|)
    && (s.count == |s.langs| && s.langs != {} ==> s.ready || exists w ::
          w in s.notifying && s.notifying[w] == WillStore)
  }

  lemma SwapKeepsInv(s: State, w: WorkerId, lang: Lang)
    requires Inv(s) && Enabled(s, Swap(w, lang))
    ensures Inv(Step(s, Swap(w, lang)))
  {
    var s' := Step(s, Swap(w, lang));
    if lang !in s.primed {
      assert Between(s') == Between(s) + {w};
      assert s.count < |s.langs| by {
        Subset(s'.primed, s.langs);
        assert |s'.primed| == |s.primed| + 1;
      }
    }
  }

  lemma AddKeepsInv(s: State, w: WorkerId)
    requires Inv(s) && Enabled(s, Add(w))
    ensures Inv(Step(s, Add(w)))
  {
    var s' := Step(s, Add(w));
    assert w in Between(s);
    Subset(s.primed, s.langs);
    assert Between(s') == Between(s) - {w};
    assert s.count < |s.langs|;
    if s'.count == |s.langs| {
      assert w in s'.notifying && s'.notifying[w] == WillStore;
    }
  }

  lemma StepKeepsInv(s: State, e: Event)
    requires Inv(s) && Enabled(s, e)
    ensures Inv(Step(s, e))
  {
    match e
    case Swap(w, lang) => SwapKeepsInv(s, w, lang);
    case Add(w) => AddKeepsInv(s, w);
    case Store(w) => assert Between(Step(s, e)) == Between(s);
  }

  lemma {:induction false} RunKeepsInv(s: State, es: seq<Event>)
    requires Inv(s) && ValidRun(s, es)
    ensures Inv(Exec(s, es)) && Exec(s, es).langs == s.langs
    ensures s.ready ==> Exec(s, es).ready
    ensures s.primed <= Exec(s, es).primed
    decreases |es|
  {
    if es != [] {
      StepKeepsInv(s, es[0]);
      RunKeepsInv(Step(s, es[0]), es[1..]);
    }
  }

  /** Over every run: the count plus the workers between swap and add is the number of primed languages, and
      ready implies that every language is primed. */
  lemma CountsPrimedLanguages(langs: set<Lang>, es: seq<Event>)
    requires ValidRun(Init(langs), es)
    ensures var s := Exec(Init(langs), es);
            && s.count + |Between(s)| == |s.primed|
            && (IsReady(s) ==> s.primed == langs)
  {
    StartsGood(langs);
    RunKeepsInv(Init(langs), es);
    var s := Exec(Init(langs), es);
    Subset(s.primed, s.langs);
  }

  lemma StartsGood(langs: set<Lang>)
    ensures Inv(Init(langs))
  {
    assert Between(Init(langs)) == {};
    if |langs| == 0 {
      assert langs == {};
    }
  }

  /** Once every language is primed and no notification is in progress, the executor is ready, and it is
      ready ever after. */
  lemma ReadyForever(langs: set<Lang>, es: seq<Event>, later: seq<Event>)
    requires ValidRun(Init(langs), es) && ValidRun(Exec(Init(langs), es), later) && langs != {}
    requires Exec(Init(langs), es).primed == langs && Exec(Init(langs), es).notifying == map[]
    ensures IsReady(Exec(Init(langs), es)) && IsReady(Exec(Exec(Init(langs), es), later))
  {
    StartsGood(langs);
    RunKeepsInv(Init(langs), es);
    var s := Exec(Init(langs), es);
    assert Between(s) == {};
    RunKeepsInv(s, later);
  }

  lemma {:induction false} EndNotifications(s: State) returns (es: seq<Event>)
    ensures ValidRun(s, es) && Exec(s, es).notifying == map[]
    ensures Exec(s, es).primed == s.primed && Exec(s, es).langs == s.langs
    decreases |Between(s)| + |s.notifying|
  {
    if s.notifying == map[] {
      es := [];
    } else {
      var w :| w in s.notifying;
      var e := if s.notifying[w] == Swapped then Add(w) else Store(w);
      var s' := Step(s, e);
      if s.notifying[w] == Swapped {
        assert Between(s') == Between(s) - {w} && w in Between(s);
        assert s'.notifying.Keys <= s.notifying.Keys;
        Subset(s'.notifying.Keys, s.notifying.Keys);
      } else {
        assert Between(s') == Between(s);
        assert s'.notifying.Keys == s.notifying.Keys - {w};
      }
      var rest := EndNotifications(s');
      es := [e] + rest;
      assert es[1..] == rest;
    }
  }

  /** From every reachable state in which all languages are primed the notifications in progress can end without any
      further swap, and then the executor is ready. */
  lemma ReadyInTheEnd(langs: set<Lang>, es: seq<Event>)
    requires ValidRun(Init(langs), es) && langs != {} && Exec(Init(langs), es).primed == langs
    ensures var s := Exec(Init(langs), es);
            exists later :: ValidRun(s, later) && Exec(s, later).notifying == map[] && IsReady(Exec(s, later))
  {
    StartsGood(langs);
    RunKeepsInv(Init(langs), es);
    var s := Exec(Init(langs), es);
    var later := EndNotifications(s);
    RunKeepsInv(s, later);
    assert Between(Exec(s, later)) == {};
  }
}
