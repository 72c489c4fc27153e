/** Remote autocomplete (app/composables/useRemoteSearch.ts): a term and its pages, fetched by
    overlapping requests of which only the newest may write. */
module RemoteSearch {
  import opened Outcome

  // ---- Pages (app/utils/remoteSearch.ts)

  /** A fetched page; each of the last three may be absent. */
  datatype Page<T> = Page(items: seq<T>, total: Option<int>, hasMore: Option<bool>, nextOffset: Option<int>)

  predicate IsQueryReady(term: string, minChars: int)
  {
    term == "" || minChars <= 0 || |term| >= minChars
  }

  function ResolveHasMore<T>(loaded: nat, page: Page<T>): bool
  {
    if page.hasMore.Some? then page.hasMore.value
    else if page.total.Some? then loaded < page.total.value
    else false
  }

  /** A term is searched for when it is empty or long enough. */
  lemma ReadyExactly(term: string, minChars: int)
    ensures IsQueryReady(term, minChars) <==> |term| == 0 || |term| >= minChars
  {
  }

  /** The flag decides where there is one; without it the total does; without either nothing more is
      expected. */
  lemma MoreExactly<T>(loaded: nat, page: Page<T>)
    ensures page.hasMore == Some(true) ==> ResolveHasMore(loaded, page)
    ensures page.hasMore == Some(false) ==> !ResolveHasMore(loaded, page)
    ensures page.hasMore == None && page.total.Some? ==> (ResolveHasMore(loaded, page) <==> page.total.value - loaded > 0)
    ensures page.hasMore == None && page.total == None ==> !ResolveHasMore(loaded, page)
  {
  }

  ghost predicate DistinctKeys<T>(items: seq<T>, keyOf: T -> string)
  {
    forall i, j :: 0 <= i < j < |items| ==> keyOf(items[i]) != keyOf(items[j])
  }

  predicate HasKey<T>(items: seq<T>, keyOf: T -> string, key: string)
  {
    exists k :: 0 <= k < |items| && keyOf(items[k]) == key
  }

  /** Appends each incoming item whose key has not been seen. */
  function Merged<T>(existing: seq<T>, incoming: seq<T>, keyOf: T -> string): seq<T>
    decreases incoming
  {
    if incoming == [] then existing
    else
      Merged(if HasKey(existing, keyOf, keyOf(incoming[0])) then existing else existing + [incoming[0]], incoming[1..], keyOf)
  }

  method MergePages<T>(existing: seq<T>, incoming: seq<T>, keyOf: T -> string) returns (merged: seq<T>)
    ensures merged == Merged(existing, incoming, keyOf)
  {
    var seen := set k | 0 <= k < |existing| :: keyOf(existing[k]);
    merged := existing;
    for i := 0 to |incoming|
      invariant forall key :: key in seen <==> HasKey(merged, keyOf, key)
      invariant Merged(existing, incoming, keyOf) == Merged(merged, incoming[i..], keyOf)
    {
      var key := keyOf(incoming[i]);
      if key !in seen {
        ghost var was := merged;
        seen := seen + {key};
        merged := merged + [incoming[i]];
        KeysAfter(was, incoming[i], keyOf);
      }
    }
  }

  lemma KeysAfter<T>(items: seq<T>, item: T, keyOf: T -> string)
    ensures forall key :: HasKey(items + [item], keyOf, key) <==> HasKey(items, keyOf, key) || key == keyOf(item)
  {
    forall key | HasKey(items, keyOf, key) || key == keyOf(item) ensures HasKey(items + [item], keyOf, key) {
      if HasKey(items, keyOf, key) {
        var k :| 0 <= k < |items| && keyOf(items[k]) == key;
        assert (items + [item])[k] == items[k];
      } else {
        assert (items + [item])[|items|] == item;
      }
    }
  }

  /** Merging keeps the list it had in front, adds only incoming items, misses no incoming key, and
      repeats none. */
  lemma {:induction false} MergedExactly<T>(existing: seq<T>, incoming: seq<T>, keyOf: T -> string)
    ensures existing <= Merged(existing, incoming, keyOf)
    ensures forall item :: item in Merged(existing, incoming, keyOf) ==> item in existing || item in incoming
    ensures forall key :: HasKey(Merged(existing, incoming, keyOf), keyOf, key) <==>
                          HasKey(existing, keyOf, key) || HasKey(incoming, keyOf, key)
    ensures DistinctKeys(existing, keyOf) ==> DistinctKeys(Merged(existing, incoming, keyOf), keyOf)
    decreases incoming
  {
    if incoming != [] {
      var item, rest := incoming[0], incoming[1..];
      var next := if HasKey(existing, keyOf, keyOf(item)) then existing else existing + [item];
      MergedExactly(next, rest, keyOf);
      KeysAfter(existing, item, keyOf);
      FirstKey(incoming, keyOf);
    }
  }

  lemma FirstKey<T>(items: seq<T>, keyOf: T -> string)
    requires items != []
    ensures forall key :: HasKey(items, keyOf, key) <==> key == keyOf(items[0]) || HasKey(items[1..], keyOf, key)
  {
    forall key | HasKey(items[1..], keyOf, key) ensures HasKey(items, keyOf, key) {
      var k :| 0 <= k < |items[1..]| && keyOf(items[1..][k]) == key;
      assert items[k + 1] == items[1..][k];
    }
    forall key | HasKey(items, keyOf, key) && key != keyOf(items[0]) ensures HasKey(items[1..], keyOf, key) {
      var k :| 0 <= k < |items| && keyOf(items[k]) == key;
      assert items[1..][k - 1] == items[k];
    }
  }

  // ---- The controller's state

  /** A request on its way: the run it belongs to and what it asked. */
  datatype Flight = Flight(token: nat, term: string, offset: int)

  /** `inFlight` is the run whose request would be aborted next; `aborted` are the runs whose signal has
      been raised; `flying` are the requests not answered yet. */
  datatype State<T> = State(term: string, runToken: nat, inFlight: Option<nat>, nextCursor: int, items: seq<T>, more: bool,
                            loading: bool, error: Option<string>, flying: multiset<Flight>, aborted: set<nat>)

  /** A term change restarts the search in the same step. An answer is a page, an error, or the abort
      its signal asked for. */
  datatype Event<T> =
    | TermChanged(term: string)
    | Refresh
    | LoadMore
    | Answered(flight: Flight, page: Page<T>)
    | Failed(flight: Flight, message: string)
    | AbortSeen(flight: Flight)
    | Disposed

  function Raised<T>(s: State<T>): set<nat>
  {
    if s.inFlight.Some? then s.aborted + {s.inFlight.value} else s.aborted
  }

  function Start<T>(s: State<T>, term: string, offset: int, minChars: int): State<T>
  {
    var token := s.runToken + 1;
    if !IsQueryReady(term, minChars) then
      s.(aborted := Raised(s), inFlight := None, runToken := token, items := [], more := false, nextCursor := 0,
         loading := false, error := None)
    else
      s.(aborted := Raised(s), inFlight := Some(token), runToken := token, loading := true, error := None,
         flying := s.flying + multiset{Flight(token, term, offset)})
  }

  function Shown<T>(s: State<T>, offset: int, page: Page<T>, keyOf: T -> string): State<T>
  {
    var items := if offset == 0 then page.items else Merged(s.items, page.items, keyOf);
    s.(items := items,
       more := if offset > 0 && |items| == |s.items| then false else ResolveHasMore(|items|, page),
       nextCursor := if page.nextOffset.Some? then page.nextOffset.value else |items|,
       loading := false)
  }

  function NotShown<T>(s: State<T>, offset: int, message: string): State<T>
  {
    var t := s.(error := Some(if message == "" then "Ошибка поиска" else message), loading := false);
    if offset == 0 then t.(items := [], more := false) else t
  }

  function Landed<T>(s: State<T>, flight: Flight): State<T>
  {
    s.(flying := s.flying - multiset{flight})
  }

  function Step<T>(s: State<T>, e: Event<T>, minChars: int, keyOf: T -> string): State<T>
  {
    match e
    case TermChanged(term) => Start(s.(term := term), term, 0, minChars)
    case Refresh => Start(s, s.term, 0, minChars)
    case LoadMore => if s.loading || !s.more then s else Start(s, s.term, s.nextCursor, minChars)
    case Answered(flight, page) =>
      var t := Landed(s, flight);
      if flight.token != s.runToken then t else Shown(t, flight.offset, page, keyOf)
    case Failed(flight, message) =>
      var t := Landed(s, flight);
      if flight.token != s.runToken then t else NotShown(t, flight.offset, message)
    case AbortSeen(flight) =>
      var t := Landed(s, flight);
      if flight.token != s.runToken then t else t.(loading := false)
    case Disposed => s.(aborted := Raised(s))
  }

  function Initial<T>(): State<T>
  {
    State("", 0, None, 0, [], false, false, None, multiset{}, {})
  }

  predicate Enabled<T>(s: State<T>, e: Event<T>)
  {
    match e
    case Answered(flight, _) => flight in s.flying
    case Failed(flight, _) => flight in s.flying
    case AbortSeen(flight) => flight in s.flying && flight.token in s.aborted
    case _ => true
  }

  // ---- The controller itself

  class Search<T> {
    const minChars: int
    const keyOf: T -> string
    var term: string
    var runToken: nat
    var inFlight: Option<nat>
    var nextCursor: int
    var items: seq<T>
    var more: bool
    var loading: bool
    var error: Option<string>
    var flying: multiset<Flight>
    var aborted: set<nat>

    constructor (minChars: int, keyOf: T -> string)
      ensures View() == Initial() && this.minChars == minChars && this.keyOf == keyOf
    {
      this.minChars, this.keyOf := minChars, keyOf;
      term, runToken, inFlight, nextCursor, items := "", 0, None, 0, [];
      more, loading, error, flying, aborted := false, false, None, multiset{}, {};
    }

    function View(): State<T>
      reads this
    {
      State(term, runToken, inFlight, nextCursor, items, more, loading, error, flying, aborted)
    }

    method AbortInFlight()
      modifies this`aborted
      ensures aborted == Raised(old(View()))
    {
      if inFlight.Some? {
        aborted := aborted + {inFlight.value};
      }
    }

    /** A run up to the point where it waits for its page. */
    method Run(query: string, offset: int)
      modifies this
      ensures View() == Start(old(View()), query, offset, minChars)
    {
      hide IsQueryReady;
      if !IsQueryReady(query, minChars) {
        Clear();
      } else {
        Launch(query, offset);
      }
    }

    method Clear()
      modifies this
      ensures View() == old(View()).(aborted := Raised(old(View())), inFlight := None, runToken := old(runToken) + 1, items := [],
                                     more := false, nextCursor := 0, loading := false, error := None)
    {
      AbortInFlight();
      inFlight, runToken := None, runToken + 1;
      items, more, nextCursor, loading, error := [], false, 0, false, None;
    }

    method Launch(query: string, offset: int)
      modifies this
      ensures View() == old(View()).(aborted := Raised(old(View())), inFlight := Some(old(runToken) + 1),
                                     runToken := old(runToken) + 1, loading := true, error := None,
                                     flying := old(flying) + multiset{Flight(old(runToken) + 1, query, offset)})
    {
      var token := runToken + 1;
      AbortInFlight();
      runToken, inFlight := token, Some(token);
      loading, error := true, None;
      flying := flying + multiset{Flight(token, query, offset)};
    }

    /** The rest of a run, once its page is there. */
    method Answer(flight: Flight, page: Page<T>)
      requires flight in flying
      modifies this
      ensures View() == Step(old(View()), Answered(flight, page), minChars, keyOf)
    {
      hide Shown;
      flying := flying - multiset{flight};
      if flight.token == runToken {
        Show(flight.offset, page);
      }
    }

    method Show(offset: int, page: Page<T>)
      modifies this
      ensures View() == Shown(old(View()), offset, page, keyOf)
    {
      hide Merged, ResolveHasMore;
      var before, shown := |items|, page.items;
      if offset != 0 {
        shown := MergePages(items, page.items, keyOf);
      }
      items := shown;
      more := if offset > 0 && |shown| == before then false else ResolveHasMore(|shown|, page);
      nextCursor := if page.nextOffset.Some? then page.nextOffset.value else |shown|;
      loading := false;
    }

    /** The rest of a run whose request failed or was aborted. */
    method Fail(flight: Flight, abort: bool, message: string)
      requires flight in flying
      modifies this
      ensures View() == Step(old(View()), if abort then AbortSeen(flight) else Failed(flight, message), minChars, keyOf)
    {
      hide NotShown;
      flying := flying - multiset{flight};
      if flight.token != runToken {
        return;
      }
      if abort {
        loading := false;
      } else {
        ReportError(flight.offset, message);
      }
    }

    method ReportError(offset: int, message: string)
      modifies this
      ensures View() == NotShown(old(View()), offset, message)
    {
      error := Some(if message == "" then "Ошибка поиска" else message);
      if offset == 0 {
        items, more := [], false;
      }
      loading := false;
    }

    method ChangeTerm(query: string)
      modifies this
      ensures View() == Step(old(View()), TermChanged(query), minChars, keyOf)
    {
      term := query;
      Run(query, 0);
    }

    method Refetch()
      modifies this
      ensures View() == Step(old(View()), Refresh, minChars, keyOf)
    {
      Run(term, 0);
    }

    method LoadNext()
      modifies this
      ensures View() == Step(old(View()), LoadMore, minChars, keyOf)
    {
      if !loading && more {
        Run(term, nextCursor);
      }
    }

    method Dispose()
      modifies this
      ensures View() == Step(old(View()), Disposed, minChars, keyOf)
    {
      AbortInFlight();
    }
  }

  // ---- What every step keeps

  /** Tokens of flights never exceed the newest run's, and each run has at most one flight. */
  ghost predicate TokensOrdered<T>(s: State<T>)
  {
    && (forall f :: f in s.flying ==> f.token <= s.runToken && s.flying[f] == 1)
    && (forall f, g :: f in s.flying && g in s.flying && f.token == g.token ==> f == g)
    && (s.inFlight.Some? ==> s.inFlight.value <= s.runToken)
    && (forall t :: t in s.aborted ==> t <= s.runToken)
  }

  ghost predicate NewestFlying<T>(s: State<T>)
  {
    exists f :: f in s.flying && f.token == s.runToken
  }

  /** Loading exactly while the newest run's request is on its way. */
  ghost predicate LoadingExact<T>(s: State<T>)
  {
    s.loading <==> NewestFlying(s)
  }

  ghost predicate Sound<T>(s: State<T>)
  {
    TokensOrdered(s) && LoadingExact(s)
  }

  lemma StartKeeps<T>(s: State<T>, term: string, offset: int, minChars: int)
    requires TokensOrdered(s)
    ensures Sound(Start(s, term, offset, minChars))
  {
    hide IsQueryReady;
    var t := Start(s, term, offset, minChars);
    var f := Flight(t.runToken, term, offset);
    assert IsQueryReady(term, minChars) ==> f in t.flying;
    forall g | g in t.flying ensures g in s.flying || g == f {
    }
  }

  lemma LandedKeeps<T>(s: State<T>, flight: Flight)
    requires TokensOrdered(s) && flight in s.flying
    ensures TokensOrdered(Landed(s, flight))
    ensures flight.token == s.runToken ==> !NewestFlying(Landed(s, flight))
    ensures flight.token != s.runToken ==> (NewestFlying(Landed(s, flight)) <==> NewestFlying(s))
  {
    var t := Landed(s, flight);
    forall f | f in t.flying ensures f in s.flying && f != flight {
    }
    forall f | f in s.flying && f != flight ensures f in t.flying {
    }
  }

  /** In every interleaving of term changes, load-more, refresh, answers, errors, aborts and disposal,
      `loading` holds exactly while the newest run is on its way. */
  lemma StepKeepsSound<T>(s: State<T>, e: Event<T>, minChars: int, keyOf: T -> string)
    requires Sound(s) && Enabled(s, e)
    ensures Sound(Step(s, e, minChars, keyOf))
  {
    hide Start, Shown, Merged, ResolveHasMore, Landed;
    match e
    case TermChanged(term) => StartKeeps(s.(term := term), term, 0, minChars);
    case Refresh => StartKeeps(s, s.term, 0, minChars);
    case LoadMore => StartKeeps(s, s.term, s.nextCursor, minChars);
    case Answered(flight, page) => AnswerKeeps(s, flight, e, minChars, keyOf);
    case Failed(flight, _) => AnswerKeeps(s, flight, e, minChars, keyOf);
    case AbortSeen(flight) => AnswerKeeps(s, flight, e, minChars, keyOf);
    case Disposed =>
  }

  predicate Answers<T>(e: Event<T>, flight: Flight)
  {
    match e
    case Answered(f, _) => f == flight
    case Failed(f, _) => f == flight
    case AbortSeen(f) => f == flight
    case _ => false
  }

  /** What an answer of any kind does to the control state, and a stale one to everything. */
  lemma LandingFacts<T>(s: State<T>, e: Event<T>, flight: Flight, minChars: int, keyOf: T -> string)
    requires Answers(e, flight)
    ensures var t := Step(s, e, minChars, keyOf);
            && t.flying == s.flying - multiset{flight} && t.term == s.term && t.runToken == s.runToken
            && t.inFlight == s.inFlight && t.aborted == s.aborted
            && (flight.token == s.runToken ==> !t.loading)
            && (flight.token != s.runToken ==> t.items == s.items && t.loading == s.loading)
  {
    hide Merged, ResolveHasMore, Start;
  }

  lemma LandedItems<T>(s: State<T>, e: Event<T>, flight: Flight, minChars: int, keyOf: T -> string)
    requires Answers(e, flight) && flight.token == s.runToken
    ensures Step(s, e, minChars, keyOf).items ==
            if e.Answered? then if flight.offset == 0 then e.page.items else Merged(s.items, e.page.items, keyOf)
            else if e.Failed? && flight.offset == 0 then []
            else s.items
  {
    hide Merged, ResolveHasMore, Start;
  }

  lemma AnswerKeeps<T>(s: State<T>, flight: Flight, e: Event<T>, minChars: int, keyOf: T -> string)
    requires Sound(s) && flight in s.flying && Answers(e, flight)
    ensures Sound(Step(s, e, minChars, keyOf))
  {
    hide Step;
    LandedKeeps(s, flight);
    LandingFacts(s, e, flight, minChars, keyOf);
  }

  /** What the user sees. */
  datatype View<T> = View(items: seq<T>, more: bool, loading: bool, error: Option<string>, nextCursor: int)

  function Seen<T>(s: State<T>): View<T>
  {
    View(s.items, s.more, s.loading, s.error, s.nextCursor)
  }

  ghost function Run<T>(s: State<T>, events: seq<Event<T>>, minChars: int, keyOf: T -> string): State<T>
  {
    if events == [] then s
    else
      var n := |events| - 1;
      Step(Run(s, events[..n], minChars, keyOf), events[n], minChars, keyOf)
  }

  /** The event is the answer, error or abort of a run that is no longer the newest. */
  predicate Stale<T>(s: State<T>, e: Event<T>)
  {
    match e
    case Answered(flight, _) => flight.token != s.runToken
    case Failed(flight, _) => flight.token != s.runToken
    case AbortSeen(flight) => flight.token != s.runToken
    case _ => false
  }

  /** The same events without the stale ones. */
  ghost function WithoutStale<T>(s: State<T>, events: seq<Event<T>>, minChars: int, keyOf: T -> string): seq<Event<T>>
  {
    if events == [] then []
    else
      var front, last := events[..|events| - 1], events[|events| - 1];
      WithoutStale(s, front, minChars, keyOf) + if Stale(Run(s, front, minChars, keyOf), last) then [] else [last]
  }

  /** Two states that differ at most in what is still flying. */
  ghost predicate Alike<T>(s: State<T>, t: State<T>)
  {
    s.(flying := t.flying) == t
  }

  lemma AlikeStart<T>(s: State<T>, t: State<T>, term: string, offset: int, minChars: int)
    requires Alike(s, t)
    ensures Alike(Start(s, term, offset, minChars), Start(t, term, offset, minChars))
  {
    hide IsQueryReady;
  }

  lemma AlikeLanding<T>(s: State<T>, t: State<T>, offset: int, page: Page<T>, message: string, keyOf: T -> string)
    requires Alike(s, t)
    ensures Alike(Shown(s, offset, page, keyOf), Shown(t, offset, page, keyOf))
    ensures Alike(NotShown(s, offset, message), NotShown(t, offset, message))
  {
    hide Merged, ResolveHasMore;
  }

  lemma AlikeSteps<T>(s: State<T>, t: State<T>, e: Event<T>, minChars: int, keyOf: T -> string)
    requires Alike(s, t)
    ensures Alike(Step(s, e, minChars, keyOf), Step(t, e, minChars, keyOf))
    ensures Stale(s, e) ==> Alike(Step(s, e, minChars, keyOf), t)
  {
    hide Start, Shown, NotShown;
    match e
    case TermChanged(term) => AlikeStart(s.(term := term), t.(term := term), term, 0, minChars);
    case Refresh => AlikeStart(s, t, s.term, 0, minChars);
    case LoadMore => AlikeStart(s, t, s.term, s.nextCursor, minChars);
    case Answered(flight, page) => AlikeLanding(Landed(s, flight), Landed(t, flight), flight.offset, page, "", keyOf);
    case Failed(flight, message) =>
      AlikeLanding(Landed(s, flight), Landed(t, flight), flight.offset, Page([], None, None, None), message, keyOf);
    case _ =>
  }

  /** Only the newest run writes: dropping every stale answer from any run leaves everything but the
      requests in flight exactly as it was. */
  lemma {:induction false} OnlyNewestWrites<T>(s: State<T>, events: seq<Event<T>>, minChars: int, keyOf: T -> string)
    ensures Alike(Run(s, events, minChars, keyOf), Run(s, WithoutStale(s, events, minChars, keyOf), minChars, keyOf))
  {
    hide Step, Stale;
    if events != [] {
      var front, last := events[..|events| - 1], events[|events| - 1];
      var kept := WithoutStale(s, front, minChars, keyOf);
      OnlyNewestWrites(s, front, minChars, keyOf);
      AlikeSteps(Run(s, front, minChars, keyOf), Run(s, kept, minChars, keyOf), last, minChars, keyOf);
      if Stale(Run(s, front, minChars, keyOf), last) {
        assert WithoutStale(s, events, minChars, keyOf) == kept;
      } else {
        assert (kept + [last])[..|kept|] == kept;
        assert WithoutStale(s, events, minChars, keyOf) == kept + [last];
      }
    }
  }

  // ---- One term, no repeats

  ghost predicate AllOf<T(!new)>(items: seq<T>, term: string, belongs: (string, T) -> bool)
  {
    forall item :: item in items ==> belongs(term, item)
  }

  /** The server answers a term with its own rows. */
  ghost predicate Honest<T(!new)>(e: Event<T>, belongs: (string, T) -> bool)
  {
    e.Answered? ==> AllOf(e.page.items, e.flight.term, belongs)
  }

  /** The newest request asks for the current term; the list holds one term, the current one unless a
      fresh search is under way. */
  ghost predicate OneTerm<T(!new)>(s: State<T>, belongs: (string, T) -> bool)
  {
    && (forall f :: f in s.flying && f.token == s.runToken ==> f.term == s.term)
    && (exists term :: AllOf(s.items, term, belongs))
    && (!s.loading || (exists f :: f in s.flying && f.token == s.runToken && f.offset != 0) ==> AllOf(s.items, s.term, belongs))
  }

  /** The newest search is aborted before its first page came, and the list is another term's. */
  ghost predicate LosesTerm<T(!new)>(s: State<T>, e: Event<T>, belongs: (string, T) -> bool)
  {
    e.AbortSeen? && e.flight.token == s.runToken && e.flight.offset == 0 && !AllOf(s.items, s.term, belongs)
  }

  lemma StartOneTerm<T(!new)>(s: State<T>, term: string, offset: int, minChars: int, belongs: (string, T) -> bool)
    requires TokensOrdered(s) && s.term == term && exists t :: AllOf(s.items, t, belongs)
    requires offset != 0 ==> AllOf(s.items, term, belongs)
    ensures OneTerm(Start(s, term, offset, minChars), belongs)
  {
    hide IsQueryReady;
    var t := Start(s, term, offset, minChars);
    assert !IsQueryReady(term, minChars) ==> AllOf(t.items, term, belongs);
    forall f | f in t.flying && f.token == t.runToken ensures f == Flight(t.runToken, term, offset) {
    }
  }

  /** A step keeps the list to one term exactly when it is not the abort of a first page under another
      term's list; only an abort of the newest run can be, which only disposal asks for. */
  lemma OneTermExactly<T(!new)>(s: State<T>, e: Event<T>, minChars: int, keyOf: T -> string, belongs: (string, T) -> bool)
    requires Sound(s) && OneTerm(s, belongs) && Enabled(s, e) && Honest(e, belongs)
    ensures OneTerm(Step(s, e, minChars, keyOf), belongs) <==> !LosesTerm(s, e, belongs)
  {
    hide Start, IsQueryReady, Landed, Shown, NotShown;
    match e
    case TermChanged(term) =>
      hide OneTerm, TokensOrdered;
      OneTermParts(s, belongs);
      TermOnly(s, term);
      StartOneTerm(s.(term := term), term, 0, minChars, belongs);
    case Refresh =>
      hide OneTerm, TokensOrdered;
      OneTermParts(s, belongs);
      StartOneTerm(s, s.term, 0, minChars, belongs);
    case LoadMore =>
      hide OneTerm, TokensOrdered;
      OneTermParts(s, belongs);
      if !s.loading && s.more {
        StartOneTerm(s, s.term, s.nextCursor, minChars, belongs);
      }
    case Answered(flight, _) => LandOneTerm(s, e, flight, minChars, keyOf, belongs);
    case Failed(flight, _) => LandOneTerm(s, e, flight, minChars, keyOf, belongs);
    case AbortSeen(flight) => LandOneTerm(s, e, flight, minChars, keyOf, belongs);
    case Disposed =>
  }

  lemma TermOnly<T>(s: State<T>, term: string)
    requires TokensOrdered(s)
    ensures TokensOrdered(s.(term := term))
  {
  }

  lemma OneTermParts<T(!new)>(s: State<T>, belongs: (string, T) -> bool)
    requires OneTerm(s, belongs)
    ensures exists t :: AllOf(s.items, t, belongs)
    ensures !s.loading ==> AllOf(s.items, s.term, belongs)
  {
  }

  lemma LandOneTerm<T(!new)>(s: State<T>, e: Event<T>, flight: Flight, minChars: int, keyOf: T -> string, belongs: (string, T) -> bool)
    requires Sound(s) && OneTerm(s, belongs) && flight in s.flying && Answers(e, flight) && Honest(e, belongs)
    ensures OneTerm(Step(s, e, minChars, keyOf), belongs) <==> !LosesTerm(s, e, belongs)
  {
    hide Step, Merged;
    var t := Step(s, e, minChars, keyOf);
    LandingFacts(s, e, flight, minChars, keyOf);
    forall f | f in t.flying ensures f in s.flying {
    }
    if flight.token == s.runToken {
      LandedKeeps(s, flight);
      LandedItems(s, e, flight, minChars, keyOf);
      if e.Answered? {
        MergedBelongs(s.items, e.page.items, s.term, keyOf, belongs);
      }
    } else {
      forall f | f in s.flying && f.token == s.runToken ensures f in t.flying {
      }
    }
  }

  lemma MergedBelongs<T(!new)>(existing: seq<T>, incoming: seq<T>, term: string, keyOf: T -> string, belongs: (string, T) -> bool)
    requires AllOf(incoming, term, belongs)
    ensures AllOf(existing, term, belongs) ==> AllOf(Merged(existing, incoming, keyOf), term, belongs)
  {
    MergedExactly(existing, incoming, keyOf);
  }

  /** The answer is a first page of the newest run: it takes the place of the list as it is. */
  predicate ShowsFirst<T>(s: State<T>, e: Event<T>)
  {
    e.Answered? && e.flight.token == s.runToken && e.flight.offset == 0
  }

  /** The list is emptied: a first page failed, or the term to search for is too short. */
  predicate Clears<T>(s: State<T>, e: Event<T>, minChars: int)
  {
    match e
    case TermChanged(term) => !IsQueryReady(term, minChars)
    case Refresh => !IsQueryReady(s.term, minChars)
    case LoadMore => !s.loading && s.more && !IsQueryReady(s.term, minChars)
    case Failed(flight, _) => flight.token == s.runToken && flight.offset == 0
    case _ => false
  }

  lemma MergedDistinct<T>(existing: seq<T>, incoming: seq<T>, keyOf: T -> string)
    ensures DistinctKeys(Merged(existing, incoming, keyOf), keyOf) <==> DistinctKeys(existing, keyOf)
  {
    hide Merged;
    MergedExactly(existing, incoming, keyOf);
    var merged := Merged(existing, incoming, keyOf);
    assert forall k :: 0 <= k < |existing| ==> merged[k] == existing[k];
  }

  /** After a step no key is repeated exactly when the list was emptied, or the first page now shown
      repeats none, or there is no such page and the list repeated none before. */
  lemma DistinctExactly<T>(s: State<T>, e: Event<T>, minChars: int, keyOf: T -> string)
    ensures DistinctKeys(Step(s, e, minChars, keyOf).items, keyOf) <==>
            Clears(s, e, minChars) || DistinctKeys(if ShowsFirst(s, e) then e.page.items else s.items, keyOf)
  {
    hide IsQueryReady, Merged, ResolveHasMore, DistinctKeys;
    NoKeys(keyOf);
    if e.Answered? {
      MergedDistinct(s.items, e.page.items, keyOf);
    }
  }

  lemma NoKeys<T>(keyOf: T -> string)
    ensures DistinctKeys([], keyOf)
  {
  }

  ghost predicate AllEnabled<T(!new)>(s: State<T>, events: seq<Event<T>>, minChars: int, keyOf: T -> string, belongs: (string, T) -> bool)
  {
    events == []
    || (AllEnabled(s, events[..|events| - 1], minChars, keyOf, belongs)
        && Enabled(Run(s, events[..|events| - 1], minChars, keyOf), events[|events| - 1])
        && Honest(events[|events| - 1], belongs))
  }

  ghost predicate Undisposed<T>(events: seq<Event<T>>)
  {
    forall k :: 0 <= k < |events| ==> !events[k].Disposed?
  }

  /** At every moment of the run. */
  ghost predicate AlwaysOneTerm<T(!new)>(s: State<T>, events: seq<Event<T>>, minChars: int, keyOf: T -> string, belongs: (string, T) -> bool)
  {
    && OneTerm(Run(s, events, minChars, keyOf), belongs)
    && (events != [] ==> AlwaysOneTerm(s, events[..|events| - 1], minChars, keyOf, belongs))
  }

  ghost predicate NeverLosesTerm<T(!new)>(s: State<T>, events: seq<Event<T>>, minChars: int, keyOf: T -> string, belongs: (string, T) -> bool)
  {
    events != [] ==>
      && NeverLosesTerm(s, events[..|events| - 1], minChars, keyOf, belongs)
      && !LosesTerm(Run(s, events[..|events| - 1], minChars, keyOf), events[|events| - 1], belongs)
  }

  ghost predicate AlwaysDistinct<T>(s: State<T>, events: seq<Event<T>>, minChars: int, keyOf: T -> string)
  {
    && DistinctKeys(Run(s, events, minChars, keyOf).items, keyOf)
    && (events != [] ==> AlwaysDistinct(s, events[..|events| - 1], minChars, keyOf))
  }

  /** Every first page shown repeats no key. */
  ghost predicate FirstPagesDistinct<T>(s: State<T>, events: seq<Event<T>>, minChars: int, keyOf: T -> string)
  {
    events != [] ==>
      && FirstPagesDistinct(s, events[..|events| - 1], minChars, keyOf)
      && (ShowsFirst(Run(s, events[..|events| - 1], minChars, keyOf), events[|events| - 1]) ==>
            DistinctKeys(events[|events| - 1].page.items, keyOf))
  }

  /** No abort of the newest run has been asked for, and its request, if it is on its way, is the one to
      abort. */
  ghost predicate Unaborted<T>(s: State<T>)
  {
    (forall t :: t in s.aborted ==> t < s.runToken) && (NewestFlying(s) ==> s.inFlight == Some(s.runToken))
  }

  /** Every interleaving, from the start, disposal included: `loading` is exact; the list holds one term
      throughout, the current one once nothing is loading, exactly when no abort ever strikes a first page
      under another term's list; no key is ever repeated exactly when no first page shown repeats one.
      Before disposal no such abort can strike. */
  lemma {:induction false} EveryRun<T(!new)>(events: seq<Event<T>>, minChars: int, keyOf: T -> string, belongs: (string, T) -> bool)
    requires AllEnabled(Initial(), events, minChars, keyOf, belongs)
    ensures Sound(Run(Initial(), events, minChars, keyOf))
    ensures AlwaysOneTerm(Initial(), events, minChars, keyOf, belongs) <==> NeverLosesTerm(Initial(), events, minChars, keyOf, belongs)
    ensures AlwaysDistinct(Initial(), events, minChars, keyOf) <==> FirstPagesDistinct(Initial(), events, minChars, keyOf)
    ensures Undisposed(events) ==>
              NeverLosesTerm(Initial(), events, minChars, keyOf, belongs) && Unaborted(Run(Initial(), events, minChars, keyOf))
  {
    hide Step, OneTerm, Sound, Honest, Enabled, LosesTerm, ShowsFirst, Clears, DistinctKeys, Unaborted;
    if events == [] {
      Start0(keyOf, belongs);
    } else {
      var front, last := events[..|events| - 1], events[|events| - 1];
      EveryRun(front, minChars, keyOf, belongs);
      var s := Run(Initial(), front, minChars, keyOf);
      StepKeepsSound(s, last, minChars, keyOf);
      DistinctExactly(s, last, minChars, keyOf);
      NowOrNever(s, last, minChars, keyOf);
      NowOneTerm(front, minChars, keyOf, belongs);
      if AlwaysOneTerm(Initial(), front, minChars, keyOf, belongs) {
        OneTermExactly(s, last, minChars, keyOf, belongs);
      }
      NowDistinct(front, minChars, keyOf);
      if Undisposed(events) {
        assert !last.Disposed? && Undisposed(front);
        UnabortedStep(s, last, minChars, keyOf, belongs);
      }
    }
  }

  lemma NowOneTerm<T(!new)>(events: seq<Event<T>>, minChars: int, keyOf: T -> string, belongs: (string, T) -> bool)
    ensures AlwaysOneTerm(Initial(), events, minChars, keyOf, belongs) ==> OneTerm(Run(Initial(), events, minChars, keyOf), belongs)
  {
    hide OneTerm, Run;
  }

  lemma NowDistinct<T>(events: seq<Event<T>>, minChars: int, keyOf: T -> string)
    ensures AlwaysDistinct(Initial(), events, minChars, keyOf) ==> DistinctKeys(Run(Initial(), events, minChars, keyOf).items, keyOf)
  {
    hide DistinctKeys, Run;
  }

  lemma NowOrNever<T>(s: State<T>, e: Event<T>, minChars: int, keyOf: T -> string)
    ensures ShowsFirst(s, e) ==> !Clears(s, e, minChars)
  {
    hide IsQueryReady;
  }

  lemma UnabortedStep<T(!new)>(s: State<T>, e: Event<T>, minChars: int, keyOf: T -> string, belongs: (string, T) -> bool)
    requires Sound(s) && Unaborted(s) && Enabled(s, e) && !e.Disposed?
    ensures Unaborted(Step(s, e, minChars, keyOf)) && !LosesTerm(s, e, belongs)
  {
    hide Start, Landed, Shown, NotShown, AllOf, LoadingExact;
    match e
    case TermChanged(term) => UnabortedStart(s.(term := term), term, 0, minChars);
    case Refresh => UnabortedStart(s, s.term, 0, minChars);
    case LoadMore => UnabortedStart(s, s.term, s.nextCursor, minChars);
    case Answered(flight, _) => UnabortedLanding(s, e, flight, minChars, keyOf);
    case Failed(flight, _) => UnabortedLanding(s, e, flight, minChars, keyOf);
    case AbortSeen(flight) => UnabortedLanding(s, e, flight, minChars, keyOf);
    case _ =>
  }

  lemma UnabortedStart<T>(s: State<T>, term: string, offset: int, minChars: int)
    requires TokensOrdered(s)
    ensures Unaborted(Start(s, term, offset, minChars))
  {
    hide IsQueryReady;
  }

  lemma UnabortedLanding<T>(s: State<T>, e: Event<T>, flight: Flight, minChars: int, keyOf: T -> string)
    requires Sound(s) && Unaborted(s) && flight in s.flying && Answers(e, flight)
    ensures Unaborted(Step(s, e, minChars, keyOf))
  {
    hide Step;
    LandingFacts(s, e, flight, minChars, keyOf);
    var t := Step(s, e, minChars, keyOf);
    forall f | f in t.flying ensures f in s.flying {
    }
  }

  lemma Start0<T(!new)>(keyOf: T -> string, belongs: (string, T) -> bool)
    ensures Sound<T>(Initial()) && OneTerm(Initial(), belongs) && DistinctKeys<T>(Initial().items, keyOf) && Unaborted<T>(Initial())
  {
    assert AllOf([], "", belongs);
  }

  // ---- What disposal can break

  /** The newest run's abort, where it has been asked for, would not strike a first page under another
      term's list. */
  ghost predicate Spared<T(!new)>(s: State<T>, belongs: (string, T) -> bool)
  {
    forall f :: f in s.flying && f.token == s.runToken && f.token in s.aborted ==> f.offset != 0 || AllOf(s.items, s.term, belongs)
  }

  /** A first page is on its way while the list is another term's. */
  ghost predicate Exposed<T(!new)>(s: State<T>, belongs: (string, T) -> bool)
  {
    exists f :: f in s.flying && f.token == s.runToken && f.offset == 0 && !AllOf(s.items, s.term, belongs)
  }

  lemma SparedStep<T(!new)>(s: State<T>, e: Event<T>, minChars: int, keyOf: T -> string, belongs: (string, T) -> bool)
    requires Sound(s) && Spared(s, belongs) && Enabled(s, e) && !e.Disposed?
    ensures Spared(Step(s, e, minChars, keyOf), belongs) && !LosesTerm(s, e, belongs)
  {
    hide Merged, ResolveHasMore, IsQueryReady, AllOf, LoadingExact;
    match e
    case Answered(flight, _) => SparedLanding(s, e, flight, minChars, keyOf, belongs);
    case Failed(flight, _) => SparedLanding(s, e, flight, minChars, keyOf, belongs);
    case AbortSeen(flight) => SparedLanding(s, e, flight, minChars, keyOf, belongs);
    case _ =>
  }

  lemma SparedLanding<T(!new)>(s: State<T>, e: Event<T>, flight: Flight, minChars: int, keyOf: T -> string, belongs: (string, T) -> bool)
    requires Sound(s) && Spared(s, belongs) && flight in s.flying && Answers(e, flight)
    ensures Spared(Step(s, e, minChars, keyOf), belongs)
  {
    hide Step, AllOf;
    LandedKeeps(s, flight);
    LandingFacts(s, e, flight, minChars, keyOf);
    var t := Step(s, e, minChars, keyOf);
    assert t.flying == Landed(s, flight).flying;
    forall f | f in t.flying ensures f in s.flying {
    }
  }

  lemma {:induction false} SparedRun<T(!new)>(s: State<T>, events: seq<Event<T>>, minChars: int, keyOf: T -> string, belongs: (string, T) -> bool)
    requires Sound(s) && Spared(s, belongs) && OneTerm(s, belongs) && AllEnabled(s, events, minChars, keyOf, belongs) && Undisposed(events)
    ensures var t := Run(s, events, minChars, keyOf); Sound(t) && Spared(t, belongs) && OneTerm(t, belongs)
    ensures AlwaysOneTerm(s, events, minChars, keyOf, belongs)
  {
    hide Step, OneTerm, Sound, Spared, Honest, Enabled, LosesTerm;
    if events != [] {
      var front, last := events[..|events| - 1], events[|events| - 1];
      assert !last.Disposed? && Undisposed(front);
      SparedRun(s, front, minChars, keyOf, belongs);
      var t := Run(s, front, minChars, keyOf);
      StepKeepsSound(t, last, minChars, keyOf);
      SparedStep(t, last, minChars, keyOf, belongs);
      OneTermExactly(t, last, minChars, keyOf, belongs);
    }
  }

  /** Disposal can mix terms, in some continuation, exactly when it strikes while a first page is on its
      way and the list is another term's. */
  lemma DisposalMixesExactly<T(!new)>(s: State<T>, minChars: int, keyOf: T -> string, belongs: (string, T) -> bool)
    requires Sound(s) && OneTerm(s, belongs) && Unaborted(s)
    ensures var t := Step(s, Disposed, minChars, keyOf);
            !Exposed(s, belongs) <==>
            forall events :: AllEnabled(t, events, minChars, keyOf, belongs) && Undisposed(events) ==> AlwaysOneTerm(t, events, minChars, keyOf, belongs)
  {
    hide AllEnabled, AlwaysOneTerm, AllOf;
    var t := Step(s, Disposed, minChars, keyOf);
    DisposedState(s, minChars, keyOf, belongs);
    if Exposed(s, belongs) {
      var f :| f in s.flying && f.token == s.runToken && f.offset == 0 && !AllOf(s.items, s.term, belongs);
      assert NewestFlying(s);
      AbortLoses(t, f, minChars, keyOf, belongs);
    } else {
      forall events | AllEnabled(t, events, minChars, keyOf, belongs) && Undisposed(events)
        ensures AlwaysOneTerm(t, events, minChars, keyOf, belongs)
      {
        SparedRun(t, events, minChars, keyOf, belongs);
      }
    }
  }

  lemma DisposedState<T(!new)>(s: State<T>, minChars: int, keyOf: T -> string, belongs: (string, T) -> bool)
    requires Sound(s) && OneTerm(s, belongs)
    ensures var t := Step(s, Disposed, minChars, keyOf);
            && t == s.(aborted := Raised(s)) && Sound(t) && OneTerm(t, belongs) && (!Exposed(s, belongs) ==> Spared(t, belongs))
  {
    hide AllOf, Merged, ResolveHasMore;
    StepKeepsSound(s, Disposed, minChars, keyOf);
  }

  lemma AbortLoses<T(!new)>(t: State<T>, f: Flight, minChars: int, keyOf: T -> string, belongs: (string, T) -> bool)
    requires Sound(t) && OneTerm(t, belongs) && f in t.flying && f.token == t.runToken && f.token in t.aborted && f.offset == 0
    requires !AllOf(t.items, t.term, belongs)
    ensures var events := [AbortSeen(f)];
            AllEnabled(t, events, minChars, keyOf, belongs) && Undisposed(events) && !AlwaysOneTerm(t, events, minChars, keyOf, belongs)
  {
    hide OneTerm, AllOf, Sound, Step;
    var e: Event<T> := AbortSeen(f);
    OneTermExactly(t, e, minChars, keyOf, belongs);
    assert [e][..0] == [];
    assert AllEnabled(t, [], minChars, keyOf, belongs);
  }

  /** A page that holds a key twice is shown as it is. */
  lemma RepeatedKeyShown(keyOf: string -> string)
    ensures var e := Answered(FIRST, Page(["a", "a"], None, None, None));
            && Step(Step(Initial(), Refresh, 3, keyOf), e, 3, keyOf).items == ["a", "a"] && !DistinctKeys(["a", "a"], keyOf)
            && Enabled(Step(Initial<string>(), Refresh, 3, keyOf), e)
  {
    assert ["a", "a"][0] == ["a", "a"][1] == "a";
  }

  // ---- Paging ends

  /** Each answered load-more at a positive cursor either adds a key or ends paging. */
  lemma LoadMoreProgress<T>(s: State<T>, flight: Flight, page: Page<T>, minChars: int, keyOf: T -> string)
    requires flight.token == s.runToken && flight.offset > 0
    ensures var t := Step(s, Answered(flight, page), minChars, keyOf);
            s.items <= t.items && (|t.items| > |s.items| || !t.more)
  {
    hide ResolveHasMore;
    MergedExactly(s.items, page.items, keyOf);
  }

  ghost predicate KeysIn<T>(items: seq<T>, keyOf: T -> string, universe: set<string>)
  {
    forall k :: 0 <= k < |items| ==> keyOf(items[k]) in universe
  }

  lemma {:induction false} FewerThanKeys<T>(items: seq<T>, keyOf: T -> string, universe: set<string>)
    requires DistinctKeys(items, keyOf) && KeysIn(items, keyOf, universe)
    ensures |items| <= |universe|
  {
    if items != [] {
      var n := |items| - 1;
      FewerThanKeys(items[..n], keyOf, universe - {keyOf(items[n])});
    }
  }

  /** Rounds of load-more, each answered before the next begins. */
  ghost function Rounds<T>(s: State<T>, pages: seq<Page<T>>, minChars: int, keyOf: T -> string): State<T>
  {
    if pages == [] then s
    else
      var n := |pages| - 1;
      Round(Rounds(s, pages[..n], minChars, keyOf), pages[n], minChars, keyOf)
  }

  ghost function Round<T>(s: State<T>, page: Page<T>, minChars: int, keyOf: T -> string): State<T>
  {
    var t := Step(s, LoadMore, minChars, keyOf);
    Step(t, Answered(Flight(t.runToken, s.term, s.nextCursor), page), minChars, keyOf)
  }

  /** Every round found something to ask for, past the first page. */
  ghost predicate AllEffective<T>(s: State<T>, pages: seq<Page<T>>, minChars: int, keyOf: T -> string)
  {
    pages == []
    || (AllEffective(s, pages[..|pages| - 1], minChars, keyOf)
        && Effective(Rounds(s, pages[..|pages| - 1], minChars, keyOf), minChars))
  }

  predicate Effective<T>(s: State<T>, minChars: int)
  {
    !s.loading && s.more && s.nextCursor > 0 && IsQueryReady(s.term, minChars)
  }

  lemma RoundProgress<T>(s: State<T>, page: Page<T>, minChars: int, keyOf: T -> string)
    requires Effective(s, minChars)
    ensures var t := Round(s, page, minChars, keyOf);
            && s.items <= t.items && (|t.items| > |s.items| || !t.more)
            && t.items == Merged(s.items, page.items, keyOf)
  {
    hide ResolveHasMore, Merged;
    var t := Step(s, LoadMore, minChars, keyOf);
    LoadMoreProgress(t, Flight(t.runToken, s.term, s.nextCursor), page, minChars, keyOf);
  }

  /** Over a finite result set paging ends: there are no more effective rounds than keys not yet shown,
      and one. */
  lemma {:induction false} PagingEnds<T>(s: State<T>, pages: seq<Page<T>>, minChars: int, keyOf: T -> string, universe: set<string>)
    requires AllEffective(s, pages, minChars, keyOf) && DistinctKeys(s.items, keyOf) && KeysIn(s.items, keyOf, universe)
    requires forall k :: 0 <= k < |pages| ==> KeysIn(pages[k].items, keyOf, universe)
    ensures |pages| <= |universe| - |s.items| + 1
  {
    hide Round, IsQueryReady;
    if pages != [] {
      var n := |pages| - 1;
      PagingGrows(s, pages[..n], minChars, keyOf, universe);
      FewerThanKeys(Rounds(s, pages[..n], minChars, keyOf).items, keyOf, universe);
    } else {
      FewerThanKeys(s.items, keyOf, universe);
    }
  }

  /** Every round but the last grew the list, since a round that does not ends paging. */
  lemma {:induction false} PagingGrows<T>(s: State<T>, pages: seq<Page<T>>, minChars: int, keyOf: T -> string, universe: set<string>)
    requires AllEffective(s, pages, minChars, keyOf) && DistinctKeys(s.items, keyOf) && KeysIn(s.items, keyOf, universe)
    requires forall k :: 0 <= k < |pages| ==> KeysIn(pages[k].items, keyOf, universe)
    ensures var t := Rounds(s, pages, minChars, keyOf);
            && DistinctKeys(t.items, keyOf) && KeysIn(t.items, keyOf, universe)
            && (pages != [] ==> |t.items| >= |s.items| + |pages| - 1) && (t.more ==> |t.items| >= |s.items| + |pages|)
  {
    hide Round, Merged, DistinctKeys, KeysIn, IsQueryReady;
    if pages != [] {
      var n := |pages| - 1;
      var before := Rounds(s, pages[..n], minChars, keyOf);
      PagingGrows(s, pages[..n], minChars, keyOf, universe);
      RoundProgress(before, pages[n], minChars, keyOf);
      MergedExactly(before.items, pages[n].items, keyOf);
      MergedKeysIn(before.items, pages[n].items, keyOf, universe);
    }
  }

  lemma MergedKeysIn<T>(existing: seq<T>, incoming: seq<T>, keyOf: T -> string, universe: set<string>)
    requires KeysIn(existing, keyOf, universe) && KeysIn(incoming, keyOf, universe)
    ensures KeysIn(Merged(existing, incoming, keyOf), keyOf, universe)
  {
    hide Merged;
    var merged := Merged(existing, incoming, keyOf);
    MergedExactly(existing, incoming, keyOf);
    forall k | 0 <= k < |merged| ensures keyOf(merged[k]) in universe {
      assert merged[k] in merged;
    }
  }

  lemma {:induction false} NothingNew<T>(existing: seq<T>, incoming: seq<T>, keyOf: T -> string)
    requires forall k :: 0 <= k < |incoming| ==> HasKey(existing, keyOf, keyOf(incoming[k]))
    ensures Merged(existing, incoming, keyOf) == existing
  {
    hide HasKey;
    if incoming != [] {
      assert HasKey(existing, keyOf, keyOf(incoming[0]));
      forall k | 0 <= k < |incoming[1..]| ensures HasKey(existing, keyOf, keyOf(incoming[1..][k])) {
        assert incoming[1..][k] == incoming[k + 1];
      }
      NothingNew(existing, incoming[1..], keyOf);
    }
  }

  /** The page has nothing that is not shown: at cursor zero, where it takes the place of the list, it is
      the list; below, it brings no new key. */
  ghost predicate BringsNothing<T>(s: State<T>, page: Page<T>, keyOf: T -> string)
  {
    if s.nextCursor == 0 then page.items == s.items
    else forall k :: 0 <= k < |page.items| ==> HasKey(s.items, keyOf, keyOf(page.items[k]))
  }

  /** At any cursor that is not positive nothing bounds it: a server that keeps naming that offset and
      promising more serves the same round for ever. */
  lemma LoopsAtZero<T>(s: State<T>, page: Page<T>, minChars: int, keyOf: T -> string)
    requires !s.loading && s.more && s.nextCursor <= 0 && IsQueryReady(s.term, minChars) && s.error.None?
    requires BringsNothing(s, page, keyOf) && page.hasMore == Some(true) && page.nextOffset == Some(s.nextCursor)
    ensures Seen(Round(s, page, minChars, keyOf)) == Seen(s)
  {
    hide IsQueryReady, Merged, HasKey;
    if s.nextCursor < 0 {
      NothingNew(s.items, page.items, keyOf);
    }
  }

  lemma RunOneMore<T(!new)>(s: State<T>, events: seq<Event<T>>, e: Event<T>, minChars: int, keyOf: T -> string,
                            belongs: (string, T) -> bool)
    ensures Run(s, events + [e], minChars, keyOf) == Step(Run(s, events, minChars, keyOf), e, minChars, keyOf)
    ensures AllEnabled(s, events + [e], minChars, keyOf, belongs) <==>
            AllEnabled(s, events, minChars, keyOf, belongs) && Enabled(Run(s, events, minChars, keyOf), e) && Honest(e, belongs)
  {
    hide Step, Enabled, Honest;
    assert (events + [e])[..|events|] == events;
  }

  // The run of `DisposalMixesTerms`, event by event.
  const FIRST := Flight(1, "", 0)
  const SECOND := Flight(2, "abc", 0)
  const THIRD := Flight(3, "abc", 1)
  const TRACE: seq<Event<string>> :=
    [Refresh, Answered(FIRST, Page(["old"], None, Some(true), None)), TermChanged("abc"), Disposed, AbortSeen(SECOND), LoadMore,
     Answered(THIRD, Page(["new"], None, None, None))]
  const S1: State<string> := State("", 1, Some(1), 0, [], false, true, None, multiset{FIRST}, {})
  const S2: State<string> := State("", 1, Some(1), 1, ["old"], true, false, None, multiset{}, {})
  const S3: State<string> := State("abc", 2, Some(2), 1, ["old"], true, true, None, multiset{SECOND}, {1})
  const S4: State<string> := State("abc", 2, Some(2), 1, ["old"], true, true, None, multiset{SECOND}, {1, 2})
  const S5: State<string> := State("abc", 2, Some(2), 1, ["old"], true, false, None, multiset{}, {1, 2})
  const S6: State<string> := State("abc", 3, Some(3), 1, ["old"], true, true, None, multiset{THIRD}, {1, 2})
  const S7: State<string> := State("abc", 3, Some(3), 2, ["old", "new"], false, false, None, multiset{}, {1, 2})

  lemma TraceBefore(keyOf: string -> string)
    ensures Step(Initial(), TRACE[0], 3, keyOf) == S1 && Step(S1, TRACE[1], 3, keyOf) == S2
    ensures Enabled<string>(Initial(), TRACE[0]) && Enabled(S1, TRACE[1])
  {
  }

  lemma TraceDisposal(keyOf: string -> string)
    ensures Step(S2, TRACE[2], 3, keyOf) == S3 && Step(S3, TRACE[3], 3, keyOf) == S4
    ensures Enabled(S2, TRACE[2]) && Enabled(S3, TRACE[3])
  {
    assert Raised(S2) == {1} && Raised(S3) == {1, 2};
  }

  lemma TraceAfter(keyOf: string -> string)
    requires keyOf("old") != keyOf("new")
    ensures Step(S4, TRACE[4], 3, keyOf) == S5 && Step(S5, TRACE[5], 3, keyOf) == S6 && Step(S6, TRACE[6], 3, keyOf) == S7
    ensures Enabled(S4, TRACE[4]) && Enabled(S5, TRACE[5]) && Enabled(S6, TRACE[6])
  {
    hide Merged;
    assert Raised(S5) == {1, 2};
    TwoMerged(keyOf);
  }

  lemma TraceHonest(belongs: (string, string) -> bool)
    requires belongs("", "old") && belongs("abc", "new")
    ensures forall k :: 0 <= k < 7 ==> Honest(TRACE[k], belongs)
  {
  }

  /** Disposal ends the one-term guarantee: after it, aborting the newest run leaves the old term's list
      and cursor behind, and a load-more adds the new term's rows to them. */
  lemma DisposalMixesTerms(keyOf: string -> string, belongs: (string, string) -> bool)
    requires keyOf("old") != keyOf("new") && belongs("", "old") && belongs("abc", "new")
    ensures AllEnabled(Initial(), TRACE, 3, keyOf, belongs) && |TRACE| == 7
    ensures Run(Initial(), TRACE, 3, keyOf).items == ["old", "new"] && !Run(Initial(), TRACE, 3, keyOf).loading
  {
    TraceBefore(keyOf);
    TraceDisposal(keyOf);
    TraceAfter(keyOf);
    TraceHonest(belongs);
    hide Step, Enabled, Honest;
    SevenSteps(TRACE, S1, S2, S3, S4, S5, S6, S7, keyOf, belongs);
  }

  lemma TwoMerged(keyOf: string -> string)
    requires keyOf("old") != keyOf("new")
    ensures Merged(["old"], ["new"], keyOf) == ["old", "new"]
  {
    assert !HasKey(["old"], keyOf, keyOf("new"));
    assert ["new"][1..] == [];
    assert Merged(["old"] + ["new"], [], keyOf) == ["old", "new"];
  }

  lemma SevenSteps(e: seq<Event<string>>, s1: State<string>, s2: State<string>, s3: State<string>, s4: State<string>, s5: State<string>,
                   s6: State<string>, s7: State<string>, keyOf: string -> string, belongs: (string, string) -> bool)
    requires |e| == 7
    requires Step(Initial(), e[0], 3, keyOf) == s1 && Step(s1, e[1], 3, keyOf) == s2 && Step(s2, e[2], 3, keyOf) == s3
    requires Step(s3, e[3], 3, keyOf) == s4 && Step(s4, e[4], 3, keyOf) == s5 && Step(s5, e[5], 3, keyOf) == s6
    requires Step(s6, e[6], 3, keyOf) == s7
    requires Enabled(Initial(), e[0]) && Enabled(s1, e[1]) && Enabled(s2, e[2]) && Enabled(s3, e[3]) && Enabled(s4, e[4])
    requires Enabled(s5, e[5]) && Enabled(s6, e[6]) && forall k :: 0 <= k < 7 ==> Honest(e[k], belongs)
    ensures AllEnabled(Initial(), e, 3, keyOf, belongs) && Run(Initial(), e, 3, keyOf) == s7
  {
    hide Step, Enabled, Honest;
    var states := [s1, s2, s3, s4, s5, s6, s7];
    var k := 0;
    while k < 7
      invariant k <= 7 && AllEnabled(Initial(), e[..k], 3, keyOf, belongs)
      invariant Run(Initial(), e[..k], 3, keyOf) == if k == 0 then Initial() else states[k - 1]
    {
      RunOneMore(Initial(), e[..k], e[k], 3, keyOf, belongs);
      assert e[..k + 1] == e[..k] + [e[k]];
      k := k + 1;
    }
    assert e[..7] == e;
  }
}
