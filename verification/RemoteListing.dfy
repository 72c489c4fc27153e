/** Paging through a whole result list (app/composables/useRemoteSearch.ts): whichever way the server says
    that there is more, an undisturbed search shows everything there is, in order, and then stops. */
module RemoteListing {
  import opened Outcome
  import opened RemoteSearch

  /** How a server tells of further rows: by their total, by a flag, or by a flag and the next offset. */
  datatype Signal = ByTotal | ByFlag | ByCursor

  /** The page of a server that has this list. */
  function Served<T>(all: seq<T>, offset: nat, size: nat, signal: Signal): Page<T>
    requires offset <= |all|
  {
    var end := if offset + size < |all| then offset + size else |all|;
    Page(all[offset..end], if signal.ByTotal? then Some(|all|) else None, if signal.ByTotal? then None else Some(end < |all|),
         if signal.ByCursor? then Some(end) else None)
  }

  /** The list is shown up to here, and the search knows whether that is all. */
  ghost predicate ShowsUpTo<T>(s: State<T>, all: seq<T>, n: nat)
  {
    n <= |all| && s.items == all[..n] && s.nextCursor == n && (s.more <==> n < |all|) && !s.loading && s.error == None
  }

  function UpTo(rounds: nat, size: nat, n: nat): nat
  {
    if (rounds + 1) * size < n then (rounds + 1) * size else n
  }

  /** A fresh search, answered. */
  function Opened<T>(s: State<T>, all: seq<T>, size: nat, signal: Signal, minChars: int, keyOf: T -> string): State<T>
  {
    Step(Step(s, Refresh, minChars, keyOf), Answered(Flight(s.runToken + 1, s.term, 0), Served(all, 0, size, signal)), minChars, keyOf)
  }

  /** One load-more, answered; nothing once nothing more is expected. */
  function Loaded<T>(s: State<T>, all: seq<T>, size: nat, signal: Signal, minChars: int, keyOf: T -> string): State<T>
  {
    var asked := Step(s, LoadMore, minChars, keyOf);
    if s.more && !s.loading && 0 <= s.nextCursor <= |all| then
      Step(asked, Answered(Flight(s.runToken + 1, s.term, s.nextCursor), Served(all, s.nextCursor, size, signal)), minChars, keyOf)
    else asked
  }

  function Browsed<T>(s: State<T>, all: seq<T>, size: nat, signal: Signal, minChars: int, keyOf: T -> string, rounds: nat): State<T>
  {
    if rounds == 0 then Opened(s, all, size, signal, minChars, keyOf)
    else Loaded(Browsed(s, all, size, signal, minChars, keyOf, rounds - 1), all, size, signal, minChars, keyOf)
  }

  lemma {:induction false} MergeNew<T>(existing: seq<T>, incoming: seq<T>, keyOf: T -> string)
    requires DistinctKeys(existing + incoming, keyOf)
    ensures Merged(existing, incoming, keyOf) == existing + incoming
    decreases incoming
  {
    if incoming == [] {
      assert existing + [] == existing;
    } else {
      var both := existing + incoming;
      assert both[|existing|] == incoming[0];
      forall k | 0 <= k < |existing| ensures keyOf(existing[k]) != keyOf(incoming[0]) {
        assert both[k] == existing[k];
      }
      assert (existing + [incoming[0]]) + incoming[1..] == both;
      MergeNew(existing + [incoming[0]], incoming[1..], keyOf);
    }
  }

  lemma PartDistinct<T>(all: seq<T>, n: nat, keyOf: T -> string)
    requires n <= |all| && DistinctKeys(all, keyOf)
    ensures DistinctKeys(all[..n], keyOf)
  {
  }

  lemma OpenedShows<T>(s: State<T>, all: seq<T>, size: nat, signal: Signal, minChars: int, keyOf: T -> string)
    requires IsQueryReady(s.term, minChars)
    ensures var t := Opened(s, all, size, signal, minChars, keyOf);
            ShowsUpTo(t, all, if size < |all| then size else |all|) && t.term == s.term
  {
    hide Merged, IsQueryReady;
  }

  lemma LoadedShows<T>(s: State<T>, all: seq<T>, size: nat, signal: Signal, minChars: int, keyOf: T -> string, n: nat)
    requires size > 0 && DistinctKeys(all, keyOf) && IsQueryReady(s.term, minChars) && ShowsUpTo(s, all, n) && n > 0
    ensures var t := Loaded(s, all, size, signal, minChars, keyOf);
            ShowsUpTo(t, all, if n + size < |all| then n + size else |all|) && t.term == s.term
  {
    hide Merged, IsQueryReady, DistinctKeys;
    if s.more {
      var end := if n + size < |all| then n + size else |all|;
      assert all[..n] + all[n..end] == all[..end];
      PartDistinct(all, end, keyOf);
      MergeNew(all[..n], all[n..end], keyOf);
    }
  }

  /** Whatever the search was at, a fresh one and so many load-mores show that many pages of the list, in
      order; more is offered exactly while there is more, and enough of them show all. */
  lemma {:induction false} BrowsedExactly<T>(s: State<T>, all: seq<T>, size: nat, signal: Signal, minChars: int, keyOf: T -> string, rounds: nat)
    requires size > 0 && DistinctKeys(all, keyOf) && IsQueryReady(s.term, minChars)
    ensures var t := Browsed(s, all, size, signal, minChars, keyOf, rounds);
            && ShowsUpTo(t, all, UpTo(rounds, size, |all|)) && t.term == s.term
            && (rounds >= |all| ==> t.items == all && !t.more)
  {
    hide Opened, Loaded, IsQueryReady, DistinctKeys;
    if rounds == 0 {
      OpenedShows(s, all, size, signal, minChars, keyOf);
    } else {
      BrowsedExactly(s, all, size, signal, minChars, keyOf, rounds - 1);
      var before := Browsed(s, all, size, signal, minChars, keyOf, rounds - 1);
      PagesGrow(rounds, size, |all|);
      if UpTo(rounds - 1, size, |all|) == 0 {
        NothingToLoad(before, all, size, signal, minChars, keyOf);
      } else {
        LoadedShows(before, all, size, signal, minChars, keyOf, UpTo(rounds - 1, size, |all|));
      }
    }
    PagesGrow(rounds, size, |all|);
    assert all[..|all|] == all;
  }

  lemma PagesGrow(rounds: nat, size: nat, n: nat)
    requires size > 0
    ensures rounds > 0 ==> UpTo(rounds, size, n) == if UpTo(rounds - 1, size, n) + size < n then UpTo(rounds - 1, size, n) + size else n
    ensures UpTo(rounds, size, n) == 0 <==> n == 0
    ensures rounds >= n ==> UpTo(rounds, size, n) == n
  {
    assert (rounds + 1) * size >= rounds + 1;
    if rounds > 0 {
      assert (rounds + 1) * size == rounds * size + size;
      assert rounds * size >= rounds;
    }
  }

  lemma NothingToLoad<T>(s: State<T>, all: seq<T>, size: nat, signal: Signal, minChars: int, keyOf: T -> string)
    requires all == [] && ShowsUpTo(s, all, 0)
    ensures ShowsUpTo(Loaded(s, all, size, signal, minChars, keyOf), all, 0) && Loaded(s, all, size, signal, minChars, keyOf).term == s.term
  {
  }

  /** A failed first page empties the list; a failed load-more leaves it, and the place to go on from, as it was. Either
      way the message is shown, or a standing one in place of a blank one, until the next request goes out. */
  lemma FailureShown<T>(s: State<T>, flight: Flight, message: string, minChars: int, keyOf: T -> string)
    requires flight.token == s.runToken
    ensures var t := Step(s, Failed(flight, message), minChars, keyOf);
            && !t.loading && t.error.Some? && t.error.value != ""
            && (message != "" ==> t.error.value == message) && (message == "" ==> t.error.value == "Ошибка поиска")
            && (flight.offset == 0 ==> t.items == [] && !t.more)
            && (flight.offset != 0 ==> t.items == s.items && t.more == s.more)
            && t.nextCursor == s.nextCursor && t.term == s.term
            && Step(t, Refresh, minChars, keyOf).error == None
  {
  }

  /** A term that is too short asks nothing: the list is emptied at once, and whatever is on its way is outdated. */
  lemma TooShortEmpties<T>(s: State<T>, term: string, minChars: int, keyOf: T -> string)
    requires 0 < |term| < minChars
    ensures var t := Step(s, TermChanged(term), minChars, keyOf);
            && t.items == [] && !t.more && !t.loading && t.error == None && t.nextCursor == 0 && t.flying == s.flying
            && t.inFlight == None && t.runToken == s.runToken + 1
  {
  }
}
