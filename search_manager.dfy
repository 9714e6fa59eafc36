/** The paginated search of GitHubSearch/SearchRepositoriesManager.swift.
    `search` either refuses or accepts and issues one request; the closure
    it passes runs later with the reply. The model splits the two: Search is
    the synchronous part, OnResponse the closure. The closure's captured
    `refresh` flag is kept in the field `refreshing` while the request is in
    flight. */
module SearchManager {
  import opened Wrappers
  import opened GitHubRecords
  import opened GitHubAPI

  /** The manager's fields, as a value. */
  datatype State = State(
    repositories: seq<Repository>,
    page: int,
    networking: bool,
    completed: bool,
    refreshing: bool)

  /** At most one request is in flight, and none after the last page; the
      page counter never drops below one. */
  predicate Invariant(s: State) {
    s.page >= 1 && (s.networking ==> !s.completed)
  }

  /** The guard of `search`. */
  predicate Accepts(s: State) {
    !s.networking && !s.completed
  }

  /** The page a search asks for. */
  function RequestedPage(s: State, refresh: bool): int {
    if refresh then 1 else s.page
  }

  /** The state after `search` returns. */
  function AfterSearch(s: State, refresh: bool): State {
    if Accepts(s) then s.(networking := true, refreshing := refresh) else s
  }

  /** The state after the completion closure: a reply with a response
      (emptying the list and resetting the page first on refresh) appends the
      items, advances the page and recomputes `completed`; every reply clears
      `networking`. */
  function AfterResponse(s: State, reply: Reply<SearchResult<Repository>>): State {
    var next :=
      match reply.response
      case Some(response) =>
        var base := if s.refreshing then s.(repositories := [], page := 1) else s;
        var repositories := base.repositories + response.items;
        base.(repositories := repositories, page := base.page + 1,
              completed := response.totalCount <= |repositories|)
      case None => s;
    next.(networking := false)
  }

  lemma SearchKeepsInvariant(s: State, refresh: bool)
    requires Invariant(s)
    ensures Invariant(AfterSearch(s, refresh))
    ensures Accepts(s) ==> AfterSearch(s, refresh).networking
    ensures !Accepts(s) ==> AfterSearch(s, refresh) == s
  {
  }

  lemma ResponseKeepsInvariant(s: State, reply: Reply<SearchResult<Repository>>)
    requires Invariant(s)
    ensures Invariant(AfterResponse(s, reply))
    ensures !AfterResponse(s, reply).networking
  {
  }

  /** A response to a plain search extends the list by the new items in
      order and moves to the next page. */
  lemma ResponseAppends(s: State, reply: Reply<SearchResult<Repository>>)
    requires reply.response.Some? && !s.refreshing
    ensures AfterResponse(s, reply).repositories == s.repositories + reply.response.value.items
    ensures AfterResponse(s, reply).page == s.page + 1
  {
  }

  /** A response to a refresh replaces the list by exactly the new items and
      leaves the counter on page two. */
  lemma ResponseReplacesOnRefresh(s: State, reply: Reply<SearchResult<Repository>>)
    requires reply.response.Some? && s.refreshing
    ensures AfterResponse(s, reply).repositories == reply.response.value.items
    ensures AfterResponse(s, reply).page == 2
  {
  }

  /** After a response, `completed` says whether the total count has been
      reached; after a failure nothing but `networking` changes. */
  lemma ResponseCompletion(s: State, reply: Reply<SearchResult<Repository>>)
    ensures reply.response.Some? ==>
              AfterResponse(s, reply).completed
              == (reply.response.value.totalCount <= |AfterResponse(s, reply).repositories|)
    ensures reply.response.None? ==> AfterResponse(s, reply) == s.(networking := false)
  {
  }

  /** What can happen to a manager: a call of `search`, or the arrival of a
      reply for the request in flight. */
  datatype Event = SearchCalled(refresh: bool) | Replied(reply: Reply<SearchResult<Repository>>)

  /** The state after a sequence of events. A reply only arrives while a
      request is in flight; one that arrives otherwise has no effect. */
  function Run(s: State, events: seq<Event>): State
    decreases |events|
  {
    if events == [] then s
    else
      var next :=
        match events[0]
        case SearchCalled(refresh) => AfterSearch(s, refresh)
        case Replied(reply) => if s.networking then AfterResponse(s, reply) else s;
      Run(next, events[1..])
  }

  lemma {:induction false} RunKeepsInvariant(s: State, events: seq<Event>)
    requires Invariant(s)
    ensures Invariant(Run(s, events))
    decreases |events|
  {
    if events != [] {
      match events[0]
      case SearchCalled(refresh) =>
        SearchKeepsInvariant(s, refresh);
        RunKeepsInvariant(AfterSearch(s, refresh), events[1..]);
      case Replied(reply) =>
        if s.networking {
          ResponseKeepsInvariant(s, reply);
          RunKeepsInvariant(AfterResponse(s, reply), events[1..]);
        } else {
          RunKeepsInvariant(s, events[1..]);
        }
    }
  }

  /** Once completed, a manager is frozen: every later search is refused
      (with refresh too), so nothing about it ever changes again. */
  lemma {:induction false} CompletedIsFinal(s: State, events: seq<Event>)
    requires Invariant(s) && s.completed
    ensures Run(s, events) == s
    decreases |events|
  {
    if events != [] {
      CompletedIsFinal(s, events[1..]);
    }
  }

  /** Without a refresh, the list only grows: what was loaded stays, in
      order, at the front. */
  lemma {:induction false} RunWithoutRefreshExtends(s: State, events: seq<Event>)
    requires s.networking ==> !s.refreshing
    requires forall i :: 0 <= i < |events| ==> events[i] != SearchCalled(true)
    ensures s.repositories <= Run(s, events).repositories
    ensures Run(s, events).page >= s.page
    decreases |events|
  {
    if events != [] {
      var next :=
        match events[0]
        case SearchCalled(refresh) => AfterSearch(s, refresh)
        case Replied(reply) => if s.networking then AfterResponse(s, reply) else s;
      assert s.repositories <= next.repositories && next.page >= s.page;
      assert next.networking ==> !next.refreshing;
      assert forall i :: 0 <= i < |events[1..]| ==> events[1..][i] != SearchCalled(true) by {
        forall i | 0 <= i < |events[1..]| ensures events[1..][i] != SearchCalled(true) {
          assert events[1..][i] == events[i + 1];
        }
      }
      RunWithoutRefreshExtends(next, events[1..]);
    }
  }

  class SearchRepositoriesManager {
    var repositories: seq<Repository>
    var page: int
    const query: string
    var networking: bool
    var completed: bool
    var refreshing: bool

    function Snapshot(): State
      reads this
    {
      State(repositories, page, networking, completed, refreshing)
    }

    predicate Valid()
      reads this
    {
      Invariant(Snapshot())
    }

    constructor (query: string)
      requires query != []
      ensures Valid() && this.query == query
      ensures Snapshot() == State([], 1, false, false, false)
    {
      this.query := query;
      repositories := [];
      page := 1;
      networking := false;
      completed := false;
      refreshing := false;
    }

    /** `init?(api:query:)`: no manager for an empty query. */
    static method Create(query: string) returns (m: SearchRepositoriesManager?)
      ensures m == null <==> query == []
      ensures m != null ==> fresh(m) && m.Valid() && m.query == query
                            && m.Snapshot() == State([], 1, false, false, false)
    {
      if query == [] {
        m := null;
      } else {
        m := new SearchRepositoriesManager(query);
      }
    }

    /** `search(refresh:completion:)` up to its return: refused while a
      request is in flight or after the last page; otherwise marks the
      manager busy and describes the request it issues. */
    method Search(refresh: bool) returns (accepted: bool, request: Option<SearchRepositories>)
      requires Valid()
      modifies this
      ensures Valid()
      ensures accepted == Accepts(old(Snapshot()))
      ensures Snapshot() == AfterSearch(old(Snapshot()), refresh)
      ensures request == if accepted then Some(SearchRepositories(query, RequestedPage(old(Snapshot()), refresh))) else None
    {
      if networking || completed {
        return false, None;
      }
      networking := true;
      refreshing := refresh;
      var endpoint := SearchRepositories(query, if refresh then 1 else page);
      return true, Some(endpoint);
    }

    /** The completion closure of an accepted search, run with the reply the
      API hands it. Returns the error the completion handler is called with. */
    method OnResponse(reply: Reply<SearchResult<Repository>>) returns (completionError: Option<ErrorType>)
      requires Valid() && networking
      modifies this
      ensures Valid() && !networking
      ensures Snapshot() == AfterResponse(old(Snapshot()), reply)
      ensures completionError == reply.error
    {
      if reply.response.Some? {
        var response := reply.response.value;
        if refreshing {
          repositories := [];
          page := 1;
        }
        repositories := repositories + response.items;
        page := page + 1;
        completed := response.totalCount <= |repositories|;
      }
      networking := false;
      completionError := reply.error;
    }
  }
}
