/**
 * `fetchLeagueGames` and `fetchAllGames`: each league in turn is asked for
 * today's events, and every event becomes a game appended to one list.
 * The network is an input: `fetch(id)` is how the request for league `id`
 * went. Random numbers are an input too: `rand(k)` is the `k`-th value of
 * `Math.floor(Math.random() * 90000)` drawn by this call of `fetchAllGames`.
 */
module Assembly {
  import opened Wrappers
  import opened Games

  /** How the request for one league's events went. */
  datatype Response =
    | Rejected                                // `fetch` rejected, or the body was not JSON: the await throws
    | NotOk                                   // an HTTP status outside 200-299
    | OkJson(events: Option<seq<RawEvent>>)   // a parsed body; None when `events` is missing or null

  /** The error `fetchAllGames` throws: the request for this league threw. */
  datatype FetchError = FetchFailed(leagueId: string)

  /**
   * `fetchLeagueGames(id)`: the league's events, or the empty list when the
   * status is not OK or the body has no events; a request that throws
   * propagates.
   */
  function FetchLeagueGames(fetch: string -> Response, id: string): (r: Result<seq<RawEvent>, FetchError>)
    ensures r.Failure? <==> fetch(id).Rejected?
    ensures r.Failure? ==> r.error == FetchFailed(id)
    ensures fetch(id).NotOk? ==> r == Success([])
    ensures fetch(id).OkJson? ==> r == Success(if fetch(id).events.Some? then fetch(id).events.value else [])
  {
    match fetch(id)
    case Rejected => Failure(FetchFailed(id))
    case NotOk => Success([])
    case OkJson(events) => Success(match events case Some(es) => es case None => [])
  }

  /** The events a league contributes when its request does not throw. */
  function Received(fetch: string -> Response, id: string): seq<RawEvent>
  {
    match fetch(id)
    case OkJson(Some(es)) => es
    case _ => []
  }

  /** `Received` is what `FetchLeagueGames` yields whenever the request does not throw. */
  lemma ReceivedIsFetched(fetch: string -> Response, id: string)
    ensures FetchLeagueGames(fetch, id).Success? ==> FetchLeagueGames(fetch, id).value == Received(fetch, id)
    ensures FetchLeagueGames(fetch, id).Failure? <==> fetch(id).Rejected?
  {
  }

  /** The draw index of the first stream of the game at position `k` of the result. */
  function FirstDraw(k: nat): nat { k * |StreamServers| }

  /** The games made from `events`, the first of them at position `start` of the result. */
  function MapEvents(events: seq<RawEvent>, rand: nat -> Draw, start: nat): seq<Game>
  {
    seq(|events|, j requires 0 <= j < |events| => MakeGame(events[j], rand, FirstDraw(start + j)))
  }

  /**
   * The value of `fetchAllGames` when it walks the leagues `ls` in order:
   * the games of each league appended after those of the leagues before it,
   * or the error of the first league whose request throws.
   */
  function Assemble(ls: seq<League>, fetch: string -> Response, rand: nat -> Draw): Result<seq<Game>, FetchError>
    decreases |ls|
  {
    if ls == [] then Success([])
    else
      match Assemble(ls[..|ls| - 1], fetch, rand)
      case Failure(e) => Failure(e)
      case Success(prev) =>
        match FetchLeagueGames(fetch, ls[|ls| - 1].id)
        case Failure(e) => Failure(e)
        case Success(events) => Success(prev + MapEvents(events, rand, |prev|))
  }

  /** Reference: the events of all leagues, concatenated in league order. */
  function AllEvents(ls: seq<League>, fetch: string -> Response): seq<RawEvent>
    decreases |ls|
  {
    if ls == [] then [] else AllEvents(ls[..|ls| - 1], fetch) + Received(fetch, ls[|ls| - 1].id)
  }

  /** Reference: the sum over the leagues of the number of events each contributes. */
  function EventCount(ls: seq<League>, fetch: string -> Response): nat
  {
    if ls == [] then 0 else |Received(fetch, ls[0].id)| + EventCount(ls[1..], fetch)
  }

  /** One step of the loop: appending a league's games. */
  lemma AssembleSnoc(ls: seq<League>, l: League, fetch: string -> Response, rand: nat -> Draw)
    ensures Assemble(ls + [l], fetch, rand) ==
      match Assemble(ls, fetch, rand)
      case Failure(e) => Failure(e)
      case Success(prev) =>
        match FetchLeagueGames(fetch, l.id)
        case Failure(e) => Failure(e)
        case Success(events) => Success(prev + MapEvents(events, rand, |prev|))
  {
  }

  /** Mapping one more event appends one more game. */
  lemma MapEventsSnoc(events: seq<RawEvent>, j: nat, rand: nat -> Draw, start: nat)
    requires j < |events|
    ensures MapEvents(events[..j + 1], rand, start) == MapEvents(events[..j], rand, start) + [MakeGame(events[j], rand, FirstDraw(start + j))]
  {
  }

  /** The nested `games.forEach(...)`: push one game per event onto `allGames`. */
  method PushLeagueGames(allGames: seq<Game>, games: seq<RawEvent>, rand: nat -> Draw) returns (result: seq<Game>)
    ensures result == allGames + MapEvents(games, rand, |allGames|)
  {
    result := allGames;
    var idx := 0;
    while idx < |games|
      invariant 0 <= idx <= |games|
      invariant result == allGames + MapEvents(games[..idx], rand, |allGames|)
      invariant |result| == |allGames| + idx
    {
      var event := games[idx];
      MapEventsSnoc(games, idx, rand, |allGames|);
      result := result + [MakeGame(event, rand, FirstDraw(|result|))];
      idx := idx + 1;
    }
    assert games[..idx] == games;
  }

  /** `fetchAllGames`: the loop over the leagues, in order; a request that throws ends it. */
  method FetchAllGames(fetch: string -> Response, rand: nat -> Draw) returns (r: Result<seq<Game>, FetchError>)
    ensures r == Assemble(Leagues, fetch, rand)
  {
    var allGames: seq<Game> := [];
    var li := 0;
    while li < |Leagues|
      invariant 0 <= li <= |Leagues|
      invariant Assemble(Leagues[..li], fetch, rand) == Success(allGames)
    {
      var league := Leagues[li];
      AssembleSnoc(Leagues[..li], league, fetch, rand);
      assert Leagues[..li + 1] == Leagues[..li] + [league];
      var fetched := FetchLeagueGames(fetch, league.id);
      if fetched.Failure? {
        r := Failure(fetched.error);
        PrefixFailurePersists(Leagues, li + 1, fetch, rand);
        return;
      }
      allGames := PushLeagueGames(allGames, fetched.value, rand);
      li := li + 1;
    }
    assert Leagues[..li] == Leagues;
    r := Success(allGames);
  }

  /** Once a prefix of the leagues fails, the whole walk fails with the same error. */
  lemma {:induction false} PrefixFailurePersists(ls: seq<League>, n: nat, fetch: string -> Response, rand: nat -> Draw)
    requires n <= |ls|
    requires Assemble(ls[..n], fetch, rand).Failure?
    ensures Assemble(ls, fetch, rand) == Assemble(ls[..n], fetch, rand)
    decreases |ls| - n
  {
    if n < |ls| {
      AssembleSnoc(ls[..n], ls[n], fetch, rand);
      assert ls[..n + 1] == ls[..n] + [ls[n]];
      PrefixFailurePersists(ls, n + 1, fetch, rand);
    } else {
      assert ls[..n] == ls;
    }
  }

  // ---- Properties of the assembled list ----

  /** No league among `ls` gets a request that throws. */
  predicate NoneRejected(ls: seq<League>, fetch: string -> Response)
  {
    forall k :: 0 <= k < |ls| ==> !fetch(ls[k].id).Rejected?
  }

  /** Mapping two runs of events one after the other is mapping their concatenation. */
  lemma MapEventsAppend(xs: seq<RawEvent>, ys: seq<RawEvent>, rand: nat -> Draw, start: nat)
    ensures MapEvents(xs, rand, start) + MapEvents(ys, rand, start + |xs|) == MapEvents(xs + ys, rand, start)
  {
  }

  /** The walk succeeds exactly when no league's request throws. */
  lemma {:induction false} AssembleSucceeds(ls: seq<League>, fetch: string -> Response, rand: nat -> Draw)
    ensures Assemble(ls, fetch, rand).Success? <==> NoneRejected(ls, fetch)
    decreases |ls|
  {
    if ls != [] {
      var init, last := ls[..|ls| - 1], ls[|ls| - 1];
      AssembleSucceeds(init, fetch, rand);
      assert forall k :: 0 <= k < |init| ==> init[k] == ls[k];
    }
  }

  /**
   * When no league's request throws, the result is every league's events,
   * in league order and each league's own order, mapped to games: the game
   * at position `k` is made from the `k`-th event with draws `4k .. 4k+3`.
   */
  lemma {:induction false} AssembleSpec(ls: seq<League>, fetch: string -> Response, rand: nat -> Draw)
    requires NoneRejected(ls, fetch)
    ensures Assemble(ls, fetch, rand) == Success(MapEvents(AllEvents(ls, fetch), rand, 0))
    decreases |ls|
  {
    if ls != [] {
      var init, last := ls[..|ls| - 1], ls[|ls| - 1];
      assert forall k :: 0 <= k < |init| ==> init[k] == ls[k];
      AssembleSpec(init, fetch, rand);
      var before := AllEvents(init, fetch);
      var es := Received(fetch, last.id);
      ReceivedIsFetched(fetch, last.id);
      assert ls == init + [last];
      AssembleSnoc(init, last, fetch, rand);
      assert AllEvents(ls, fetch) == before + es;
      MapEventsAppend(before, es, rand, 0);
    }
  }

  /** When the walk fails, it fails with the first league, in order, whose request throws. */
  lemma {:induction false} AssembleFailure(ls: seq<League>, fetch: string -> Response, rand: nat -> Draw)
    requires Assemble(ls, fetch, rand).Failure?
    ensures exists k :: (0 <= k < |ls| && fetch(ls[k].id).Rejected?
      && Assemble(ls, fetch, rand).error == FetchFailed(ls[k].id)
      && forall j :: 0 <= j < k ==> !fetch(ls[j].id).Rejected?)
    decreases |ls|
  {
    var init, last := ls[..|ls| - 1], ls[|ls| - 1];
    assert forall k :: 0 <= k < |init| ==> init[k] == ls[k];
    if Assemble(init, fetch, rand).Failure? {
      AssembleFailure(init, fetch, rand);
      var k :| 0 <= k < |init| && fetch(init[k].id).Rejected?
        && Assemble(init, fetch, rand).error == FetchFailed(init[k].id)
        && forall j :: 0 <= j < k ==> !fetch(init[j].id).Rejected?;
      assert ls[k] == init[k];
    } else {
      AssembleSucceeds(init, fetch, rand);
      var k := |ls| - 1;
      assert fetch(ls[k].id).Rejected?;
      assert forall j :: 0 <= j < k ==> !fetch(ls[j].id).Rejected?;
    }
  }

  lemma {:induction false} EventCountSnoc(ls: seq<League>, l: League, fetch: string -> Response)
    ensures EventCount(ls + [l], fetch) == EventCount(ls, fetch) + |Received(fetch, l.id)|
    decreases |ls|
  {
    if ls != [] {
      assert (ls + [l])[1..] == ls[1..] + [l];
      EventCountSnoc(ls[1..], l, fetch);
    } else {
      assert ([l])[1..] == [];
    }
  }

  /** The number of games is the sum of the per-league event counts. */
  lemma {:induction false} AssembleLength(ls: seq<League>, fetch: string -> Response, rand: nat -> Draw)
    requires Assemble(ls, fetch, rand).Success?
    ensures |Assemble(ls, fetch, rand).value| == EventCount(ls, fetch)
  {
    AssembleSucceeds(ls, fetch, rand);
    AssembleSpec(ls, fetch, rand);
    AllEventsCount(ls, fetch);
  }

  lemma {:induction false} AllEventsCount(ls: seq<League>, fetch: string -> Response)
    ensures |AllEvents(ls, fetch)| == EventCount(ls, fetch)
    decreases |ls|
  {
    if ls != [] {
      var init, last := ls[..|ls| - 1], ls[|ls| - 1];
      assert ls == init + [last];
      AllEventsCount(init, fetch);
      EventCountSnoc(init, last, fetch);
    }
  }

  /** The events of the first `n` leagues are a prefix of the events of all of them. */
  lemma {:induction false} AllEventsPrefix(ls: seq<League>, n: nat, fetch: string -> Response)
    requires n <= |ls|
    ensures AllEvents(ls[..n], fetch) <= AllEvents(ls, fetch)
    decreases |ls|
  {
    if n < |ls| {
      var init := ls[..|ls| - 1];
      assert init[..n] == ls[..n];
      AllEventsPrefix(init, n, fetch);
    } else {
      assert ls[..n] == ls;
    }
  }

  /** The games made from a run of events inside a longer list are the matching run of games. */
  lemma MapEventsSlice(before: seq<RawEvent>, es: seq<RawEvent>, all: seq<RawEvent>, rand: nat -> Draw)
    requires before + es <= all
    ensures |before| + |es| <= |MapEvents(all, rand, 0)|
    ensures MapEvents(all, rand, 0)[|before|..|before| + |es|] == MapEvents(es, rand, |before|)
  {
  }

  /**
   * League `k`'s games form one block of the result, right after the games
   * of the leagues before it, in the order of that league's events.
   */
  lemma LeagueBlock(ls: seq<League>, fetch: string -> Response, rand: nat -> Draw, k: nat)
    requires k < |ls|
    requires Assemble(ls, fetch, rand).Success?
    ensures var gs := Assemble(ls, fetch, rand).value;
      var start := |AllEvents(ls[..k], fetch)|;
      var es := Received(fetch, ls[k].id);
      && start + |es| <= |gs|
      && gs[start..start + |es|] == MapEvents(es, rand, start)
  {
    AssembleSucceeds(ls, fetch, rand);
    AssembleSpec(ls, fetch, rand);
    AllEventsPrefix(ls, k + 1, fetch);
    assert ls[..k + 1][..k] == ls[..k];
    assert AllEvents(ls[..k + 1], fetch) == AllEvents(ls[..k], fetch) + Received(fetch, ls[k].id);
    MapEventsSlice(AllEvents(ls[..k], fetch), Received(fetch, ls[k].id), AllEvents(ls, fetch), rand);
  }

  /** A league whose request is not OK or brings no events can be removed without changing the result. */
  lemma {:induction false} SilentLeague(a: seq<League>, l: League, b: seq<League>, fetch: string -> Response, rand: nat -> Draw)
    requires fetch(l.id).NotOk? || fetch(l.id) == OkJson(None) || fetch(l.id) == OkJson(Some([]))
    ensures Assemble(a + [l] + b, fetch, rand) == Assemble(a + b, fetch, rand)
    decreases |b|
  {
    if b == [] {
      assert a + [l] + b == a + [l];
      assert a + b == a;
      AssembleSnoc(a, l, fetch, rand);
      if Assemble(a, fetch, rand).Success? {
        var prev := Assemble(a, fetch, rand).value;
        assert MapEvents([], rand, |prev|) == [];
        assert prev + [] == prev;
      }
    } else {
      var b', x := b[..|b| - 1], b[|b| - 1];
      assert a + [l] + b == (a + [l] + b') + [x];
      assert a + b == (a + b') + [x];
      SilentLeague(a, l, b', fetch, rand);
      AssembleSnoc(a + [l] + b', x, fetch, rand);
      AssembleSnoc(a + b', x, fetch, rand);
    }
  }

  /**
   * Source isolation: when every league but the NBA answers with a status
   * that is not OK and the NBA answers with two events, the result is
   * exactly the two games made from them.
   */
  lemma OnlyOneLeagueAnswers(fetch: string -> Response, rand: nat -> Draw, e1: RawEvent, e2: RawEvent)
    requires fetch("4380") == OkJson(Some([e1, e2]))
    requires fetch("4387").NotOk? && fetch("4381").NotOk? && fetch("4391").NotOk? && fetch("4328").NotOk?
    ensures Assemble(Leagues, fetch, rand) == Success([MakeGame(e1, rand, 0), MakeGame(e2, rand, 4)])
  {
    assert NoneRejected(Leagues, fetch);
    AssembleSpec(Leagues, fetch, rand);
    assert AllEvents(Leagues[..1], fetch) == [] by {
      assert Leagues[..1][..0] == [];
    }
    assert AllEvents(Leagues[..2], fetch) == [e1, e2] by {
      assert Leagues[..2][..1] == Leagues[..1];
    }
    assert AllEvents(Leagues[..3], fetch) == [e1, e2] by {
      assert Leagues[..3][..2] == Leagues[..2];
    }
    assert AllEvents(Leagues[..4], fetch) == [e1, e2] by {
      assert Leagues[..4][..3] == Leagues[..3];
    }
    assert AllEvents(Leagues, fetch) == [e1, e2] by {
      assert Leagues[..4] == Leagues[..|Leagues| - 1];
    }
    assert MapEvents([e1, e2], rand, 0) == [MakeGame(e1, rand, 0), MakeGame(e2, rand, 4)] by {
      assert FirstDraw(0) == 0 && FirstDraw(1) == 4;
    }
  }
}
