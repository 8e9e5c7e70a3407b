/**
 * The `/api/game/:id` handler: assemble all games, then return the first
 * one whose id is the requested id, or report that there is none.
 */
module Lookup {
  import opened Wrappers
  import opened Games
  import opened Assembly

  /** `games.find(g => g.id === id)`: strict equality holds only for an id that is the string `id`. */
  function Find(games: seq<Game>, id: string): (r: Option<Game>)
    ensures r.None? <==> forall k :: 0 <= k < |games| ==> games[k].id != Str(id)
    ensures r.Some? ==> exists k :: (0 <= k < |games| && games[k] == r.value && r.value.id == Str(id)
      && forall j :: 0 <= j < k ==> games[j].id != Str(id))
  {
    if games == [] then None
    else if games[0].id == Str(id) then Some(games[0])
    else
      var r := Find(games[1..], id);
      assert forall k :: 1 <= k < |games| ==> games[k] == games[1..][k - 1];
      r
  }

  /** What the handler answers: the game (200), not found (404), or a failure to fetch (500). */
  datatype Reply = Found(game: Game) | NotFound | ServerError

  /** The handler's answer as a function of the inputs. */
  function GameReply(fetch: string -> Response, rand: nat -> Draw, id: string): Reply
  {
    match Assemble(Leagues, fetch, rand)
    case Failure(_) => ServerError
    case Success(games) =>
      match Find(games, id)
      case None => NotFound
      case Some(g) => Found(g)
  }

  /** The handler: `fetchAllGames()` (which may throw), then `find`. */
  method GetGame(fetch: string -> Response, rand: nat -> Draw, id: string) returns (reply: Reply)
    ensures reply == GameReply(fetch, rand, id)
  {
    var games := FetchAllGames(fetch, rand);
    if games.Failure? {
      return ServerError;
    }
    var game := Find(games.value, id);
    if game.None? {
      return NotFound;
    }
    reply := Found(game.value);
  }

  /** Finding among the games made from `es` is finding the first event with that id. */
  lemma FindMapped(es: seq<RawEvent>, rand: nat -> Draw, id: string)
    ensures Find(MapEvents(es, rand, 0), id).None? <==> forall k :: 0 <= k < |es| ==> es[k].idEvent != Str(id)
    ensures Find(MapEvents(es, rand, 0), id).Some? ==>
      exists k :: (0 <= k < |es| && es[k].idEvent == Str(id)
        && Find(MapEvents(es, rand, 0), id).value == MakeGame(es[k], rand, FirstDraw(k))
        && forall j :: 0 <= j < k ==> es[j].idEvent != Str(id))
  {
    var games := MapEvents(es, rand, 0);
    assert forall k :: 0 <= k < |es| ==> games[k].id == es[k].idEvent;
    var r := Find(games, id);
    if r.Some? {
      var k :| 0 <= k < |games| && games[k] == r.value && r.value.id == Str(id)
        && forall j :: 0 <= j < k ==> games[j].id != Str(id);
      assert games[k] == MakeGame(es[k], rand, FirstDraw(k));
    }
  }

  /**
   * The handler fails exactly when some league's request throws; otherwise
   * it finds a game exactly when some event has the requested id, and the
   * game it finds is the one made from the first such event, in league
   * order, at that event's position `k` (so with draws `4k .. 4k+3`).
   */
  lemma GameReplySpec(fetch: string -> Response, rand: nat -> Draw, id: string)
    ensures GameReply(fetch, rand, id).ServerError? <==> !NoneRejected(Leagues, fetch)
    ensures NoneRejected(Leagues, fetch) ==>
      var es := AllEvents(Leagues, fetch);
      && (GameReply(fetch, rand, id).NotFound? <==> forall k :: 0 <= k < |es| ==> es[k].idEvent != Str(id))
      && (GameReply(fetch, rand, id).Found? ==>
            exists k :: (0 <= k < |es| && es[k].idEvent == Str(id)
              && GameReply(fetch, rand, id).game == MakeGame(es[k], rand, FirstDraw(k))
              && forall j :: 0 <= j < k ==> es[j].idEvent != Str(id)))
  {
    AssembleSucceeds(Leagues, fetch, rand);
    if NoneRejected(Leagues, fetch) {
      AssembleSpec(Leagues, fetch, rand);
      FindMapped(AllEvents(Leagues, fetch), rand, id);
    }
  }
}
