# Live-games backend: game assembly and lookup

This project models the core of a small Express backend (`server.js`) that
lists today's games of five leagues for a live-streaming front end. Its
logic has three parts:

- **League fetch fallback** (`fetchLeagueGames`). A league with an HTTP
  status that is not OK, or whose body has no `events` (missing or `null`),
  contributes no events. A request that throws is not caught there.
- **Game assembly** (`fetchAllGames`). The leagues NFL, NBA, NHL, UFC and
  English Premier League are asked in that order. Each raw event becomes a
  game record that gets one placeholder stream per embed server (streamwish,
  ok.ru, daddylivehd, vidsrc). The games are appended to one list.
- **Single-game lookup** (`/api/game/:id`). Assemble everything, then answer
  with the first game whose `id` is the requested id, or "not found".

The network is an input. `fetch: string -> Response` says how the request
for each league id went:

- `Rejected`: the request, or the parsing of its body, threw.
- `NotOk`: the HTTP status was not OK.
- `OkJson(events)`: the body parsed. `events` is `None` when the field is
  missing or `null`.

`Math.random()` is an input too. `rand: nat -> Draw` gives the `k`-th value
of `Math.floor(Math.random() * 90000)` drawn by one call of `fetchAllGames`,
so its values lie in [0, 90000). Game number `k` in the result uses draws
`4k` to `4k+3`, one per server.

Event attributes are JSON values as JavaScript sees them:
`Field = Absent | Null | Str(s)`.

- `a || b` keeps `a` only for a non-empty string (`Truthy`).
- A template literal renders `Absent` as `undefined` and `Null` as `null`
  (`Render`).
- `g.id === req.params.id` holds only for `Str(id)`.

Modules: `Wrappers` (Option, Result), `JsText` (`split`, `join`, decimal
rendering of numbers), `Games` (records, constants, the per-event mapping),
`Assembly` (`fetchLeagueGames`, `fetchAllGames` and the properties of the
assembled list), and `Lookup` (`find` and the game handler).

Three facts about `server.js`:

- A request that throws is not caught in `fetchLeagueGames` (server.js:28-35).
  It propagates out of `fetchAllGames`, and the game handler answers 500
  (server.js:85-88). Only a non-OK status and a body without `events` make a
  league contribute no games.
- `status` is `strStatus || 'scheduled'` (server.js:57). It is not derived
  from the start time.
- Both scores are the constant `0` (server.js:58-59).

## Model

| member | source | states |
|---|---|---|
| JsText.Split | server.js:47 | `s.split(sep)` always has at least one piece |
| JsText.SplitPiecesFree | server.js:47 | no piece of a split contains the separator |
| JsText.JoinSplit | server.js:47 | joining the pieces of a split with the separator gives back the string |
| JsText.SplitJoin | server.js:47 | splitting the join of separator-free pieces gives back the pieces (the other round trip) |
| JsText.SegmentFree | server.js:47 | `s.split(sep)[n]` is defined exactly when there are more than `n` pieces, and holds no separator |
| JsText.HostSegment | server.js:47 | for `scheme//host/path` with no `/` in scheme or host, `split('/')[2]` is the host |
| JsText.Decimal | server.js:45 | rendering a non-negative integer gives a non-empty all-digit string, without a leading zero unless the number is 0 |
| JsText.DecimalRoundTrip | server.js:45 | reading a rendered number back as decimal digits gives the number |
| JsText.DecimalInjective | server.js:44 | distinct numbers render differently |
| JsText.DecimalLength | server.js:45 | a number with `k` digits renders with exactly `k` characters |
| Games.PrefixHost | server.js:47 | the host of a prefix `https://host/path` is `host` |
| Games.StreamwishHost | server.js:12 | the host of the first stream server is `streamwish.net` |
| Games.OkRuHost | server.js:13 | `'https://ok.ru/videoembed/'.split('/')[2]` is `ok.ru` |
| Games.DaddyliveHost | server.js:14 | the host of the third stream server is `daddylivehd.sx` |
| Games.VidsrcHost | server.js:15 | the host of the fourth stream server is `vidsrc.to` |
| Games.StreamServerHost | server.js:11-16 | there are four stream servers, and server `i` has the `i`-th of the hosts listed independently |
| Games.GameFields | server.js:51-61 | `id` and the team and league names are copied; `startTime` is `strTimestamp` when it is a non-empty string, else `dateEvent + ' ' + strTime`; `status` is `strStatus` when non-empty, else `'scheduled'`; scores are 0; logos are `/placeholder.svg` |
| Games.GameStreams | server.js:43-49 | every game has exactly 4 streams in server order; stream `i` is on host `i`, is working, and is HD exactly when `i == 0` |
| Games.StreamUrl | server.js:45 | stream `i`'s URL is server `i`'s prefix followed by five digits denoting `10000 + draw`, a number in [10000, 99999] |
| Games.StreamId | server.js:44 | stream `i`'s id is exactly the rendered event id, `_`, then the single digit denoting `i` (the id is two characters longer than the rendered event id) |
| Games.StreamIdInjective | server.js:44 | an id `${event}_${index}` determines both the event id and the index |
| Games.StreamIdsDistinct | server.js:44 | the streams of one game have pairwise distinct ids |
| Games.StreamIdsAcrossGames | server.js:44 | games whose event ids render differently share no stream id |
| Assembly.FetchLeagueGames | server.js:28-35 | a non-OK status or a body without events gives no events; otherwise the body's events; a request that throws fails with that league's id |
| Assembly.PushLeagueGames | server.js:41-64 | the `forEach` appends, in event order, the game made from each event, numbered after those already collected |
| Assembly.FetchAllGames | server.js:37-67 | the loop's result equals `Assemble` over the five leagues in order |
| Assembly.PrefixFailurePersists | server.js:40 | once a league's request throws, the whole call fails with that error |
| Assembly.AssembleSucceeds | server.js:32-34 | the assembly succeeds exactly when no league's request throws (non-OK and event-less leagues do not make it fail) |
| Assembly.AssembleSpec | server.js:37-67 | on success, the result is every league's events concatenated in league order (each league's own order kept), mapped to games; game `k` gets draws `4k..4k+3` |
| Assembly.AssembleFailure | server.js:39-40 | a failure carries the id of the first league, in order, whose request threw |
| Assembly.AssembleLength | server.js:38-66 | the number of games is the sum of the per-league event counts |
| Assembly.LeagueBlock | server.js:39-64 | league `k`'s games are one contiguous block right after the games of the leagues before it, in that league's event order |
| Assembly.SilentLeague | server.js:32-34 | a league whose request is not OK or brings no events can be removed from the list without changing the result |
| Assembly.OnlyOneLeagueAnswers | server.js:18-24 | when only the NBA answers, with two events, and the rest are not OK, the result is exactly those two games |
| Lookup.Find | server.js:82 | `find` yields nothing exactly when no game's id is the string `id`; otherwise it yields the first game with that id |
| Lookup.FindMapped | server.js:82 | finding among mapped games is finding the first event with that id and mapping it |
| Lookup.GetGame | server.js:79-89 | the handler's answer equals `GameReply`: a failure to fetch, not found, or the game found |
| Lookup.GameReplySpec | server.js:81-83 | the handler fails exactly when a league's request throws; otherwise it finds a game exactly when some event has the id, and then it is the game made from the first such event |

## Left out

- Express setup, CORS, the port and `app.listen` (server.js:2-9, 91-93): framework and process plumbing.
- The `/api/live-games` handler (server.js:69-77): it only serialises the result of `fetchAllGames`, or a 500 body.
- JSON response bodies and status codes, and the `try`/`catch` around each handler: the lookup's three outcomes are kept as `Reply` values, without HTTP serialisation.
- The real `fetch`, JSON parsing, the request URL with the API key, and "today" from the clock (server.js:29-31): network and clock I/O, replaced by the `fetch` input.
- `Math.random()` (server.js:45): floating-point randomness, replaced by the bounded integer draws of `rand`.
- `console.error` and `console.log`: logging, with no effect on results.
- Event attributes that are numbers, booleans or objects, and an `events` value that is not an array: the model admits strings, `null` and missing attributes, and a sequence of events or none. An element of `events` that is a number, string or boolean reads every attribute as `undefined`, so it is covered by the event whose attributes are all `Absent`.
- An `events` array holding `null`: reading `event.idEvent` (server.js:42) then throws, `fetchAllGames` rejects and the game handler answers 500. The model's events are always records, so this error path is not modelled; its only `ServerError` is a league whose request is `Rejected`.
- The thrown error object: `FetchFailed(leagueId)` records which league's request threw, where the code rethrows whatever error object `fetch` or `res.json()` produced, which carries no league id. The model only says which league's await threw, not what the error holds.
- A body that parses to a value on which `data.events` itself throws, such as `null`: this counts as `Rejected`, with the same outcome as any other throw.
- The `await`s (server.js:31, 33, 40): while one call waits, Node can serve other requests, including another `fetchAllGames` drawing from the same `Math.random` generator. `rand(k)` is therefore this call's `k`-th draw, not the generator's `k`-th value. Nothing else is shared between calls, and `rand` is an arbitrary input, so every property holds under any interleaving; the model does not describe the interleaving itself.
