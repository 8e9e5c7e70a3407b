/**
 * The backend's data: the raw events the schedule provider (TheSportsDB)
 * returns, the game records the server builds from them, the fixed list of
 * stream servers and of leagues, and the mapping of one raw event to one game
 * with one placeholder stream per stream server.
 */
module Games {
  import opened Wrappers
  import opened JsText

  /** An attribute of a parsed JSON event as JavaScript sees it: missing, `null`, or a string. */
  datatype Field = Absent | Null | Str(s: string)

  /** JavaScript truthiness of an attribute: only a non-empty string is truthy. */
  predicate Truthy(f: Field) { f.Str? && f.s != "" }

  /** What a template literal `${f}` renders for an attribute. */
  function Render(f: Field): string
  {
    match f
    case Absent => "undefined"
    case Null => "null"
    case Str(s) => s
  }

  /** One element of the provider's `events` array (the attributes the server reads). */
  datatype RawEvent = RawEvent(
    idEvent: Field,
    strHomeTeam: Field,
    strAwayTeam: Field,
    strLeague: Field,
    strTimestamp: Field,
    dateEvent: Field,
    strTime: Field,
    strStatus: Field)

  datatype Quality = HD | SD

  /** A placeholder stream attached to a game; `server` is Absent where the host would be `undefined`. */
  datatype Stream = Stream(id: string, url: string, quality: Quality, server: Field, isWorking: bool)

  /** The canonical game record the server returns. */
  datatype Game = Game(
    id: Field,
    homeTeam: Field,
    awayTeam: Field,
    league: Field,
    startTime: string,
    status: string,
    homeScore: int,
    awayScore: int,
    homeLogo: string,
    awayLogo: string,
    streams: seq<Stream>)

  datatype League = League(id: string, name: string)

  /** URL prefixes of the embed servers every game gets a stream on, in order. */
  const StreamServers: seq<string> := [
    "https://streamwish.net/e/",
    "https://ok.ru/videoembed/",
    "https://daddylivehd.sx/embed/",
    "https://vidsrc.to/embed/"
  ]

  /** Hosts of the stream servers, written out independently of the prefixes above. */
  const ServerHosts: seq<string> := ["streamwish.net", "ok.ru", "daddylivehd.sx", "vidsrc.to"]

  /** The leagues queried, in the order their games appear in the result. */
  const Leagues: seq<League> := [
    League("4387", "NFL"),
    League("4380", "NBA"),
    League("4381", "NHL"),
    League("4391", "UFC"),
    League("4328", "English Premier League")
  ]

  const Placeholder: string := "/placeholder.svg"
  const DefaultStatus: string := "scheduled"

  /** The least number a stream URL can end in. */
  const UrlNumberBase: nat := 10000

  /**
   * `Math.floor(Math.random() * 90000)`: Math.random() is in [0, 1), so
   * the drawn integer is in [0, 90000).
   */
  type Draw = r: int | 0 <= r < 90000

  /** `s.split('/')[2]`. */
  function Host(s: string): Field
  {
    match Segment(s, '/', 2)
    case None => Absent
    case Some(h) => Str(h)
  }

  /** The host of one stream server prefix `https://host/path`. */
  lemma PrefixHost(host: string, path: string)
    requires '/' !in host
    ensures Host("https:" + "//" + host + "/" + path) == Str(host)
  {
    HostSegment("https:", host, path);
  }

  lemma StreamwishHost()
    ensures Host(StreamServers[0]) == Str(ServerHosts[0])
  {
    assert StreamServers[0] == "https:" + "//" + "streamwish.net" + "/" + "e/";
    PrefixHost("streamwish.net", "e/");
  }

  lemma OkRuHost()
    ensures Host(StreamServers[1]) == Str(ServerHosts[1])
  {
    assert StreamServers[1] == "https:" + "//" + "ok.ru" + "/" + "videoembed/";
    PrefixHost("ok.ru", "videoembed/");
  }

  lemma DaddyliveHost()
    ensures Host(StreamServers[2]) == Str(ServerHosts[2])
  {
    assert StreamServers[2] == "https:" + "//" + "daddylivehd.sx" + "/" + "embed/";
    PrefixHost("daddylivehd.sx", "embed/");
  }

  lemma VidsrcHost()
    ensures Host(StreamServers[3]) == Str(ServerHosts[3])
  {
    assert StreamServers[3] == "https:" + "//" + "vidsrc.to" + "/" + "embed/";
    PrefixHost("vidsrc.to", "embed/");
  }

  /** Stream server `i`'s host is `ServerHosts[i]` (one lemma per server keeps each proof small). */
  lemma StreamServerHost(i: nat)
    requires i < |StreamServers|
    ensures |ServerHosts| == |StreamServers| == 4
    ensures Host(StreamServers[i]) == Str(ServerHosts[i])
  {
    if i == 0 { StreamwishHost(); }
    else if i == 1 { OkRuHost(); }
    else if i == 2 { DaddyliveHost(); }
    else { VidsrcHost(); }
  }

  /** The stream on server prefix `server`, at index `i`, of the event with id `eventId`, given its random draw. */
  function MakeStream(eventId: Field, server: string, i: nat, draw: Draw): Stream
  {
    Stream(
      Render(eventId) + "_" + Decimal(i),
      server + Decimal(UrlNumberBase + draw),
      if i == 0 then HD else SD,
      Host(server),
      true)
  }

  /**
   * `servers.map((s, i) => ...)` for one event: stream `i` uses the draw
   * `rand(first + i)`, where `first` counts the draws made before this event.
   */
  function MakeStreams(eventId: Field, servers: seq<string>, rand: nat -> Draw, first: nat): seq<Stream>
  {
    seq(|servers|, i requires 0 <= i < |servers| => MakeStream(eventId, servers[i], i, rand(first + i)))
  }

  /** The game record built from one raw event. */
  function MakeGame(e: RawEvent, rand: nat -> Draw, first: nat): Game
  {
    Game(
      e.idEvent,
      e.strHomeTeam,
      e.strAwayTeam,
      e.strLeague,
      if Truthy(e.strTimestamp) then e.strTimestamp.s else Render(e.dateEvent) + " " + Render(e.strTime),
      if Truthy(e.strStatus) then e.strStatus.s else DefaultStatus,
      0,
      0,
      Placeholder,
      Placeholder,
      MakeStreams(e.idEvent, StreamServers, rand, first))
  }

  /** Stream `i` of a list is the one built for server `i` with draw `first + i`. */
  lemma StreamsAt(eventId: Field, servers: seq<string>, rand: nat -> Draw, first: nat, i: nat)
    requires i < |servers|
    ensures |MakeStreams(eventId, servers, rand, first)| == |servers|
    ensures MakeStreams(eventId, servers, rand, first)[i] == MakeStream(eventId, servers[i], i, rand(first + i))
  {
  }

  /** Stream `i` of a game is the one built for stream server `i` with draw `first + i`. */
  lemma StreamAt(e: RawEvent, rand: nat -> Draw, first: nat, i: nat)
    requires i < |StreamServers|
    ensures |MakeGame(e, rand, first).streams| == |StreamServers|
    ensures MakeGame(e, rand, first).streams[i] == MakeStream(e.idEvent, StreamServers[i], i, rand(first + i))
  {
    StreamsAt(e.idEvent, StreamServers, rand, first, i);
  }

  /** The attributes of a game and where each comes from. */
  lemma GameFields(e: RawEvent, rand: nat -> Draw, first: nat)
    ensures var g := MakeGame(e, rand, first);
      && g.id == e.idEvent
      && g.homeTeam == e.strHomeTeam && g.awayTeam == e.strAwayTeam && g.league == e.strLeague
      && (Truthy(e.strTimestamp) ==> g.startTime == e.strTimestamp.s)
      && (!Truthy(e.strTimestamp) ==> g.startTime == Render(e.dateEvent) + " " + Render(e.strTime))
      && (Truthy(e.strStatus) ==> g.status == e.strStatus.s)
      && (!Truthy(e.strStatus) ==> g.status == "scheduled")
      && g.homeScore == 0 && g.awayScore == 0
      && g.homeLogo == "/placeholder.svg" && g.awayLogo == "/placeholder.svg"
  {
  }

  /**
   * Every game carries exactly one stream per stream server, in server order:
   * stream `i` is on the host of server `i`, is marked working, and is HD
   * exactly when it is the first.
   */
  lemma GameStreams(e: RawEvent, rand: nat -> Draw, first: nat)
    ensures var ss := MakeGame(e, rand, first).streams;
      && |ss| == |StreamServers| == 4
      && forall i :: 0 <= i < |ss| ==>
           && ss[i].server == Str(ServerHosts[i])
           && ss[i].isWorking
           && (ss[i].quality == HD <==> i == 0)
  {
    var ss := MakeGame(e, rand, first).streams;
    forall i | 0 <= i < |ss|
      ensures ss[i].server == Str(ServerHosts[i]) && ss[i].isWorking && (ss[i].quality == HD <==> i == 0)
    {
      StreamAt(e, rand, first, i);
      StreamServerHost(i);
    }
  }

  /**
   * Stream `i`'s URL is server `i`'s prefix followed by five decimal digits
   * that denote `10000` plus the draw, a number in [10000, 99999].
   */
  lemma StreamUrl(e: RawEvent, rand: nat -> Draw, first: nat, i: nat)
    requires i < |StreamServers|
    ensures var url := MakeGame(e, rand, first).streams[i].url;
      && |url| == |StreamServers[i]| + 5
      && url[..|StreamServers[i]|] == StreamServers[i]
      && AllDigits(url[|StreamServers[i]|..])
      && DecimalValue(url[|StreamServers[i]|..]) == 10000 + rand(first + i)
      && 10000 <= DecimalValue(url[|StreamServers[i]|..]) <= 99999
  {
    var n := UrlNumberBase + rand(first + i);
    StreamAt(e, rand, first, i);
    var st := MakeGame(e, rand, first).streams[i];
    var url := st.url;
    assert url == StreamServers[i] + Decimal(n);
    assert url[|StreamServers[i]|..] == Decimal(n);
    assert Pow10(5) == 100000;
    DecimalLength(n, 5);
    DecimalRoundTrip(n);
  }

  /** Stream `i`'s id is the event id rendered, `_`, and the index `i` as its single decimal digit. */
  lemma StreamId(e: RawEvent, rand: nat -> Draw, first: nat, i: nat)
    requires i < |StreamServers|
    ensures var id := MakeGame(e, rand, first).streams[i].id;
      && |id| == |Render(e.idEvent)| + 2
      && id[..|Render(e.idEvent)|] == Render(e.idEvent)
      && id[|Render(e.idEvent)|] == '_'
      && AllDigits(id[|Render(e.idEvent)| + 1..])
      && DecimalValue(id[|Render(e.idEvent)| + 1..]) == i
  {
    StreamAt(e, rand, first, i);
  }

  /** In `a + "_" + x` with `x` all digits, the last `_` is the one after `a`. */
  lemma DigitTailLength(a: string, x: string, b: string, y: string)
    requires AllDigits(x) && AllDigits(y)
    requires a + "_" + x == b + "_" + y
    ensures |x| == |y|
  {
    var s := a + "_" + x;
    assert s[|a|] == '_' && s[|b|] == '_';
  }

  /**
   * Stream ids of the form `${event}_${index}` determine both the event id
   * and the index: the last `_` separates them, as the index has no `_`.
   */
  lemma StreamIdInjective(a: string, i: nat, b: string, j: nat)
    requires a + "_" + Decimal(i) == b + "_" + Decimal(j)
    ensures a == b && i == j
  {
    var s := a + "_" + Decimal(i);
    var x, y := Decimal(i), Decimal(j);
    DigitTailLength(a, x, b, y);
    assert x == s[|s| - |x|..] == y;
    assert a == s[..|a|] == b;
    DecimalInjective(i, j);
  }

  /** The streams of one game have pairwise distinct ids. */
  lemma StreamIdsDistinct(e: RawEvent, rand: nat -> Draw, first: nat, i: nat, j: nat)
    requires i < |StreamServers| && j < |StreamServers| && i != j
    ensures MakeGame(e, rand, first).streams[i].id != MakeGame(e, rand, first).streams[j].id
  {
    var p := Render(e.idEvent);
    StreamAt(e, rand, first, i);
    StreamAt(e, rand, first, j);
    if p + "_" + Decimal(i) == p + "_" + Decimal(j) {
      StreamIdInjective(p, i, p, j);
    }
  }

  /** Games built from events with different rendered ids share no stream id. */
  lemma StreamIdsAcrossGames(e1: RawEvent, first1: nat, e2: RawEvent, first2: nat, rand: nat -> Draw, i: nat, j: nat)
    requires Render(e1.idEvent) != Render(e2.idEvent)
    requires i < |StreamServers| && j < |StreamServers|
    ensures MakeGame(e1, rand, first1).streams[i].id != MakeGame(e2, rand, first2).streams[j].id
  {
    StreamAt(e1, rand, first1, i);
    StreamAt(e2, rand, first2, j);
    if Render(e1.idEvent) + "_" + Decimal(i) == Render(e2.idEvent) + "_" + Decimal(j) {
      StreamIdInjective(Render(e1.idEvent), i, Render(e2.idEvent), j);
    }
  }
}
