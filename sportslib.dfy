/**
 * The shared base class of the plaintextsports cogs (sportslib/base.py):
 * the per-sport configuration, the season year, the team-info formatter,
 * `fetch_games` (section locator, round label and the day-bucketed walk of
 * module Extractor with a 30-game cap), and what `show_games`, `show_day`
 * and `build_day_embed` produce from its result.
 */
module Sportslib {
  import opened Text
  import opened GameBox
  import opened Extractor
  import opened Chunks

  /** A sport's settings. The embed colour and the site's base URL are not
      part of the model. */
  datatype SportConfig = SportConfig(
    name: string,
    slug: string,
    fullName: string,
    otherLeagues: seq<string>,
    seasonStartMonth: int)

  const NhlConfig: SportConfig := SportConfig("NHL", "nhl", "National Hockey League",
    ["National Football League", "National Basketball", "Major League Baseball", "Major League Soccer"], 9)

  const NbaConfig: SportConfig := SportConfig("NBA", "nba", "National Basketball Association",
    ["National Football League", "National Hockey League", "Major League Baseball", "Major League Soccer"], 10)

  const MlbConfig: SportConfig := SportConfig("MLB", "mlb", "Major League Baseball",
    ["National Football League", "National Basketball", "National Hockey League", "Major League Soccer"], 3)

  /** `get_current_season_year`, with the clock's year and month passed in:
      the season that started in `year` when its start month has been
      reached, the one that started the year before otherwise. */
  function SeasonYear(sport: SportConfig, year: int, month: int): (r: int)
    ensures r == year <==> month >= sport.seasonStartMonth
    ensures r == year || r == year - 1
  {
    if month >= sport.seasonStartMonth then year else year - 1
  }

  /** A later date never belongs to an earlier season. */
  lemma SeasonYearMonotone(sport: SportConfig, y1: int, m1: int, y2: int, m2: int)
    requires 1 <= m1 <= 12 && 1 <= m2 <= 12 && 1 <= sport.seasonStartMonth <= 12
    requires y1 < y2 || (y1 == y2 && m1 <= m2)
    ensures SeasonYear(sport, y1, m1) <= SeasonYear(sport, y2, m2)
  {
  }

  // ---------------------------------------------------------------------------
  // team info

  function Bold(s: string): string
  {
    "**" + s + "**"
  }

  /** `format_team_info`: the display shape chosen from the whitespace
      tokens. Seed-team-record and team-record become the bold team and the
      record in parentheses, team-score the bold team and the score, a lone
      token the bold token; any other shape is returned unchanged. */
  function FormatTeamInfo(teamStr: string): (r: string)
    ensures var p := Words(teamStr);
      && (|p| == 3 && IsDigits(p[0]) ==> r == Bold(p[1]) + " *(" + p[2] + ")*")
      && (|p| == 3 && !IsDigits(p[0]) ==> r == teamStr)
      && (|p| == 2 && '-' in p[1] ==> r == Bold(p[0]) + " *(" + p[1] + ")*")
      && (|p| == 2 && '-' !in p[1] && IsDigits(p[1]) ==> r == Bold(p[0]) + " " + p[1])
      && (|p| == 2 && '-' !in p[1] && !IsDigits(p[1]) ==> r == teamStr)
      && (|p| == 1 ==> r == Bold(p[0]))
      && (|p| == 0 || |p| > 3 ==> r == teamStr)
  {
    var parts := Words(teamStr);
    if |parts| == 3 && IsDigits(parts[0]) then Bold(parts[1]) + " *(" + parts[2] + ")*"
    else if |parts| == 2 && '-' in parts[1] then Bold(parts[0]) + " *(" + parts[1] + ")*"
    else if |parts| == 2 && IsDigits(parts[1]) then Bold(parts[0]) + " " + parts[1]
    else if |parts| == 1 then Bold(parts[0])
    else teamStr
  }

  lemma WordsOfTwo(a: string, b: string)
    requires IsWord(a) && IsWord(b)
    ensures Words(a + " " + b) == [a, b]
  {
    assert Join([a, b], " ") == a + " " + b by {
      assert [a, b][1..] == [b];
    }
    WordsOfJoin([a, b]);
  }

  lemma WordsOfThree(a: string, b: string, c: string)
    requires IsWord(a) && IsWord(b) && IsWord(c)
    ensures Words(a + " " + b + " " + c) == [a, b, c]
  {
    assert Join([a, b, c], " ") == a + " " + b + " " + c by {
      assert [a, b, c][1..] == [b, c];
      assert [b, c][1..] == [c];
      assert Join([b, c], " ") == b + " " + c;
      assert Join([a, b, c], " ") == a + " " + (b + " " + c);
    }
    WordsOfJoin([a, b, c]);
  }

  /** "5 LAR 12-5" shows as "**LAR** *(12-5)*": a numeric seed is dropped
      and the record is put in parentheses. */
  lemma SeededTeamFormat(seed: string, team: string, record: string)
    requires IsDigits(seed) && IsWord(team) && IsWord(record)
    ensures FormatTeamInfo(seed + " " + team + " " + record) == Bold(team) + " *(" + record + ")*"
  {
    WordsOfThree(seed, team, record);
  }

  /** "DAL 12-5" shows as "**DAL** *(12-5)*". */
  lemma RecordTeamFormat(team: string, record: string)
    requires IsWord(team) && IsWord(record) && '-' in record
    ensures FormatTeamInfo(team + " " + record) == Bold(team) + " *(" + record + ")*"
  {
    WordsOfTwo(team, record);
  }

  /** "LAR 5" shows as "**LAR** 5", the shape a scored side takes. */
  lemma ScoredTeamFormat(team: string, score: string)
    requires IsWord(team) && IsDigits(score)
    ensures FormatTeamInfo(team + " " + score) == Bold(team) + " " + score
  {
    WordsOfTwo(team, score);
    assert IsDigit(score[0]);
    assert '-' !in score;
  }

  /** A seed that is not a number leaves the text as it is. */
  lemma UnseededTripleUnchanged(first: string, team: string, record: string)
    requires IsWord(first) && IsWord(team) && IsWord(record) && !IsDigits(first)
    ensures FormatTeamInfo(first + " " + team + " " + record) == first + " " + team + " " + record
  {
    WordsOfThree(first, team, record);
  }

  // ---------------------------------------------------------------------------
  // fetch_games

  /** What fetching the sport's page gave: a status other than 200, an
      exception, or the page. A page is given by the text nodes the locator
      scans, the text node that follows the sport's section start, and the
      elements (`a`, `h1`, `h2`, `h3`, `p`, `div`) the walk visits. */
  datatype Response =
    | HttpError
    | Raised
    | Page(strings: seq<string>, nextText: Option<string>, elements: seq<Element>)

  /** The successful result: the round label and the games by day. */
  datatype Games = Games(round: string, days: seq<Bucket<Game>>)

  datatype Outcome = Found(games: Games) | Problem(message: string)

  const HttpErrorMessage := "Website unavailable (HTTP error). Try again shortly."
  const ErrorMessage := "Error processing game data. Try again later."

  function NotFoundMessage(sport: SportConfig): string
  {
    sport.name + " section not found - website may have changed."
  }

  function NoGamesMessage(sport: SportConfig): string
  {
    "No " + sport.name + " games found. The season may be over or no games scheduled."
  }

  /** The safety limit on collected games. */
  const GameCap: nat := 30

  function SportLimits(sport: SportConfig): Limits
  {
    Limits(sport.fullName, sport.otherLeagues, Some(GameCap))
  }

  /** The keywords that make the following text the round label. */
  const RoundKeywords: seq<string> := ["Week", "Wild Card", "Divisional", "Conference", "Championship",
    "Super Bowl", "Stanley Cup", "World Series", "Finals", "Playoffs", "Round"]

  /** The round label: the stripped following text when it holds a round
      keyword, "<name> Games" otherwise. */
  function RoundLabel(sport: SportConfig, nextText: Option<string>): (r: string)
    ensures r == sport.name + " Games" || ContainsAny(r, RoundKeywords)
    ensures nextText.Some? && ContainsAny(Strip(nextText.value), RoundKeywords) ==> r == Strip(nextText.value)
    ensures !(nextText.Some? && ContainsAny(Strip(nextText.value), RoundKeywords)) ==> r == sport.name + " Games"
    ensures nextText.None? ==> r == sport.name + " Games"
  {
    if nextText.Some? && ContainsAny(Strip(nextText.value), RoundKeywords) then Strip(nextText.value)
    else sport.name + " Games"
  }

  predicate SportFound(strings: seq<string>, fullName: string)
  {
    exists k :: 0 <= k < |strings| && Contains(strings[k], fullName)
  }

  /** The first loop of `fetch_games`: is there a text node holding the
      sport's full name? */
  method LocateSport(strings: seq<string>, fullName: string) returns (found: bool)
    ensures found <==> SportFound(strings, fullName)
  {
    found := false;
    var i := 0;
    while i < |strings|
      invariant 0 <= i <= |strings|
      invariant forall k :: 0 <= k < i ==> !Contains(strings[k], fullName)
    {
      if Contains(strings[i], fullName) {
        found := true;
        return;
      }
      i := i + 1;
    }
  }

  /** What `fetch_games` returns for a fetched page. */
  function PageOutcome(sport: SportConfig, strings: seq<string>, nextText: Option<string>, elements: seq<Element>): (r: Outcome)
    ensures r.Found? ==>
      && SportFound(strings, sport.fullName)
      && r.games.round == RoundLabel(sport, nextText)
      && r.games.days == Run(SportLimits(sport), GameOfBox, elements).buckets
      && r.games.days != []
      && TotalGames(r.games.days) <= GameCap
    ensures !SportFound(strings, sport.fullName) ==> r == Problem(NotFoundMessage(sport))
    ensures SportFound(strings, sport.fullName) && Run(SportLimits(sport), GameOfBox, elements).buckets == [] ==>
      r == Problem(NoGamesMessage(sport))
  {
    if !SportFound(strings, sport.fullName) then Problem(NotFoundMessage(sport))
    else
      var days := Run(SportLimits(sport), GameOfBox, elements).buckets;
      if days == [] then Problem(NoGamesMessage(sport))
      else Found(Games(RoundLabel(sport, nextText), days))
  }

  /** `fetch_games`. */
  method FetchGames(sport: SportConfig, response: Response) returns (r: Outcome)
    ensures response.HttpError? ==> r == Problem(HttpErrorMessage)
    ensures response.Raised? ==> r == Problem(ErrorMessage)
    ensures response.Page? ==> r == PageOutcome(sport, response.strings, response.nextText, response.elements)
  {
    match response
    case HttpError =>
      r := Problem(HttpErrorMessage);
    case Raised =>
      r := Problem(ErrorMessage);
    case Page(strings, nextText, elements) =>
      var found := LocateSport(strings, sport.fullName);
      if !found {
        r := Problem(NotFoundMessage(sport));
        return;
      }
      var round := RoundLabel(sport, nextText);
      var days := ExtractGames(SportLimits(sport), GameOfBox, elements);
      if days == [] {
        r := Problem(NoGamesMessage(sport));
        return;
      }
      r := Found(Games(round, days));
  }

  /** A found result's days are distinct day words, each with at least one
      game, and every game is the parse of a game box of the page. */
  lemma FoundGamesWellFormed(sport: SportConfig, strings: seq<string>, nextText: Option<string>, elements: seq<Element>)
    requires PageOutcome(sport, strings, nextText, elements).Found?
    ensures var days := PageOutcome(sport, strings, nextText, elements).games.days;
      && DistinctDays(days)
      && (forall i :: 0 <= i < |days| ==> days[i].day in DayWords && days[i].games != [])
      && (forall g :: g in AllGames(days) ==> FromAnchor(GameOfBox, elements, g))
  {
    GamesComeFromAnchors(SportLimits(sport), GameOfBox, elements);
  }

  // ---------------------------------------------------------------------------
  // what is shown

  /** The part of a message embed the model keeps: title, description and
      the "Games" field when there is one. */
  datatype Embed = Embed(title: string, description: string, games: Option<string>)

  /** One message sent to the channel: plain text or an embed. */
  datatype Reply = Say(text: string) | Show(embed: Embed)

  function ScoreText(s: Scored): string
  {
    Bold(s.team) + " " + IntToString(s.score)
  }

  /** The text of one game in a day's field: the bold status, the two sides
      (scored sides with their team and score, otherwise formatted), and the
      network when there is one. */
  function GameLine(g: Game): (r: string)
    ensures Bold(g.status) + "\n" <= r
    ensures g.network != "" ==> |r| >= |g.network| + 3 && r[|r| - |g.network| - 3..] == " - " + g.network
  {
    var line := Bold(g.status) + "\n" + FormatSide(g, true) + " @ " + FormatSide(g, false);
    assert Bold(g.status) + "\n" <= line by {
      assert line == (Bold(g.status) + "\n") + (FormatSide(g, true) + " @ " + FormatSide(g, false));
    }
    var tail := NetworkSuffix(g.network);
    assert (line + tail)[|line|..] == tail;
    assert Bold(g.status) + "\n" <= line + tail by {
      assert (line + tail)[..|line|] == line;
    }
    line + tail
  }

  /** One side as shown: with the score split when both sides have one. */
  function FormatSide(g: Game, away: bool): string
  {
    if g.awayScore.Some? && g.homeScore.Some? then
      ScoreText(if away then g.awayScore.value else g.homeScore.value)
    else
      FormatTeamInfo(if away then g.away else g.home)
  }

  function GameLines(games: seq<Game>): (r: seq<string>)
    ensures |r| == |games| && forall i :: 0 <= i < |games| ==> r[i] == GameLine(games[i])
  {
    seq(|games|, i requires 0 <= i < |games| => GameLine(games[i]))
  }

  /** The network part of a game line: ` - <network>`, or nothing. */
  function NetworkSuffix(network: string): (r: string)
    ensures r == "" <==> network == ""
    ensures network != "" ==> |r| == |network| + 3 && r[..3] == " - " && r[3..] == network
  {
    if network != "" then " - " + network else ""
  }

  /** A game with both scores shows each side as its bold team and score;
      otherwise each side goes through the team formatter. */
  lemma GameLineSides(g: Game)
    ensures GameLine(g) == Bold(g.status) + "\n"
      + (if g.awayScore.Some? && g.homeScore.Some?
         then ScoreText(g.awayScore.value) + " @ " + ScoreText(g.homeScore.value)
         else FormatTeamInfo(g.away) + " @ " + FormatTeamInfo(g.home))
      + NetworkSuffix(g.network)
  {
    var away := FormatSide(g, true);
    var home := FormatSide(g, false);
    assert GameLine(g) == Bold(g.status) + "\n" + (away + " @ " + home) + NetworkSuffix(g.network);
  }

  /** The scored case written out: `**away** 24 @ **home** 17`. */
  lemma ScoredGameLine(g: Game)
    requires g.awayScore.Some? && g.homeScore.Some?
    ensures GameLine(g) == Bold(g.status) + "\n"
      + Bold(g.awayScore.value.team) + " " + IntToString(g.awayScore.value.score) + " @ "
      + Bold(g.homeScore.value.team) + " " + IntToString(g.homeScore.value.score)
      + NetworkSuffix(g.network)
  {
  }

  /** The line shown for a box with cleaned lines `lines`: the trimmed status
      in bold; the two sides with their scores when both side lines end in a
      number, otherwise both formatted; and the fourth line's network, if any. */
  lemma BoxGameLine(lines: seq<string>)
    requires |lines| >= 3
    ensures var away := Strip(lines[1]);
      var home := Strip(lines[2]);
      var a := SideScore(away);
      var h := SideScore(home);
      GameLine(GameOfLines(lines).value) == Bold(Strip(lines[0])) + "\n"
        + (if a.Some? && h.Some? then ScoreText(a.value) + " @ " + ScoreText(h.value)
           else FormatTeamInfo(away) + " @ " + FormatTeamInfo(home))
        + NetworkSuffix(if |lines| > 3 then NetworkOf(lines[3]) else "")
  {
    GameLineSides(GameOfLines(lines).value);
  }

  /** The embed for one day: titled with the sport and day, the bold round
      as description, and the games joined by blank lines and cut to the
      field limit; no field when there are no games. */
  function DayEmbed(sport: SportConfig, day: string, games: seq<Game>, round: string): (e: Embed)
    ensures e.title == sport.name + " Games - " + day && e.description == Bold(round)
    ensures e.games.Some? <==> games != []
    ensures e.games.Some? ==> |e.games.value| <= FieldLimit
    ensures e.games.Some? ==> e.games.value == Truncate(Join(GameLines(games), "\n\n"))
  {
    Embed(sport.name + " Games - " + day, Bold(round),
          if games == [] then None else Some(Truncate(Join(GameLines(games), "\n\n"))))
  }

  /** `build_day_embed`: the loop that builds the game lines. */
  method BuildDayEmbed(sport: SportConfig, day: string, games: seq<Game>, round: string) returns (e: Embed)
    ensures e == DayEmbed(sport, day, games, round)
  {
    var gameLines: seq<string> := [];
    var i := 0;
    while i < |games|
      invariant 0 <= i <= |games|
      invariant gameLines == GameLines(games[..i])
    {
      assert games[..i + 1] == games[..i] + [games[i]];
      gameLines := gameLines + [GameLine(games[i])];
      i := i + 1;
    }
    assert games[..i] == games;
    var field: Option<string> := None;
    if gameLines != [] {
      field := Some(Truncate(Join(gameLines, "\n\n")));
    }
    e := Embed(sport.name + " Games - " + day, Bold(round), field);
  }

  /** The order in which days are shown: the known days first, in this order. */
  const DaysOrder: seq<string> :=
    ["Today", "Tomorrow", "Sunday", "Monday", "Tuesday", "Wednesday", "Thursday", "Friday", "Saturday"]

  /** `[d for d in order if d in days]`. */
  function Present(order: seq<string>, days: seq<string>): (r: seq<string>)
    ensures forall d :: d in r <==> d in order && d in days
    ensures forall d :: d in r ==> d in order
    ensures Distinct(order) ==> Distinct(r)
  {
    if order == [] then []
    else
      var rest := Present(order[1..], days);
      if order[0] in days then [order[0]] + rest else rest
  }

  /** `[d for d in days if d not in order]`. */
  function Extras(days: seq<string>, order: seq<string>): (r: seq<string>)
    ensures forall d :: d in r <==> d in days && d !in order
    ensures Distinct(days) ==> Distinct(r)
  {
    if days == [] then []
    else
      var rest := Extras(days[1..], order);
      if days[0] !in order then [days[0]] + rest else rest
  }

  /** The elements of `s` that satisfy `p`, in order. */
  function Filter<T>(p: T -> bool, s: seq<T>): seq<T>
    decreases |s|
  {
    if s == [] then []
    else
      var rest := Filter(p, s[1..]);
      if p(s[0]) then [s[0]] + rest else rest
  }

  lemma {:induction false} PresentIsFilter(order: seq<string>, days: seq<string>)
    ensures Present(order, days) == Filter(d => d in days, order)
    decreases |order|
  {
    if order != [] {
      PresentIsFilter(order[1..], days);
    }
  }

  lemma {:induction false} ExtrasIsFilter(days: seq<string>, order: seq<string>)
    ensures Extras(days, order) == Filter(d => d !in order, days)
    decreases |days|
  {
    if days != [] {
      ExtrasIsFilter(days[1..], order);
    }
  }

  /** Filtering keeps every element it keeps from `s`. */
  lemma {:induction false} FilterFrom<T>(p: T -> bool, s: seq<T>, i: nat)
    requires i < |Filter(p, s)|
    ensures Filter(p, s)[i] in s
    decreases |s|
  {
    var rest := Filter(p, s[1..]);
    if p(s[0]) && i == 0 {
    } else {
      var k := if p(s[0]) then i - 1 else i;
      assert Filter(p, s)[i] == rest[k];
      FilterFrom(p, s[1..], k);
    }
  }

  /** Filtering a list without repeats keeps its order. */
  lemma {:induction false} FilterKeepsOrder<T>(p: T -> bool, s: seq<T>, i: nat, j: nat)
    requires Distinct(s) && i < j < |Filter(p, s)|
    ensures Filter(p, s)[i] in s && Filter(p, s)[j] in s
    ensures IndexOf(s, Filter(p, s)[i]) < IndexOf(s, Filter(p, s)[j])
    decreases |s|
  {
    var tail := s[1..];
    var rest := Filter(p, tail);
    TailDistinct(s);
    FilterFrom(p, s, i);
    FilterFrom(p, s, j);
    if p(s[0]) {
      var y := rest[j - 1];
      FilterFrom(p, tail, j - 1);
      IndexInTail(s, y);
      if i > 0 {
        var x := rest[i - 1];
        FilterFrom(p, tail, i - 1);
        IndexInTail(s, x);
        FilterKeepsOrder(p, tail, i - 1, j - 1);
      } else {
        IndexInTail(s, s[0]);
      }
    } else {
      var x, y := rest[i], rest[j];
      FilterFrom(p, tail, i);
      FilterFrom(p, tail, j);
      IndexInTail(s, x);
      IndexInTail(s, y);
      FilterKeepsOrder(p, tail, i, j);
    }
  }

  /** The kept days come in the order they have in `order`. */
  lemma PresentKeepsOrder(order: seq<string>, days: seq<string>, i: nat, j: nat)
    requires Distinct(order) && i < j < |Present(order, days)|
    ensures IndexOf(order, Present(order, days)[i]) < IndexOf(order, Present(order, days)[j])
  {
    PresentIsFilter(order, days);
    FilterKeepsOrder(d => d in days, order, i, j);
  }

  /** The other labels come in the order they have in `days`. */
  lemma ExtrasKeepOrder(days: seq<string>, order: seq<string>, i: nat, j: nat)
    requires Distinct(days) && i < j < |Extras(days, order)|
    ensures IndexOf(days, Extras(days, order)[i]) < IndexOf(days, Extras(days, order)[j])
  {
    ExtrasIsFilter(days, order);
    FilterKeepsOrder(d => d !in order, days, i, j);
  }

  lemma TailDistinct<T>(s: seq<T>)
    requires Distinct(s) && s != []
    ensures Distinct(s[1..])
  {
    var tail := s[1..];
    forall i, j | 0 <= i < j < |tail| ensures tail[i] != tail[j] {
      assert tail[i] == s[i + 1] && tail[j] == s[j + 1];
    }
  }

  /** In a list without repeats, an element of the tail sits one place
      further than in the tail. */
  lemma IndexInTail<T>(s: seq<T>, x: T)
    requires Distinct(s) && s != [] && x in s
    ensures x in s[1..] ==> x != s[0] && IndexOf(s, x) == IndexOf(s[1..], x) + 1
    ensures x == s[0] ==> IndexOf(s, x) == 0
  {
    if x in s[1..] {
      var k := IndexOf(s[1..], x);
      assert s[k + 1] == x;
    }
  }


  /** The display order of `show_games`: the known days that occur, in the
      fixed order, then the other labels in insertion order. */
  function DisplayDays(days: seq<string>): seq<string>
  {
    Arranged(DaysOrder, days)
  }

  /** The labels of `order` that occur in `days`, in the order of `order`,
      then the other labels of `days`, in their own order. */
  function Arranged(order: seq<string>, days: seq<string>): seq<string>
  {
    Present(order, days) + Extras(days, order)
  }

  /** The display order lists every day once and nothing else, puts no
      unknown label before a known one, lists the known days in the fixed
      order and the other labels in insertion order. */
  lemma DisplayDaysOrder(days: seq<string>)
    ensures var r := DisplayDays(days);
      && (forall d :: d in r <==> d in days)
      && (Distinct(days) ==> Distinct(r))
      && (forall i, j :: 0 <= i < j < |r| && r[j] in DaysOrder ==> r[i] in DaysOrder)
      && (forall i, j :: 0 <= i < j < |r| && r[j] in DaysOrder ==> IndexOf(DaysOrder, r[i]) < IndexOf(DaysOrder, r[j]))
      && (Distinct(days) ==> forall i, j :: 0 <= i < j < |r| && r[i] !in DaysOrder ==> IndexOf(days, r[i]) < IndexOf(days, r[j]))
  {
    DaysOrderDistinct();
    ArrangedOrder(DaysOrder, days);
  }

  lemma ArrangedOrder(order: seq<string>, days: seq<string>)
    requires Distinct(order)
    ensures var r := Arranged(order, days);
      && (forall d :: d in r <==> d in days)
      && (Distinct(days) ==> Distinct(r))
      && (forall i, j :: 0 <= i < j < |r| && r[j] in order ==> r[i] in order)
      && (forall i, j :: 0 <= i < j < |r| && r[j] in order ==> IndexOf(order, r[i]) < IndexOf(order, r[j]))
      && (Distinct(days) ==> forall i, j :: 0 <= i < j < |r| && r[i] !in order ==> IndexOf(days, r[i]) < IndexOf(days, r[j]))
  {
    var known := Present(order, days);
    var extra := Extras(days, order);
    var r := known + extra;
    assert forall j :: |known| <= j < |r| ==> r[j] in extra;
    KnownFirstInOrder(order, days);
    if Distinct(days) {
      OthersInOrder(order, days);
      forall i, j | 0 <= i < j < |r|
        ensures r[i] != r[j]
      {
        if i < |known| && j >= |known| {
          assert r[i] in known && r[j] in extra;
        }
      }
    }
  }

  /** Known labels first, in the order of `order`. */
  lemma KnownFirstInOrder(order: seq<string>, days: seq<string>)
    requires Distinct(order)
    ensures var r := Arranged(order, days);
      forall i, j :: 0 <= i < j < |r| && r[j] in order ==>
        r[i] in order && IndexOf(order, r[i]) < IndexOf(order, r[j])
  {
    var known := Present(order, days);
    var extra := Extras(days, order);
    var r := known + extra;
    assert forall k :: |known| <= k < |r| ==> r[k] == extra[k - |known|] && r[k] !in order;
    forall i, j | 0 <= i < j < |r| && r[j] in order
      ensures r[i] in order && IndexOf(order, r[i]) < IndexOf(order, r[j])
    {
      assert r[i] == known[i] && r[j] == known[j];
      PresentKeepsOrder(order, days, i, j);
    }
  }

  /** The other labels after them, in the order of `days`. */
  lemma OthersInOrder(order: seq<string>, days: seq<string>)
    requires Distinct(days)
    ensures var r := Arranged(order, days);
      forall i, j :: 0 <= i < j < |r| && r[i] !in order ==>
        r[i] in days && r[j] in days && IndexOf(days, r[i]) < IndexOf(days, r[j])
  {
    var known := Present(order, days);
    var extra := Extras(days, order);
    var r := known + extra;
    assert forall k :: 0 <= k < |known| ==> known[k] in order;
    forall i, j | 0 <= i < j < |r| && r[i] !in order
      ensures r[i] in days && r[j] in days && IndexOf(days, r[i]) < IndexOf(days, r[j])
    {
      assert i >= |known|;
      var a, b := i - |known|, j - |known|;
      assert r[i] == extra[a] && r[j] == extra[b];
      assert extra[a] in extra && extra[b] in extra;
      ExtrasKeepOrder(days, order, a, b);
    }
  }

  lemma DaysOrderDistinct()
    ensures Distinct(DaysOrder)
  {
  }

  /** The embed reply for one day. */
  function DayEmbedReply(sport: SportConfig, games: Games, day: string): Reply
  {
    Show(DayEmbed(sport, day, GamesOn(games.days, day), games.round))
  }

  /** The replies for the days in display order, one per day with games. */
  function DayReplies(sport: SportConfig, games: Games, order: seq<string>): (r: seq<Reply>)
  {
    if order == [] then []
    else
      var rest := DayReplies(sport, games, order[1..]);
      if GamesOn(games.days, order[0]) != [] then [DayEmbedReply(sport, games, order[0])] + rest else rest
  }

  function CouldNotFetch(sport: SportConfig): string
  {
    "Could not fetch " + sport.name + " game information."
  }

  /** What `show_games` sends for a fetch outcome. */
  function GamesReplies(sport: SportConfig, outcome: Outcome): (r: seq<Reply>)
  {
    match outcome
    case Problem(message) => [Say(message)]
    case Found(games) =>
      if games.days == [] then [Say(CouldNotFetch(sport))]
      else DayReplies(sport, games, DisplayDays(Days(games.days)))
  }

  lemma DayRepliesStep(sport: SportConfig, games: Games, order: seq<string>, i: nat)
    requires i < |order|
    ensures DayReplies(sport, games, order[i..]) ==
      (if GamesOn(games.days, order[i]) != [] then [DayEmbedReply(sport, games, order[i])] else [])
      + DayReplies(sport, games, order[i + 1..])
  {
    assert order[i..][1..] == order[i + 1..];
  }

  /** The loop of `show_games` over the days in display order. */
  method EmbedDays(sport: SportConfig, games: Games, order: seq<string>) returns (replies: seq<Reply>)
    ensures replies == DayReplies(sport, games, order)
  {
    replies := [];
    var i := 0;
    while i < |order|
      invariant 0 <= i <= |order|
      invariant replies + DayReplies(sport, games, order[i..]) == DayReplies(sport, games, order)
    {
      DayRepliesStep(sport, games, order, i);
      ghost var rest := DayReplies(sport, games, order[i + 1..]);
      var dayGames := GamesOn(games.days, order[i]);
      if dayGames != [] {
        var e := BuildDayEmbed(sport, order[i], dayGames, games.round);
        assert Show(e) == DayEmbedReply(sport, games, order[i]);
        assert replies + ([Show(e)] + rest) == (replies + [Show(e)]) + rest;
        replies := replies + [Show(e)];
      } else {
        assert [] + rest == rest;
      }
      i := i + 1;
    }
    assert order[i..] == [];
  }

  /** `show_games`. */
  method ShowGames(sport: SportConfig, outcome: Outcome) returns (replies: seq<Reply>)
    ensures replies == GamesReplies(sport, outcome)
  {
    if outcome.Problem? {
      return [Say(outcome.message)];
    }
    if outcome.games.days == [] {
      return [Say(CouldNotFetch(sport))];
    }
    replies := EmbedDays(sport, outcome.games, DisplayDays(Days(outcome.games.days)));
  }

  function NoGamesOnMessage(sport: SportConfig, day: string): string
  {
    "No " + sport.name + " games scheduled for " + day + "."
  }

  /** What `show_day` sends: the failure text, or a message that the day has
      no games, or that day's embed, exactly when the day has games. */
  function DayReply(sport: SportConfig, outcome: Outcome, day: string): (r: Reply)
    ensures r.Show? <==> outcome.Found? && GamesOn(outcome.games.days, day) != []
    ensures r.Show? ==> r.embed == DayEmbed(sport, day, GamesOn(outcome.games.days, day), outcome.games.round)
    ensures outcome.Problem? ==> r == Say(outcome.message)
  {
    match outcome
    case Problem(message) => Say(message)
    case Found(games) =>
      if games.days == [] then Say(CouldNotFetch(sport))
      else if GamesOn(games.days, day) == [] then Say(NoGamesOnMessage(sport, day))
      else Show(DayEmbed(sport, day, GamesOn(games.days, day), games.round))
  }

  /** When every listed day has games, each gets its embed, in order. */
  lemma {:induction false} DayRepliesAll(sport: SportConfig, games: Games, order: seq<string>)
    requires forall d :: d in order ==> GamesOn(games.days, d) != []
    ensures |DayReplies(sport, games, order)| == |order|
    ensures forall k :: 0 <= k < |order| ==>
      DayReplies(sport, games, order)[k] == DayEmbedReply(sport, games, order[k])
  {
    DayRepliesLength(sport, games, order);
    forall k | 0 <= k < |order|
      ensures DayReplies(sport, games, order)[k] == DayEmbedReply(sport, games, order[k])
    {
      DayRepliesAt(sport, games, order, k);
    }
  }

  lemma {:induction false} DayRepliesLength(sport: SportConfig, games: Games, order: seq<string>)
    requires forall d :: d in order ==> GamesOn(games.days, d) != []
    ensures |DayReplies(sport, games, order)| == |order|
  {
    if order != [] {
      var tail := order[1..];
      assert forall d :: d in tail ==> d in order;
      assert order[0] in order;
      DayRepliesLength(sport, games, tail);
    }
  }

  lemma {:induction false} DayRepliesAt(sport: SportConfig, games: Games, order: seq<string>, k: nat)
    requires forall d :: d in order ==> GamesOn(games.days, d) != []
    requires k < |order|
    ensures |DayReplies(sport, games, order)| == |order|
    ensures DayReplies(sport, games, order)[k] == DayEmbedReply(sport, games, order[k])
  {
    DayRepliesLength(sport, games, order);
    assert order[0] in order;
    DayRepliesCons(sport, games, order);
    if k > 0 {
      var tail := order[1..];
      assert forall d :: d in tail ==> d in order;
      DayRepliesAt(sport, games, tail, k - 1);
      assert order[k] == tail[k - 1];
    }
  }

  lemma DayRepliesCons(sport: SportConfig, games: Games, order: seq<string>)
    requires order != [] && GamesOn(games.days, order[0]) != []
    ensures DayReplies(sport, games, order) == [DayEmbedReply(sport, games, order[0])] + DayReplies(sport, games, order[1..])
  {
  }

  /** Each day of a found result gets exactly one embed, titled with that
      day, in display order, with all of that day's games; every games
      field is within the limit. */
  lemma OneEmbedPerDay(sport: SportConfig, games: Games)
    requires DistinctDays(games.days) && games.days != []
    requires forall i :: 0 <= i < |games.days| ==> games.days[i].games != []
    ensures var order := DisplayDays(Days(games.days));
      var r := GamesReplies(sport, Found(games));
      && |r| == |order|
      && (forall k :: 0 <= k < |order| ==>
            r[k] == Show(DayEmbed(sport, order[k], GamesOn(games.days, order[k]), games.round)))
      && (forall k :: 0 <= k < |r| ==> r[k].Show? && r[k].embed.games.Some? && |r[k].embed.games.value| <= FieldLimit)
  {
    var order := DisplayDays(Days(games.days));
    DisplayDaysOrder(Days(games.days));
    forall d | d in order
      ensures GamesOn(games.days, d) != []
    {
      var i :| 0 <= i < |games.days| && Days(games.days)[i] == d;
      GamesOnBucket(games.days, i);
    }
    DayRepliesAll(sport, games, order);
  }
}
