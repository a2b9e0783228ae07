/**
 * The older NFL-only cog (nfl/nfl.py): its own copies of the game-box
 * parser (no score split), the team-info formatter (different shapes), the
 * page walk (NFL stop list, no game cap, `None` on every failure) and the
 * display of `show_nfl_games` and `show_nfl_day`. Where the logic is the
 * same as the shared base class, the modules of that class are reused and
 * the differences are stated as lemmas.
 */
module Nfl {
  import opened Text
  import opened GameBox
  import opened DrawnBox
  import opened Extractor
  import opened Chunks
  import opened Sportslib

  // ---------------------------------------------------------------------------
  // parse_game_box

  /** The legacy game record: exactly time, away, home and network. */
  datatype NflGame = NflGame(time: string, away: string, home: string, network: string)

  /** The record built from the cleaned box lines. */
  function NflGameOfLines(lines: seq<string>): (r: Option<NflGame>)
    ensures r.None? <==> |lines| < 3
  {
    if |lines| < 3 then None
    else
      var network := if |lines| > 3 then NetworkOf(lines[3]) else "";
      Some(NflGame(Strip(lines[0]), Strip(lines[1]), Strip(lines[2]), network))
  }

  /** What the legacy `parse_game_box` returns for `text`. */
  function NflGameOfBox(text: string): Option<NflGame>
  {
    NflGameOfLines(BoxLines(text))
  }

  /** The legacy `parse_game_box`: the same cleaning loop, then the record. */
  method ParseNflGameBox(text: string) returns (r: Option<NflGame>)
    ensures r == NflGameOfBox(text)
  {
    var cleaned := CleanBoxLines(text);
    if |cleaned| < 3 {
      return None;
    }
    var network := "";
    if |cleaned| > 3 {
      network := Strip(RemoveChar(Strip(cleaned[3]), '-'));
    }
    r := Some(NflGame(Strip(cleaned[0]), Strip(cleaned[1]), Strip(cleaned[2]), network));
  }

  /** The two parsers accept the same boxes and read the same four texts
      from them; only the base parser splits off scores. */
  lemma LegacyParserAgrees(text: string)
    ensures NflGameOfBox(text).None? <==> GameOfBox(text).None?
    ensures NflGameOfBox(text).Some? ==>
      var n := NflGameOfBox(text).value;
      var g := GameOfBox(text).value;
      n.time == g.status && n.away == g.away && n.home == g.home && n.network == g.network
  {
  }

  /** A text with fewer than three lines is never a game: the empty string
      and a one-line fragment such as "+-+ BROKEN +-+" give nothing. */
  lemma FewLinesRejected(text: string)
    requires |Split(text, '\n')| < 3
    ensures NflGameOfBox(text) == None
  {
  }

  /** A one-line text is never a game. */
  lemma OneLineRejected(text: string)
    requires '\n' !in text
    ensures NflGameOfBox(text) == None
  {
    SplitOfPiece(text, '\n');
  }

  /** A box drawn on the page whose bottom border names the network gives
      the time, the two team lines and that network, whatever the
      indentation, the widths of the borders and the padding of the rows. */
  lemma BoxWithNetwork(ind: string, top: string, pads: seq<string>, time: string, away: string, home: string,
                       dashes: string, network: string)
    requires IsSpaces(ind) && IsDashes(top) && IsDashes(dashes)
    requires |pads| == 6 && forall k :: 0 <= k < 6 ==> IsSpaces(pads[k])
    requires IsCell(time) && IsCell(away) && IsCell(home)
    requires IsWord(network) && '-' !in network && network[|network| - 1] !in BoxBorder
    ensures var rows := GameRows(ind, pads, time, away, home);
      NflGameOfBox(Join(DrawnLines(ind, top, rows, NetworkLine(ind, dashes, network)), "\n")) ==
        Some(NflGame(time, away, home, network))
  {
    NetworkLineKept(ind, dashes, network);
    NetworkLineOneLine(ind, dashes, network);
    DrawnGameBoxLines(ind, top, pads, time, away, home, NetworkLine(ind, dashes, network));
    NetworkOfBorder(dashes, network);
    ReadBack(time, away, home, [dashes + " " + network]);
  }

  /** A drawn box whose bottom border is a plain rule has no network. */
  lemma BoxWithoutNetwork(ind: string, top: string, pads: seq<string>, time: string, away: string, home: string,
                          dashes: string)
    requires IsSpaces(ind) && IsDashes(top) && IsDashes(dashes)
    requires |pads| == 6 && forall k :: 0 <= k < 6 ==> IsSpaces(pads[k])
    requires IsCell(time) && IsCell(away) && IsCell(home)
    ensures var rows := GameRows(ind, pads, time, away, home);
      NflGameOfBox(Join(DrawnLines(ind, top, rows, RuleLine(ind, dashes)), "\n")) ==
        Some(NflGame(time, away, home, ""))
  {
    RuleLineDropped(ind, dashes);
    DrawnGameBoxLines(ind, top, pads, time, away, home, RuleLine(ind, dashes));
    ReadBack(time, away, home, []);
  }

  /** Row texts come back unchanged from the record. */
  lemma ReadBack(time: string, away: string, home: string, rest: seq<string>)
    requires IsCell(time) && IsCell(away) && IsCell(home) && |rest| <= 1
    ensures NflGameOfLines([time, away, home] + rest) ==
      Some(NflGame(time, away, home, if rest == [] then "" else NetworkOf(rest[0])))
  {
    StripCharsKeeps(time, Whitespace);
    StripCharsKeeps(away, Whitespace);
    StripCharsKeeps(home, Whitespace);
    var lines := [time, away, home] + rest;
    assert lines[0] == time && lines[1] == away && lines[2] == home;
    assert |lines| > 3 <==> rest != [];
    assert rest != [] ==> lines[3] == rest[0];
  }

  /** A drawn box with only the time row between its borders is not a
      game. */
  lemma IncompleteBoxRejected(ind: string, top: string, left: string, time: string, right: string, dashes: string)
    requires IsSpaces(ind) && IsDashes(top) && IsDashes(dashes)
    requires IsSpaces(left) && IsSpaces(right) && IsCell(time)
    ensures NflGameOfBox(Join(DrawnLines(ind, top, [RowLine(ind, left, time, right)], RuleLine(ind, dashes)), "\n")) == None
  {
    var row := RowLine(ind, left, time, right);
    RowLineKept(ind, left, time, right);
    RowLineOneLine(ind, left, time, right);
    RuleLineDropped(ind, dashes);
    DrawnBoxLines(ind, top, [row], RuleLine(ind, dashes));
    ConcatMapOne(CleanedLine, row);
  }

  /** The boxes of the parser's unit tests, each written as its lines
      joined by newlines: a standard box with seeds and a network. */
  lemma StandardTestBox()
    ensures NflGameOfBox(Join(["", "        +--------------+", "        |  4:30 PM ET |", "        | 5 LAR 12-5 |",
      "        | 4 CAR 8-9 |", "        +--------- FOX +", "        "], "\n")) ==
      Some(NflGame("4:30 PM ET", "5 LAR 12-5", "4 CAR 8-9", "FOX"))
  {
    CellByEnds("4:30 PM ET");
    CellByEnds("5 LAR 12-5");
    CellByEnds("4 CAR 8-9");
    assert IsWord("FOX");
    BoxWithNetwork("        ", "--------------", ["  ", " ", " ", " ", " ", " "], "4:30 PM ET", "5 LAR 12-5", "4 CAR 8-9", "---------", "FOX");
    StandardTestBoxLines();
  }

  lemma StandardTestBoxLines()
    ensures DrawnLines("        ", "--------------", GameRows("        ", ["  ", " ", " ", " ", " ", " "], "4:30 PM ET", "5 LAR 12-5", "4 CAR 8-9"),
      NetworkLine("        ", "---------", "FOX")) ==
      ["", "        +--------------+", "        |  4:30 PM ET |", "        | 5 LAR 12-5 |",
      "        | 4 CAR 8-9 |", "        +--------- FOX +", "        "]
  {
    TestTopBorder();
    StandardTestBoxRows();
    assert NetworkLine("        ", "---------", "FOX") == "        +--------- FOX +";
  }

  lemma StandardTestBoxRows()
    ensures GameRows("        ", ["  ", " ", " ", " ", " ", " "], "4:30 PM ET", "5 LAR 12-5", "4 CAR 8-9") ==
      ["        |  4:30 PM ET |", "        | 5 LAR 12-5 |", "        | 4 CAR 8-9 |"]
  {
    assert RowLine("        ", "  ", "4:30 PM ET", " ") == "        |  4:30 PM ET |";
    assert RowLine("        ", " ", "5 LAR 12-5", " ") == "        | 5 LAR 12-5 |";
    assert RowLine("        ", " ", "4 CAR 8-9", " ") == "        | 4 CAR 8-9 |";
  }

  /** The unit test of a box whose bottom border is a plain rule: no network. */
  lemma NoNetworkTestBox()
    ensures NflGameOfBox(Join(["", "        +--------------+", "        |  1:00 PM ET |", "        | KC 14-3 |",
      "        | BUF 13-4 |", "        +--------------+", "        "], "\n")) ==
      Some(NflGame("1:00 PM ET", "KC 14-3", "BUF 13-4", ""))
  {
    CellByEnds("1:00 PM ET");
    CellByEnds("KC 14-3");
    CellByEnds("BUF 13-4");
    BoxWithoutNetwork("        ", "--------------", ["  ", " ", " ", " ", " ", " "], "1:00 PM ET", "KC 14-3", "BUF 13-4", "--------------");
    NoNetworkTestBoxLines();
  }

  lemma NoNetworkTestBoxLines()
    ensures DrawnLines("        ", "--------------", GameRows("        ", ["  ", " ", " ", " ", " ", " "], "1:00 PM ET", "KC 14-3", "BUF 13-4"),
      RuleLine("        ", "--------------")) ==
      ["", "        +--------------+", "        |  1:00 PM ET |", "        | KC 14-3 |",
      "        | BUF 13-4 |", "        +--------------+", "        "]
  {
    TestTopBorder();
    NoNetworkTestBoxRows();
  }

  lemma NoNetworkTestBoxRows()
    ensures GameRows("        ", ["  ", " ", " ", " ", " ", " "], "1:00 PM ET", "KC 14-3", "BUF 13-4") ==
      ["        |  1:00 PM ET |", "        | KC 14-3 |", "        | BUF 13-4 |"]
  {
    assert RowLine("        ", "  ", "1:00 PM ET", " ") == "        |  1:00 PM ET |";
    assert RowLine("        ", " ", "KC 14-3", " ") == "        | KC 14-3 |";
    assert RowLine("        ", " ", "BUF 13-4", " ") == "        | BUF 13-4 |";
  }

  /** The unit test of a box without playoff seeds and with a shorter bottom border. */
  lemma NoSeedsTestBox()
    ensures NflGameOfBox(Join(["", "        +--------------+", "        |  4:25 PM ET |", "        | DAL 12-5 |",
      "        | SF 13-4 |", "        +------- CBS +", "        "], "\n")) ==
      Some(NflGame("4:25 PM ET", "DAL 12-5", "SF 13-4", "CBS"))
  {
    CellByEnds("4:25 PM ET");
    CellByEnds("DAL 12-5");
    CellByEnds("SF 13-4");
    assert IsWord("CBS");
    BoxWithNetwork("        ", "--------------", ["  ", " ", " ", " ", " ", " "], "4:25 PM ET", "DAL 12-5", "SF 13-4", "-------", "CBS");
    NoSeedsTestBoxLines();
  }

  lemma NoSeedsTestBoxLines()
    ensures DrawnLines("        ", "--------------", GameRows("        ", ["  ", " ", " ", " ", " ", " "], "4:25 PM ET", "DAL 12-5", "SF 13-4"),
      NetworkLine("        ", "-------", "CBS")) ==
      ["", "        +--------------+", "        |  4:25 PM ET |", "        | DAL 12-5 |",
      "        | SF 13-4 |", "        +------- CBS +", "        "]
  {
    TestTopBorder();
    NoSeedsTestBoxRows();
    assert NetworkLine("        ", "-------", "CBS") == "        +------- CBS +";
  }

  lemma NoSeedsTestBoxRows()
    ensures GameRows("        ", ["  ", " ", " ", " ", " ", " "], "4:25 PM ET", "DAL 12-5", "SF 13-4") ==
      ["        |  4:25 PM ET |", "        | DAL 12-5 |", "        | SF 13-4 |"]
  {
    assert RowLine("        ", "  ", "4:25 PM ET", " ") == "        |  4:25 PM ET |";
    assert RowLine("        ", " ", "DAL 12-5", " ") == "        | DAL 12-5 |";
    assert RowLine("        ", " ", "SF 13-4", " ") == "        | SF 13-4 |";
  }

  /** The unit test of a box with the time row only: not a game. */
  lemma IncompleteTestBox()
    ensures NflGameOfBox(Join(["", "        +--------------+", "        |  4:30 PM ET |",
      "        +--------------+", "        "], "\n")) == None
  {
    CellByEnds("4:30 PM ET");
    IncompleteBoxRejected("        ", "--------------", "  ", "4:30 PM ET", " ", "--------------");
    IncompleteTestBoxLines();
  }

  lemma IncompleteTestBoxLines()
    ensures DrawnLines("        ", "--------------", [RowLine("        ", "  ", "4:30 PM ET", " ")],
      RuleLine("        ", "--------------")) ==
      ["", "        +--------------+", "        |  4:30 PM ET |", "        +--------------+", "        "]
  {
    TestTopBorder();
    assert RowLine("        ", "  ", "4:30 PM ET", " ") == "        |  4:30 PM ET |";
  }

  /** The top border every test box shares. */
  lemma TestTopBorder()
    ensures RuleLine("        ", "--------------") == "        +--------------+"
  {
  }

  // ---------------------------------------------------------------------------
  // format_team_info

  /** The legacy formatter: three tokens give the bold second token and the
      third in parentheses (whatever the first is), two tokens the bold first
      and the second in parentheses, anything else is returned unchanged. */
  function NflFormatTeamInfo(teamStr: string): (r: string)
    ensures var p := Words(teamStr);
      && (|p| == 3 ==> r == Bold(p[1]) + " *(" + p[2] + ")*")
      && (|p| == 2 ==> r == Bold(p[0]) + " *(" + p[1] + ")*")
      && (|p| != 2 && |p| != 3 ==> r == teamStr)
  {
    var parts := Words(teamStr);
    if |parts| == 3 then Bold(parts[1]) + " *(" + parts[2] + ")*"
    else if |parts| == 2 then Bold(parts[0]) + " *(" + parts[1] + ")*"
    else teamStr
  }

  /** "5 LAR 12-5" shows as "**LAR** *(12-5)*", and the base formatter
      agrees exactly when the first token is a number. */
  lemma NflSeededFormat(seed: string, team: string, record: string)
    requires IsWord(seed) && IsWord(team) && IsWord(record)
    ensures NflFormatTeamInfo(seed + " " + team + " " + record) == Bold(team) + " *(" + record + ")*"
    ensures FormatTeamInfo(seed + " " + team + " " + record) == NflFormatTeamInfo(seed + " " + team + " " + record)
      <==> IsDigits(seed)
  {
    WordsOfThree(seed, team, record);
    if !IsDigits(seed) {
      UnseededTripleUnchanged(seed, team, record);
      SpacesDiffer(seed, team, record);
    } else {
      SeededTeamFormat(seed, team, record);
    }
  }

  /** An unseeded triple, left as it is, holds two spaces, and its
      formatted form only one, so the two never coincide. */
  lemma SpacesDiffer(seed: string, team: string, record: string)
    requires IsWord(seed) && IsWord(team) && IsWord(record)
    ensures seed + " " + team + " " + record != Bold(team) + " *(" + record + ")*"
  {
    assert ' ' !in seed && ' ' !in team && ' ' !in record by {
      assert ' ' in Whitespace;
    }
    assert multiset(seed + " " + team + " " + record)[' '] == 2;
    assert multiset(Bold(team) + " *(" + record + ")*")[' '] == 1;
  }

  /** "DAL 12-5" shows as "**DAL** *(12-5)*". The base formatter agrees when
      the second token holds a '-'. */
  lemma NflPairFormat(team: string, second: string)
    requires IsWord(team) && IsWord(second)
    ensures NflFormatTeamInfo(team + " " + second) == Bold(team) + " *(" + second + ")*"
    ensures '-' in second ==> FormatTeamInfo(team + " " + second) == NflFormatTeamInfo(team + " " + second)
  {
    WordsOfTwo(team, second);
  }

  /** A lone token is returned as it is ("TEAM" stays "TEAM"), where the
      base formatter makes it bold. */
  lemma NflSingleTokenUnchanged(t: string)
    requires IsWord(t)
    ensures NflFormatTeamInfo(t) == t
    ensures FormatTeamInfo(t) == Bold(t)
  {
    WordsOfJoin([t]);
  }

  /** The two formatters give the same text exactly for a numeric seed
      with team and record, a team with a record holding '-', and the
      shapes both return unchanged (no token, or more than three). */
  lemma FormattersAgree(teamStr: string)
    ensures var p := Words(teamStr);
      FormatTeamInfo(teamStr) == NflFormatTeamInfo(teamStr) <==>
        (|p| == 3 && IsDigits(p[0])) || (|p| == 2 && '-' in p[1]) || |p| == 0 || |p| > 3
  {
    var p := Words(teamStr);
    if |p| == 3 && !IsDigits(p[0]) {
      ParenthesisedWords(p[1], p[2]);
    } else if |p| == 2 && '-' !in p[1] && !IsDigits(p[1]) {
      ParenthesisedWords(p[0], p[1]);
    } else if |p| == 2 && '-' !in p[1] {
      assert |Bold(p[0]) + " " + p[1]| != |Bold(p[0]) + " *(" + p[1] + ")*"|;
    } else if |p| == 1 {
      BoldIsWord(p[0]);
      WordsOfJoin([Bold(p[0])]);
    }
  }

  lemma BoldIsWord(w: string)
    requires IsWord(w)
    ensures IsWord(Bold(w)) && IsWord("*(" + w + ")*")
  {
    assert '*' !in Whitespace && '(' !in Whitespace && ')' !in Whitespace;
    var b := Bold(w);
    forall i | 0 <= i < |b| ensures b[i] !in Whitespace {
      if 2 <= i < |w| + 2 { assert b[i] == w[i - 2]; }
    }
    var q := "*(" + w + ")*";
    forall i | 0 <= i < |q| ensures q[i] !in Whitespace {
      if 2 <= i < |w| + 2 { assert q[i] == w[i - 2]; }
    }
  }

  /** The legacy form of two words is itself two words. */
  lemma ParenthesisedWords(a: string, b: string)
    requires IsWord(a) && IsWord(b)
    ensures Words(Bold(a) + " *(" + b + ")*") == [Bold(a), "*(" + b + ")*"]
  {
    BoldIsWord(a);
    BoldIsWord(b);
    WordsOfTwo(Bold(a), "*(" + b + ")*");
    assert Bold(a) + " *(" + b + ")*" == Bold(a) + " " + ("*(" + b + ")*");
  }

  /** "5 LAR 12-5" shows as "**LAR** *(12-5)*". */
  lemma NflFormatSeededCase()
    ensures NflFormatTeamInfo("5 LAR 12-5") == "**LAR** *(12-5)*"
  {
    NflSeededFormat("5", "LAR", "12-5");
    assert "5" + " " + "LAR" + " " + "12-5" == "5 LAR 12-5";
    assert Bold("LAR") + " *(" + "12-5" + ")*" == "**LAR** *(12-5)*";
  }

  /** "DAL 12-5" shows as "**DAL** *(12-5)*". */
  lemma NflFormatPairCase()
    ensures NflFormatTeamInfo("DAL 12-5") == "**DAL** *(12-5)*"
  {
    NflPairFormat("DAL", "12-5");
    assert "DAL" + " " + "12-5" == "DAL 12-5";
    assert Bold("DAL") + " *(" + "12-5" + ")*" == "**DAL** *(12-5)*";
  }

  /** "TEAM" stays "TEAM". */
  lemma NflFormatSingleCase()
    ensures NflFormatTeamInfo("TEAM") == "TEAM"
  {
    NflSingleTokenUnchanged("TEAM");
  }

  // ---------------------------------------------------------------------------
  // fetch_nfl_games

  /** The successful result: the round label and the games by day. */
  datatype NflGames = NflGames(round: string, days: seq<Bucket<NflGame>>)

  /** The NFL walk: it starts at the league's full name, stops at the
      basketball or hockey section, and has no game cap. */
  const NflLimits: Limits := Limits("National Football League", ["National Basketball", "National Hockey"], None)

  /** The keywords that make the following text the round label. */
  const NflRoundKeywords: seq<string> := ["Wild Card", "Week"]

  /** The round label: the stripped following text when the text itself
      holds "Wild Card" or "Week", "NFL Games" otherwise. */
  function NflRoundLabel(nextText: Option<string>): (r: string)
    ensures r == "NFL Games" || (nextText.Some? && ContainsAny(nextText.value, NflRoundKeywords) && r == Strip(nextText.value))
    ensures nextText.Some? && ContainsAny(nextText.value, NflRoundKeywords) ==> r == Strip(nextText.value)
  {
    if nextText.Some? && ContainsAny(nextText.value, NflRoundKeywords) then Strip(nextText.value)
    else "NFL Games"
  }

  /** What `fetch_nfl_games` returns for a fetched page: nothing when the
      league is not on the page or no game was collected. */
  function NflPageResult(strings: seq<string>, nextText: Option<string>, elements: seq<Element>): Option<NflGames>
  {
    if !SportFound(strings, NflLimits.fullName) then None
    else
      var days := Run(NflLimits, NflGameOfBox, elements).buckets;
      if days == [] then None else Some(NflGames(NflRoundLabel(nextText), days))
  }

  /** `fetch_nfl_games`: every failure, an HTTP error or an exception
      included, gives nothing. */
  method FetchNflGames(response: Response) returns (r: Option<NflGames>)
    ensures !response.Page? ==> r == None
    ensures response.Page? ==> r == NflPageResult(response.strings, response.nextText, response.elements)
  {
    if !response.Page? {
      return None;
    }
    var found := LocateSport(response.strings, NflLimits.fullName);
    if !found {
      return None;
    }
    var round := NflRoundLabel(response.nextText);
    var gamesByDay := ExtractGames(NflLimits, NflGameOfBox, response.elements);
    if gamesByDay == [] {
      return None;
    }
    r := Some(NflGames(round, gamesByDay));
  }

  /** A result holds distinct day words, each with at least one game, every
      game is the parse of a game box of the page, and none comes from before
      the league's name. */
  lemma NflResultWellFormed(strings: seq<string>, nextText: Option<string>, elements: seq<Element>)
    ensures var r := NflPageResult(strings, nextText, elements);
      r.Some? ==>
        && SportFound(strings, NflLimits.fullName)
        && r.value.days != []
        && DistinctDays(r.value.days)
        && (forall i :: 0 <= i < |r.value.days| ==> r.value.days[i].day in DayWords && r.value.days[i].games != [])
        && (forall g :: g in AllGames(r.value.days) ==> FromAnchor(NflGameOfBox, elements, g))
    ensures (forall k :: 0 <= k < |elements| ==> !Contains(elements[k].text, NflLimits.fullName)) ==>
      NflPageResult(strings, nextText, elements) == None
  {
    GamesComeFromAnchors(NflLimits, NflGameOfBox, elements);
    if forall k :: 0 <= k < |elements| ==> !Contains(elements[k].text, NflLimits.fullName) {
      NothingBeforeSport(NflLimits, NflGameOfBox, elements);
    }
  }

  /** The NFL walk has no cap: however many games it holds, a game box met
      while the league is being processed is always added. */
  lemma NflWalkHasNoCap(w: Walk<NflGame>, e: Element)
    requires DistinctDays(w.buckets) && w.processing && !w.stopped
    requires !Contains(e.text, NflLimits.fullName) && !ContainsAny(e.text, NflLimits.stopList)
    requires !StartsWithDayWord(e.text) && e.tag == A && Contains(e.raw, "+-") && NflGameOfBox(e.raw).Some?
    ensures TotalGames(Step(NflLimits, NflGameOfBox, w, e).buckets) == TotalGames(w.buckets) + 1
  {
    TotalGamesOfAddGame(w.buckets, w.currentDay, NflGameOfBox(e.raw).value);
  }

  /** The base walk, in the same position with 30 games, stops instead. */
  lemma BaseWalkStopsAtCap(sport: SportConfig, w: Walk<Game>, e: Element)
    requires DistinctDays(w.buckets) && w.processing && !w.stopped && TotalGames(w.buckets) >= GameCap
    requires !Contains(e.text, sport.fullName)
    ensures Step(SportLimits(sport), GameOfBox, w, e) == w.(stopped := true)
  {
  }

  // ---------------------------------------------------------------------------
  // show_nfl_games and show_nfl_day

  /** One game in a day's field: the bold time, the two formatted sides,
      and the network when there is one. */
  function NflGameLine(g: NflGame): (r: string)
    ensures Bold(g.time) + "\n" <= r
    ensures g.network != "" ==> |r| >= |g.network| + 3 && r[|r| - |g.network| - 3..] == " - " + g.network
  {
    var line := Bold(g.time) + "\n" + NflFormatTeamInfo(g.away) + " @ " + NflFormatTeamInfo(g.home);
    assert Bold(g.time) + "\n" <= line by {
      assert line == (Bold(g.time) + "\n") + (NflFormatTeamInfo(g.away) + " @ " + NflFormatTeamInfo(g.home));
    }
    line + NetworkSuffix(g.network)
  }

  /** Each side always goes through the NFL formatter, scores or not. */
  lemma NflGameLineSides(g: NflGame)
    ensures NflGameLine(g) == Bold(g.time) + "\n"
      + NflFormatTeamInfo(g.away) + " @ " + NflFormatTeamInfo(g.home)
      + NetworkSuffix(g.network)
  {
  }

  /** The line shown for a box with cleaned lines `lines`: the trimmed time
      in bold, the two trimmed sides formatted, and the fourth line's network,
      if any. */
  lemma NflBoxGameLine(lines: seq<string>)
    requires |lines| >= 3
    ensures NflGameLine(NflGameOfLines(lines).value) == Bold(Strip(lines[0])) + "\n"
      + NflFormatTeamInfo(Strip(lines[1])) + " @ " + NflFormatTeamInfo(Strip(lines[2]))
      + NetworkSuffix(if |lines| > 3 then NetworkOf(lines[3]) else "")
  {
    NflGameLineSides(NflGameOfLines(lines).value);
  }

  function NflGameLines(games: seq<NflGame>): (r: seq<string>)
    ensures |r| == |games| && forall i :: 0 <= i < |games| ==> r[i] == NflGameLine(games[i])
  {
    seq(|games|, i requires 0 <= i < |games| => NflGameLine(games[i]))
  }

  /** The embed for one day of `show_nfl_games`: its games joined by blank
      lines and cut to the field limit. */
  function NflDayEmbed(day: string, games: seq<NflGame>, round: string): (e: Embed)
    ensures e.title == "NFL Games - " + day && e.description == Bold(round)
    ensures e.games.Some? <==> games != []
    ensures e.games.Some? ==> |e.games.value| <= FieldLimit
    ensures e.games.Some? ==> e.games.value == Truncate(Join(NflGameLines(games), "\n\n"))
  {
    Embed("NFL Games - " + day, Bold(round),
          if games == [] then None else Some(Truncate(Join(NflGameLines(games), "\n\n"))))
  }

  /** The first loop of `show_nfl_games`: one embed per day of `order` that
      has games. */
  function OrderedEmbeds(round: string, days: seq<Bucket<NflGame>>, order: seq<string>): seq<Reply>
  {
    if order == [] then []
    else
      var rest := OrderedEmbeds(round, days, order[1..]);
      var dayGames := GamesOn(days, order[0]);
      if dayGames != [] then [Show(NflDayEmbed(order[0], dayGames, round))] + rest else rest
  }

  /** The second loop: one embed per remaining entry, in insertion order,
      whose day is not in the fixed order and which has games. */
  function ExtraEmbeds(round: string, days: seq<Bucket<NflGame>>): seq<Reply>
  {
    if days == [] then []
    else
      var rest := ExtraEmbeds(round, days[1..]);
      if days[0].day !in DaysOrder && days[0].games != [] then [Show(NflDayEmbed(days[0].day, days[0].games, round))] + rest
      else rest
  }

  const NflCouldNotFetch := "Could not fetch NFL game information. Please try again later."

  /** What `show_nfl_games` sends for a fetch result. */
  function NflGamesReplies(result: Option<NflGames>): seq<Reply>
  {
    if result.None? || result.value.days == [] then [Say(NflCouldNotFetch)]
    else OrderedEmbeds(result.value.round, result.value.days, DaysOrder)
         + ExtraEmbeds(result.value.round, result.value.days)
  }

  lemma OrderedEmbedsStep(round: string, days: seq<Bucket<NflGame>>, order: seq<string>, i: nat)
    requires i < |order|
    ensures OrderedEmbeds(round, days, order[i..]) ==
      (if GamesOn(days, order[i]) != [] then [Show(NflDayEmbed(order[i], GamesOn(days, order[i]), round))] else [])
      + OrderedEmbeds(round, days, order[i + 1..])
  {
    assert order[i..][1..] == order[i + 1..];
  }

  lemma ExtraEmbedsStep(round: string, days: seq<Bucket<NflGame>>, i: nat)
    requires i < |days|
    ensures ExtraEmbeds(round, days[i..]) ==
      (if days[i].day !in DaysOrder && days[i].games != [] then [Show(NflDayEmbed(days[i].day, days[i].games, round))] else [])
      + ExtraEmbeds(round, days[i + 1..])
  {
    assert days[i..][1..] == days[i + 1..];
  }

  /** The loop over one day's games shared by `show_nfl_games` and
      `show_nfl_day`: one line per game, in order. */
  method CollectNflGameLines(games: seq<NflGame>) returns (gameLines: seq<string>)
    ensures gameLines == NflGameLines(games)
  {
    gameLines := [];
    var i := 0;
    while i < |games|
      invariant 0 <= i <= |games|
      invariant gameLines == NflGameLines(games[..i])
    {
      var game := games[i];
      var away := NflFormatTeamInfo(game.away);
      var home := NflFormatTeamInfo(game.home);
      var line: string;
      if game.network != "" {
        line := Bold(game.time) + "\n" + away + " @ " + home + " - " + game.network;
      } else {
        line := Bold(game.time) + "\n" + away + " @ " + home;
      }
      NflGameLineSides(game);
      assert line == NflGameLine(game);
      assert games[..i + 1] == games[..i] + [game];
      gameLines := gameLines + [line];
      i := i + 1;
    }
    assert games[..i] == games;
  }

  /** Builds one day's embed: the loop over the games, then the field. */
  method BuildNflDayEmbed(day: string, games: seq<NflGame>, round: string) returns (e: Embed)
    ensures e == NflDayEmbed(day, games, round)
  {
    var gameLines := CollectNflGameLines(games);
    var field: Option<string> := None;
    if gameLines != [] {
      var value := Join(gameLines, "\n\n");
      if |value| > FieldLimit {
        value := value[..1021] + "...";
      }
      field := Some(value);
    }
    e := Embed("NFL Games - " + day, Bold(round), field);
  }

  /** The first loop of `show_nfl_games`, over the fixed day order. */
  method EmbedOrderedDays(round: string, days: seq<Bucket<NflGame>>, order: seq<string>) returns (embeds: seq<Reply>)
    ensures embeds == OrderedEmbeds(round, days, order)
  {
    embeds := [];
    var i := 0;
    while i < |order|
      invariant 0 <= i <= |order|
      invariant embeds + OrderedEmbeds(round, days, order[i..]) == OrderedEmbeds(round, days, order)
    {
      OrderedEmbedsStep(round, days, order, i);
      ghost var rest := OrderedEmbeds(round, days, order[i + 1..]);
      var day := order[i];
      var games := GamesOn(days, day);
      if games != [] {
        var embed := BuildNflDayEmbed(day, games, round);
        assert embeds + ([Show(embed)] + rest) == (embeds + [Show(embed)]) + rest;
        embeds := embeds + [Show(embed)];
      } else {
        assert [] + rest == rest;
      }
      i := i + 1;
    }
    assert order[i..] == [];
  }

  /** The second loop of `show_nfl_games`, over the entries in insertion order. */
  method EmbedExtraDays(round: string, days: seq<Bucket<NflGame>>) returns (embeds: seq<Reply>)
    ensures embeds == ExtraEmbeds(round, days)
  {
    embeds := [];
    var j := 0;
    while j < |days|
      invariant 0 <= j <= |days|
      invariant embeds + ExtraEmbeds(round, days[j..]) == ExtraEmbeds(round, days)
    {
      var entry := days[j];
      var added: seq<Reply> := [];
      if entry.day !in DaysOrder && entry.games != [] {
        var embed := BuildNflDayEmbed(entry.day, entry.games, round);
        added := [Show(embed)];
      }
      ExtraEmbedsAdvance(round, days, j, embeds, added);
      embeds := embeds + added;
      j := j + 1;
    }
    assert days[j..] == [];
  }

  lemma ExtraEmbedsAdvance(round: string, days: seq<Bucket<NflGame>>, j: nat, embeds: seq<Reply>, added: seq<Reply>)
    requires j < |days| && embeds + ExtraEmbeds(round, days[j..]) == ExtraEmbeds(round, days)
    requires added ==
      (if days[j].day !in DaysOrder && days[j].games != [] then [Show(NflDayEmbed(days[j].day, days[j].games, round))] else [])
    ensures (embeds + added) + ExtraEmbeds(round, days[j + 1..]) == ExtraEmbeds(round, days)
  {
    ExtraEmbedsStep(round, days, j);
    assert embeds + (added + ExtraEmbeds(round, days[j + 1..])) == (embeds + added) + ExtraEmbeds(round, days[j + 1..]);
  }


  /** `show_nfl_games`: the embeds of the days in the fixed order, then
      those of the remaining days. */
  method ShowNflGames(result: Option<NflGames>) returns (embeds: seq<Reply>)
    ensures embeds == NflGamesReplies(result)
  {
    if result.None? || result.value.days == [] {
      return [Say(NflCouldNotFetch)];
    }
    var data := result.value;
    var ordered := EmbedOrderedDays(data.round, data.days, DaysOrder);
    var remaining := EmbedExtraDays(data.round, data.days);
    embeds := ordered + remaining;
  }

  // ---------------------------------------------------------------------------
  // properties of the display

  lemma {:induction false} OrderedEmbedsConcat(round: string, days: seq<Bucket<NflGame>>, a: seq<string>, b: seq<string>)
    ensures OrderedEmbeds(round, days, a + b) == OrderedEmbeds(round, days, a) + OrderedEmbeds(round, days, b)
    decreases |a|
  {
    if a != [] {
      assert (a + b)[0] == a[0];
      assert (a + b)[1..] == a[1..] + b;
      OrderedEmbedsConcat(round, days, a[1..], b);
    } else {
      assert a + b == b;
    }
  }

  lemma {:induction false} GamesOnAbsent<G>(bs: seq<Bucket<G>>, d: string)
    requires d !in Days(bs)
    ensures GamesOn(bs, d) == []
    decreases |bs|
  {
    if bs != [] {
      assert forall x :: x in Days(bs[1..]) ==> x in Days(bs) by {
        forall x | x in Days(bs[1..]) ensures x in Days(bs) {
          var i :| 0 <= i < |bs[1..]| && Days(bs[1..])[i] == x;
          assert Days(bs)[i + 1] == x;
        }
      }
      assert bs[0].day == Days(bs)[0];
      GamesOnAbsent(bs[1..], d);
    }
  }

  /** Days without games are skipped, so the fixed order gives the same
      embeds as its days that occur. */
  lemma {:induction false} OrderedEmbedsPresent(round: string, days: seq<Bucket<NflGame>>, order: seq<string>)
    ensures OrderedEmbeds(round, days, order) == OrderedEmbeds(round, days, Present(order, Days(days)))
    decreases |order|
  {
    if order != [] {
      OrderedEmbedsPresent(round, days, order[1..]);
      if order[0] !in Days(days) {
        GamesOnAbsent(days, order[0]);
      } else {
        assert [order[0]] + Present(order[1..], Days(days)) == Present(order, Days(days));
        assert ([order[0]] + Present(order[1..], Days(days)))[1..] == Present(order[1..], Days(days));
      }
    }
  }

  /** Looking up days other than the first entry's skips that entry. */
  lemma {:induction false} OrderedEmbedsTail(round: string, days: seq<Bucket<NflGame>>, order: seq<string>)
    requires days != []
    requires forall d :: d in order ==> d != days[0].day
    ensures OrderedEmbeds(round, days, order) == OrderedEmbeds(round, days[1..], order)
    decreases |order|
  {
    if order != [] {
      assert forall d :: d in order[1..] ==> d in order;
      OrderedEmbedsTail(round, days, order[1..]);
      assert order[0] in order;
      assert GamesOn(days, order[0]) == GamesOn(days[1..], order[0]);
    }
  }

  /** With distinct days, the second loop gives the embeds of the days not
      in the fixed order, in insertion order. */
  lemma {:induction false} ExtraEmbedsAreExtras(round: string, days: seq<Bucket<NflGame>>)
    requires DistinctDays(days)
    ensures ExtraEmbeds(round, days) == OrderedEmbeds(round, days, Extras(Days(days), DaysOrder))
    decreases |days|
  {
    if days != [] {
      var rest := days[1..];
      assert DistinctDays(rest);
      assert Days(days)[1..] == Days(rest);
      ExtraEmbedsAreExtras(round, rest);
      var later := Extras(Days(rest), DaysOrder);
      assert forall d :: d in later ==> d != days[0].day by {
        forall d | d in later ensures d != days[0].day {
          var i :| 0 <= i < |rest| && Days(rest)[i] == d;
          assert days[i + 1].day == d;
        }
      }
      OrderedEmbedsTail(round, days, later);
      if days[0].day !in DaysOrder {
        GamesOnBucket(days, 0);
        assert Extras(Days(days), DaysOrder) == [days[0].day] + later;
        assert ([days[0].day] + later)[1..] == later;
      }
    }
  }

  /** `show_nfl_games` shows the days in the same order as the base
      class's `show_games`: the known days in the fixed order, then the
      other labels in insertion order, one embed per day with games. */
  lemma NflDisplayOrderMatchesBase(r: NflGames)
    requires DistinctDays(r.days) && r.days != []
    ensures NflGamesReplies(Some(r)) == OrderedEmbeds(r.round, r.days, DisplayDays(Days(r.days)))
  {
    OrderedEmbedsPresent(r.round, r.days, DaysOrder);
    ExtraEmbedsAreExtras(r.round, r.days);
    OrderedEmbedsConcat(r.round, r.days, Present(DaysOrder, Days(r.days)), Extras(Days(r.days), DaysOrder));
  }

  /** The walk only ever files games under day words, all of which are in
      the fixed order, so the second loop of `show_nfl_games` never adds an
      embed for a fetched result. */
  lemma NoExtraDaysFetched(strings: seq<string>, nextText: Option<string>, elements: seq<Element>)
    requires NflPageResult(strings, nextText, elements).Some?
    ensures var r := NflPageResult(strings, nextText, elements).value;
      ExtraEmbeds(r.round, r.days) == []
  {
    var r := NflPageResult(strings, nextText, elements).value;
    NflResultWellFormed(strings, nextText, elements);
    NoExtraEmbeds(r.round, r.days);
  }

  lemma {:induction false} NoExtraEmbeds(round: string, days: seq<Bucket<NflGame>>)
    requires forall i :: 0 <= i < |days| ==> days[i].day in DayWords
    ensures ExtraEmbeds(round, days) == []
    decreases |days|
  {
    if days != [] {
      assert days[0].day in DaysOrder;
      NoExtraEmbeds(round, days[1..]);
    }
  }

  /** What `show_nfl_day` sends for `day`: its own failure text, a message
      that the day has no games, or the day's embed, whose field is the
      games joined by blank lines and is not cut to the field limit. */
  function NflDayReply(result: Option<NflGames>, day: string): (r: Reply)
    ensures r.Show? <==> result.Some? && GamesOn(result.value.days, day) != []
    ensures r.Show? ==> (r.embed.title == "NFL Games - " + day
      && r.embed.games == Some(Join(NflGameLines(GamesOn(result.value.days, day)), "\n\n")))
  {
    if result.None? || result.value.days == [] then Say("Could not fetch NFL game information.")
    else
      var dayGames := GamesOn(result.value.days, day);
      if dayGames == [] then Say("No NFL games scheduled for " + day + ".")
      else Show(Embed("NFL Games - " + day, Bold(result.value.round), Some(Join(NflGameLines(dayGames), "\n\n"))))
  }

  /** `show_nfl_day`: the two early replies, then the loop over the day's
      games and the embed. */
  method ShowNflDay(result: Option<NflGames>, day: string) returns (r: Reply)
    ensures r == NflDayReply(result, day)
  {
    if result.None? || result.value.days == [] {
      return Say("Could not fetch NFL game information.");
    }
    var dayGames := GamesOn(result.value.days, day);
    if dayGames == [] {
      return Say("No NFL games scheduled for " + day + ".");
    }
    var gameLines := CollectNflGameLines(dayGames);
    r := Show(Embed("NFL Games - " + day, Bold(result.value.round), Some(Join(gameLines, "\n\n"))));
  }

  /** The single-day embed agrees with that day's embed in the full listing
      whenever the joined games fit in the field limit. */
  lemma NflDayReplyAgrees(result: Option<NflGames>, day: string)
    requires result.Some? && GamesOn(result.value.days, day) != []
    requires |Join(NflGameLines(GamesOn(result.value.days, day)), "\n\n")| <= FieldLimit
    ensures NflDayReply(result, day) == Show(NflDayEmbed(day, GamesOn(result.value.days, day), result.value.round))
  {
  }

  // ---------------------------------------------------------------------------
  // a sample page

  /** A text without the letter 'N' names no league: every name the walk
      looks for starts with 'N'. */
  lemma {:induction false} WithoutNLacks(text: string, sub: string)
    requires 'N' !in text && |sub| > 0 && sub[0] == 'N'
    ensures !Contains(text, sub)
    decreases |text|
  {
    if |text| > |sub| {
      assert !(sub <= text) by {
        assert text[0] in text;
      }
      assert forall c :: c in text[1..] ==> c in text;
      WithoutNLacks(text[1..], sub);
    }
  }

  /** A text without 'N' neither starts nor stops the NFL walk. */
  lemma WithoutNIsNoLeague(text: string)
    requires 'N' !in text
    ensures !Contains(text, NflLimits.fullName) && !ContainsAny(text, NflLimits.stopList)
  {
    WithoutNLacks(text, NflLimits.fullName);
    WithoutNLacks(text, NflLimits.stopList[0]);
    WithoutNLacks(text, NflLimits.stopList[1]);
  }

  /** A header "<day>, <date>" sets the day `day`. */
  lemma DayHeaderText(day: string, date: string, k: nat)
    requires k < |DayWords| && day == DayWords[k]
    requires ',' !in date && 'N' !in date
    ensures var text := day + ", " + date; IsDayHeader(NflLimits, Element(H2, text, text), day)
  {
    var text := day + ", " + date;
    assert DayWords[k] <= text;
    assert ',' !in day && 'N' !in day;
    assert text == day + [','] + (" " + date);
    SplitOfPieceThen(day, ',', " " + date);
    WithoutNIsNoLeague(text);
  }

  /** No day word starts with "Wi". */
  lemma NotDayHeader(text: string)
    requires |text| >= 2 && text[0] == 'W' && text[1] == 'i'
    ensures !StartsWithDayWord(text)
  {
    forall k | 0 <= k < |DayWords| ensures !(DayWords[k] <= text) {
      assert DayWords[k][1] != 'i' by {
        assert forall j :: 0 <= j < |DayWords| ==> DayWords[j][1] != 'i';
      }
    }
  }

  /** The texts of the sample schedule page. */
  const RoundText: string := "Wild Card Round"
  const TodayHeader: string := DayWords[0] + ", " + "January 13"
  const TomorrowHeader: string := DayWords[1] + ", " + "January 14"
  const SundayHeader: string := DayWords[8] + ", " + "January 15"
  const BasketballHeading: string := NflLimits.stopList[0] + " Association"

  /** The elements of the sample schedule page other than its game boxes. */
  const LeagueElement: Element := Element(H1, NflLimits.fullName, NflLimits.fullName)
  const RoundElement: Element := Element(P, RoundText, RoundText)
  const TodayElement: Element := Element(H2, TodayHeader, TodayHeader)
  const TomorrowElement: Element := Element(H2, TomorrowHeader, TomorrowHeader)
  const SundayElement: Element := Element(H2, SundayHeader, SundayHeader)
  const BasketballElement: Element := Element(H1, BasketballHeading, BasketballHeading)

  /** The sample schedule page, in document order, around five game boxes:
      the league heading, the round line, three day headers, and the
      basketball heading with some element `after` it. */
  function SamplePage(b1: Element, b2: Element, b3: Element, b4: Element, b5: Element, after: Element): seq<Element>
  {
    ThreeDayLayout(LeagueElement, RoundElement, TodayElement, b1, b2, TomorrowElement, b3, b4,
                   SundayElement, b5, BasketballElement, after)
  }

  lemma LeagueHeadingOfSample()
    ensures IsLeagueHeading(NflLimits, LeagueElement)
  {
    assert NflLimits.fullName <= NflLimits.fullName;
  }

  lemma RoundLineIsQuiet()
    ensures IsQuietElement(NflLimits, RoundElement)
  {
    WithoutNIsNoLeague(RoundText);
    NotDayHeader(RoundText);
  }

  lemma SampleHeaders()
    ensures IsDayHeader(NflLimits, TodayElement, "Today")
    ensures IsDayHeader(NflLimits, TomorrowElement, "Tomorrow")
    ensures IsDayHeader(NflLimits, SundayElement, "Sunday")
  {
    DayHeaderText(DayWords[0], "January 13", 0);
    DayHeaderText(DayWords[1], "January 14", 1);
    DayHeaderText(DayWords[8], "January 15", 8);
  }

  lemma BasketballStops()
    ensures IsStopHeading(NflLimits, BasketballElement)
  {
    var text := BasketballHeading;
    var sub := NflLimits.fullName;
    assert !(sub <= text) by { assert text[9] != sub[9]; }
    var rest := text[1..];
    assert 'N' !in rest;
    WithoutNLacks(rest, sub);
    assert NflLimits.stopList[0] <= text;
  }

  /** The sample page gives Today with two games, Tomorrow with two and
      Sunday with one, in that order; whatever follows the basketball
      heading is not read. The boxes are anchors that `parse` reads as games (the walk
      of `FetchNflGames` uses `NflGameOfBox`). */
  lemma SamplePageBuckets<G>(parse: string -> Option<G>, b1: Element, b2: Element, b3: Element, b4: Element, b5: Element, after: Element,
                             g1: G, g2: G, g3: G, g4: G, g5: G)
    requires IsGameBox(NflLimits, parse, b1, g1) && IsGameBox(NflLimits, parse, b2, g2)
    requires IsGameBox(NflLimits, parse, b3, g3) && IsGameBox(NflLimits, parse, b4, g4)
    requires IsGameBox(NflLimits, parse, b5, g5)
    ensures Run(NflLimits, parse, SamplePage(b1, b2, b3, b4, b5, after)).buckets ==
      [Bucket("Today", [g1, g2]), Bucket("Tomorrow", [g3, g4]), Bucket("Sunday", [g5])]
  {
    LeagueHeadingOfSample();
    RoundLineIsQuiet();
    SampleHeaders();
    BasketballStops();
    ThreeDayPage(NflLimits, parse, LeagueElement, RoundElement, TodayElement, b1, b2, TomorrowElement, b3, b4,
                 SundayElement, b5, BasketballElement, after, "Today", "Tomorrow", "Sunday", g1, g2, g3, g4, g5);
  }
}
