# plaintextsports and Bristol Mountain cogs, modelled in Dafny

This project models the parsing and formatting core of a set of Discord bot
cogs and one script:

- **The plaintextsports base cog** (`sportslib/base.py`), which the NHL, NBA
  and MLB cogs share. It does the following:
  - reads ASCII game boxes from plaintextsports.com and files them by day
    (`fetch_games`, `parse_game_box`);
  - formats team texts and game lines, and builds one embed per day
    (`format_team_info`, `build_day_embed`);
  - orders the days for display (`show_games`, `show_day`);
  - resolves a team name with a lookup table and a fuzzy fallback
    (`find_team_slug`);
  - keeps a 90-day cache of team lists (`fetch_team_list`);
  - cuts a team page down to its schedule, sorts it into sections and
    formats it as an embed with chunked fields (`fetch_team_schedule`,
    `parse_team_schedule`, `format_team_schedule_embed`,
    `_split_text_to_chunks`).
- **The legacy NFL cog** (`nfl/nfl.py`). It has its own copies of the box
  parser, the team formatter, the page walk and the display loops. The model
  proves where these agree with the base cog and where they differ.
- **The Bristol Mountain conditions cog**
  (`bristolMountainConditions/bristolconditions.py`). It reads the lift and
  trail tables of the resort's conditions page and posts a lift embed and a
  trail embed.
- **The stand-alone Bristol script** (`bristolConsitions/bristolgem.py`). It
  reads the same tables and prints them as fixed-width text.

HTML is not parsed here. Instead, each loop is given what BeautifulSoup
would give it:

- the text nodes of a page;
- the visited elements, each with its tag, stripped text and raw text;
- the linearised lines of a team page;
- the tables of the conditions page, as rows of cells with an optional
  `alt` text and the table's preceding heading.

An outcome that depends on the network is a parameter. This covers an HTTP
status, an exception, a fetched team list, the fuzzy matcher and the clock.

Modules:

| module | file | what it holds |
|---|---|---|
| `Text` | text.dfy | Python's `str` built-ins the core uses, over ASCII: `strip`, `split`, `split()`, `join`, `lower`, `upper`, `replace`, `isdigit`, `int`/`str`, `in`, padding |
| `GameBox` | game_box.dfy | `parse_game_box` of the base cog |
| `Chunks` | chunks.dfy | `_split_text_to_chunks` and the 1024-character field cut |
| `Extractor` | extractor.dfy | the page walk of `fetch_games` and `fetch_nfl_games`, which differ only in the league name, the stop list and the cap |
| `Sportslib` | sportslib.dfy | season year, `format_team_info`, `fetch_games`, `build_day_embed`, `show_games`, `show_day` |
| `TeamCache` | team_cache.dfy | `fetch_team_list` as a class over the stored dictionary |
| `TeamResolver` | team_resolver.dfy | `find_team_slug` |
| `TeamSchedule` | team_schedule.dfy | `fetch_team_schedule`'s line filter, `parse_team_schedule`, `format_team_schedule_embed` |
| `DrawnBox` | drawn_box.dfy | game boxes as drawn on the page, with borders and indentation, read by the box cleaning |
| `Nfl` | nfl.dfy | the legacy NFL cog |
| `BristolConditions` | bristol.dfy | the conditions cog |
| `BristolGem` | bristol_gem.dfy | the stand-alone script |

Each `for` loop of the modelled code is a method with its loop invariants.
This includes the game loop of `show_nfl_day` (`Nfl.CollectNflGameLines`,
called by `Nfl.ShowNflDay`). Each method is proved equal to a specification
function, and the properties are lemmas about that function. There are two
exceptions:

- The loops that only send replies (nfl/nfl.py:278) are not methods. The
  methods return the replies as a sequence, in the order they would be sent.
- The link loop of `fetch_team_list` (sportslib/base.py:157) is left out,
  as described below.

## Model

| member | source | states |
|---|---|---|
| Text.StripChars | sportslib/base.py:58 | `strip(chars)`: neither end of the result is one of the stripped characters |
| Text.StripCharsEmpty | sportslib/base.py:58-59 | a line strips to nothing exactly when every character of it is a border character |
| Text.Strip | sportslib/base.py:54 | `strip()`: neither end is whitespace and every character comes from the input |
| Text.StripCharsAround | sportslib/base.py:65 | a middle part whose ends are not stripped characters is kept whole; only the outer runs of the text around it go |
| Text.StripCharsKeepsOthers | sportslib/base.py:65 | a character that is not stripped survives stripping |
| Text.RemoveChar | sportslib/base.py:65 | `replace(c, '')`: the result has no `c`, and holds exactly the other characters of the input |
| Text.RemoveCharAppend | sportslib/base.py:65 | removal works piece by piece: the kept characters of the first part, then those of the second |
| Text.RemoveCharOne | sportslib/base.py:65 | one character is dropped when it is `c` and kept otherwise; with the piece-by-piece rule this fixes the result, in order, for every text |
| Text.RemoveCharCounts | sportslib/base.py:65 | every character other than `c` is kept as many times as it occurs |
| Text.StripRemoveStrip | sportslib/base.py:65 | strip, remove `c`, strip again leaves the middle part of the text without `c`, when the outer runs hold only `c` and stripped characters |
| Text.Split | sportslib/base.py:115 | `split('\n')`: at least one piece, no piece holds the separator, and joining the pieces gives the text back |
| Text.SplitOfJoin | sportslib/base.py:273 | splitting a join of separator-free pieces gives the pieces back |
| Text.Words | sportslib/base.py:94 | `split()`: every piece is a non-empty whitespace-free word; a text starting with a non-space starts its first word |
| Text.WordsOfJoin | sportslib/base.py:85 | `' '.join(words).split()` gives the words back, so a team name rebuilt from its tokens keeps them |
| Text.DigitsValueOfNatToString | sportslib/base.py:84 | `int(str(n)) == n`: a score read back from its text is the score |
| Text.IntToStringInjective | sportslib/base.py:138 | different years have different decimal texts |
| Text.Upper | bristolMountainConditions/bristolconditions.py:45 | `upper()` maps each character and keeps the length |
| Text.PadRight | bristolConsitions/bristolgem.py:81 | `f"{s:<n}"`: the text, then spaces up to width `n`, never cut |
| GameBox.NonBlankLines | sportslib/base.py:54 | only non-empty stripped lines are kept, never more lines than the text has |
| GameBox.KeptLines | sportslib/base.py:56-60 | every cleaned line is non-empty, has no `+`, space or `\|` at either end, and is not made only of `+` and `-` |
| GameBox.KeptLinesStep | sportslib/base.py:57-60 | a line is kept exactly when, with its border stripped, it is non-empty and not a rule; the kept text is the stripped one |
| GameBox.CleanBoxLines | sportslib/base.py:56-60 | the cleaning loop gives the box's usable lines, in order |
| GameBox.SideScore | sportslib/base.py:83-88 | a side has a score exactly when it has two or more tokens and the last is all digits; the team keeps the other tokens and the score is the last token's value |
| GameBox.NetworkOf | sportslib/base.py:65 | the network has no `-` and no surrounding whitespace |
| GameBox.NetworkOfEmpty | sportslib/base.py:65 | the network is empty exactly when the fourth line holds nothing but dashes and blanks |
| GameBox.NetworkOfSpan | sportslib/base.py:65 | for a line made of a run of dashes and blanks, a middle part whose first and last characters are neither, and another such run, the network is the middle part with its dashes removed, the other characters kept in order |
| GameBox.GameOfLines | sportslib/base.py:62-88 | no game with fewer than three lines; otherwise status, away and home are the first three lines stripped, the network is empty with three lines and read from the fourth otherwise, and each side's score split is its own |
| GameBox.GameOfBox | sportslib/base.py:48-90 | a box gives no game exactly when it has fewer than three usable lines |
| GameBox.ParseGameBox | sportslib/base.py:48-90 | the parser's result is the record of the box's cleaned lines; none exactly when fewer than three |
| GameBox.LaterLinesIgnored | sportslib/base.py:65-69 | lines after the fourth never change the record |
| GameBox.NetworkOfRule | sportslib/base.py:65 | a bottom border `------ FOX` gives the network `FOX` |
| Chunks.Truncate | sportslib/base.py:279-280 | the result is at most 1024 characters; a short value is unchanged; a long one keeps its first 1021 characters and ends in `...` |
| Chunks.TruncateIdempotent | sportslib/base.py:279-280 | cutting a cut value changes nothing |
| Chunks.JoinLines | sportslib/base.py:123 | each chunk is the newline join of its group |
| Chunks.SplitTextToChunks | sportslib/base.py:113-133 | the loop's chunks are the joins of the greedy grouping of the text's lines |
| Chunks.GreedyKeepsInvariant | sportslib/base.py:120-128 | after every line, the groups hold the lines read in order; every group of two or more lines keeps to the budget; every group but the first is non-empty; no group could have taken the next group's first line |
| Chunks.CloseKeepsInvariant | sportslib/base.py:122-125 | the branch that closes a chunk keeps that invariant |
| Chunks.ExtendKeepsInvariant | sportslib/base.py:126-128 | the branch that extends a chunk keeps that invariant |
| Chunks.GroupsOfGreedy | sportslib/base.py:130-131 | the emitted groups are the closed groups and the open one of the final state; no lines give no groups |
| Chunks.GroupsFlatten | sportslib/base.py:113-133 | the chunks' lines, read in order, are exactly the text's lines: nothing lost, repeated or reordered |
| Chunks.GroupsWithinBudget | sportslib/base.py:121-128 | every chunk of two or more lines fits the budget; only a single over-long line can exceed it |
| Chunks.EmptyChunkOnlyFirst | sportslib/base.py:122-123 | only the first chunk can be empty, and it is empty exactly when the first line alone is over the budget |
| Chunks.GroupsMaximal | sportslib/base.py:122-125 | no chunk could have taken the first line of the next one |
| Extractor.GamesOnBucket | sportslib/base.py:428 | with distinct days, looking up an entry's day gives that entry's games |
| Extractor.AddGameDays | sportslib/base.py:360-362 | adding a game keeps the days in order, appends a new day at the end, and keeps the days distinct |
| Extractor.AddGameDayList | sportslib/base.py:360-362 | the day list after adding a game: unchanged for a known day, one more at the end for a new one |
| Extractor.AddGameEntry | sportslib/base.py:360-362 | every other entry is unchanged and the day's own entry gets the game at its end |
| Extractor.AddGameNewEntry | sportslib/base.py:360-361 | a new day's entry comes last and holds only the game |
| Extractor.GamesOnOfAddGame | sportslib/base.py:360-362 | after adding a game, the day's games have it at the end and every other day is unchanged |
| Extractor.AddGameNewDay | sportslib/base.py:360-362 | a game of a new day opens a bucket at the end |
| Extractor.AddGameLastDay | sportslib/base.py:360-362 | a game of the last day joins the last bucket |
| Extractor.TotalGamesOfAddGame | sportslib/base.py:342 | every game added raises the total counted by the safety limit by one |
| Extractor.StepGood | sportslib/base.py:330-362 | each element keeps the walk's invariant: distinct day-word keys, no empty entry, games only once processing, a day-word current day, the cap kept |
| Extractor.AddGameGood | sportslib/base.py:341-362 | adding a game under the cap keeps that invariant |
| Extractor.Run | sportslib/base.py:330-362 | the state after any prefix of the page satisfies the invariant |
| Extractor.StoppedIsFinal | sportslib/base.py:339-343 | once the walk has broken out, the rest of the page changes nothing |
| Extractor.ExtractGames | sportslib/base.py:326-362 | the loop gives the walk's buckets: distinct day words, each with at least one game, and at most the cap in total |
| Extractor.NothingBeforeSport | sportslib/base.py:333-346 | a page whose elements never name the sport collects nothing |
| Extractor.StopListEndsWalk | sportslib/base.py:339-340 | an element naming another league, met while the sport is processed, ends the walk: nothing from it on is collected |
| Extractor.AllGamesOfAddGame | sportslib/base.py:360-362 | the games after adding `g` are the games before and `g` |
| Extractor.StepGames | sportslib/base.py:357-362 | one element adds at most the parse of its own raw text, and only when it is an anchor holding `+-` |
| Extractor.GamesComeFromAnchors | sportslib/base.py:357-362 | every collected game is the parse of an anchor of the page whose text holds `+-` |
| Extractor.AdvanceLeague | sportslib/base.py:333-335 | the league's heading starts processing and changes nothing else |
| Extractor.AdvanceQuiet | sportslib/base.py:330-362 | below the cap, or with none, an element that is no heading, day header or game box changes nothing |
| Extractor.AdvanceHeader | sportslib/base.py:349-354 | below the cap, or with none, a day header sets the current day and changes nothing else |
| Extractor.AdvanceNewDay | sportslib/base.py:357-362 | below the cap, or with none, a game box of a new day opens that day's bucket at the end |
| Extractor.AdvanceSameDay | sportslib/base.py:357-362 | below the cap, or with none, a further game box of the last day joins that day's bucket |
| Extractor.AdvanceStop | sportslib/base.py:339-340 | a stop heading ends the walk |
| Extractor.ThreeDayPage | sportslib/base.py:326-362 | with no cap or a cap above five, a page laid out as heading, round line, three day headers with two, two and one game boxes, then another league, gives three buckets in page order; nothing after the stop is read |
| Extractor.FiledContents | sportslib/base.py:357-362 | adding dated games one by one files each under its day in order, keys the days by first appearance, and counts every game |
| Extractor.DayBeforeFirstHeader | sportslib/base.py:327 | before any day header of the section, the day is "Today" |
| Extractor.DayBeforeIsLatestHeader | sportslib/base.py:349-354 | after a header with no later header, the day is that header's label |
| Extractor.EveryBoxCounted | sportslib/base.py:357-362 | every anchor of the section holding `+-` whose box parses is among the reference's games, under the latest day before it |
| Extractor.UncappedRun | sportslib/base.py:326-362 | without a cap, the walk after any prefix is the reference state: processing from the league's name on, the latest day, every game so far filed by day, stopped exactly at a stop heading |
| Extractor.CappedRun | sportslib/base.py:339-343 | with a cap, the walk equals the reference until it stops; it stops only at a stop heading or once the cap is reached; it holds the first `cap` games of the section |
| Extractor.WalkCollectsExpected | sportslib/base.py:326-362 | for the whole page, each day's games are exactly the section's parsing boxes under the latest header before them ("Today" first), in page order, only the first `cap` with a cap; the days are keyed in order of their first game |
| Sportslib.SeasonYear | sportslib/base.py:43-46 | the season is this year exactly from the season's start month on, and last year before it |
| Sportslib.SeasonYearMonotone | sportslib/base.py:43-46 | a later date never belongs to an earlier season |
| Sportslib.FormatTeamInfo | sportslib/base.py:92-111 | the whole table over the whitespace-split tokens: a numeric seed and two more give bold team and parenthesised record, another triple is unchanged; a pair with `-` gives team and record, a pair with a number gives team and score, any other pair is unchanged; one token is made bold; none or more than three are unchanged |
| Sportslib.SeededTeamFormat | sportslib/base.py:96-99 | `5 LAR 12-5` shows as `**LAR** *(12-5)*`: a numeric seed is dropped and the record put in parentheses |
| Sportslib.RecordTeamFormat | sportslib/base.py:100-103 | `DAL 12-5` shows as `**DAL** *(12-5)*` |
| Sportslib.ScoredTeamFormat | sportslib/base.py:104-107 | `LAR 5` shows as `**LAR** 5` |
| Sportslib.UnseededTripleUnchanged | sportslib/base.py:96-111 | three tokens whose first is not a number are returned unchanged |
| Sportslib.RoundLabel | sportslib/base.py:314-324 | the label is `<name> Games` or holds a round keyword; a following text holding a keyword once stripped is the label; a following text without one, or none at all, gives the default `<name> Games` |
| Sportslib.LocateSport | sportslib/base.py:302-309 | the search loop finds the sport exactly when some text node holds its full name |
| Sportslib.PageOutcome | sportslib/base.py:311-367 | a found result has the round label and the walk's buckets; a missing sport gives the "section not found" message; no games gives the "no games" message |
| Sportslib.FetchGames | sportslib/base.py:286-371 | an HTTP error and an exception give their own messages; a fetched page gives the page's outcome |
| Sportslib.FoundGamesWellFormed | sportslib/base.py:326-367 | a found result's days are distinct day words, each with at least one game, and every game is the parse of a game box of the page |
| Sportslib.GameLine | sportslib/base.py:384-396 | a game's text starts with its bold status and a newline, and ends in ` - <network>` when there is a network |
| Sportslib.NetworkSuffix | sportslib/base.py:395-396 | the network part is empty exactly when there is no network, and otherwise is ` - ` followed by the network |
| Sportslib.GameLineSides | sportslib/base.py:384-396 | the text between the status line and the network part is `<away> @ <home>`: each side's bold team and score when both sides have a score, otherwise both sides through the team formatter |
| Sportslib.ScoredGameLine | sportslib/base.py:384-388 | a game with both scores reads `**<status>**`, newline, `**<away team>** <score> @ **<home team>** <score>`, then the network part |
| Sportslib.BoxGameLine | sportslib/base.py:384-396 | the text of the game parsed from a box's cleaned lines: the stripped first line in bold; the two sides with their scores when both side lines end in a number, otherwise both formatted; then the network read from the fourth line |
| Sportslib.GameLines | sportslib/base.py:382-397 | one line per game, in order |
| Sportslib.DayEmbed | sportslib/base.py:373-406 | the title names the sport and day and the description is the bold round; there is a "Games" field exactly when there are games, within the field limit, and it is the game lines joined by blank lines and cut to 1024 characters |
| Sportslib.BuildDayEmbed | sportslib/base.py:373-406 | the loop builds that embed |
| Sportslib.Present | sportslib/base.py:424 | the known days kept are those in both lists, and they stay distinct |
| Sportslib.Extras | sportslib/base.py:425 | the other days are exactly the fetched days not in the fixed order, and they stay distinct |
| Sportslib.FilterKeepsOrder | sportslib/base.py:424-425 | filtering a list of distinct labels keeps their relative order |
| Sportslib.PresentKeepsOrder | sportslib/base.py:424 | the known days kept come in the fixed order |
| Sportslib.ExtrasKeepOrder | sportslib/base.py:425 | the other days come in the order they were fetched |
| Sportslib.ArrangedOrder | sportslib/base.py:420-425 | for any fixed order of distinct labels: every day once and nothing else, the known ones first in the fixed order, then the others in fetched order |
| Sportslib.DisplayDaysOrder | sportslib/base.py:420-425 | the display order lists every fetched day exactly once and nothing else, known days first in the fixed order, each known one before every other label |
| Sportslib.EmbedDays | sportslib/base.py:427-430 | the loop sends one embed for each day in the order that has games |
| Sportslib.ShowGames | sportslib/base.py:408-430 | `show_games` sends the failure text for a problem, otherwise the day embeds in display order |
| Sportslib.DayReply | sportslib/base.py:432-449 | `show_day` shows an embed exactly when the fetch succeeded and the day has games, and that embed is the day's own; a problem is passed on as text |
| Sportslib.DayRepliesAll | sportslib/base.py:427-430 | when every listed day has games, each gets its embed, in order |
| Sportslib.DayRepliesLength | sportslib/base.py:427-430 | then there are as many embeds as days |
| Sportslib.DayRepliesAt | sportslib/base.py:427-430 | then the k-th embed is the k-th day's |
| Sportslib.OneEmbedPerDay | sportslib/base.py:420-430 | each fetched day gets exactly one embed, titled with that day, in display order, and its field is within the limit |
| TeamCache.FreshEntryAnswered | sportslib/base.py:140-143 | an entry younger than 90 days is answered as stored, whatever a fetch would give, and nothing is stored |
| TeamCache.OnlyKeyChanges | sportslib/base.py:163-165 | only the requested key can change, and only to a non-empty list stamped with the current time |
| TeamCache.EmptyFetchStoresNothing | sportslib/base.py:163-167 | an empty or failed fetch answers nothing and stores nothing |
| TeamCache.StoredListAnsweredLater | sportslib/base.py:140-164 | a list stored at time `t` is answered without a fetch by every call made less than 90 days later |
| TeamCache.CacheKeyInjective | sportslib/base.py:138 | different sports or years have different keys (slugs hold no `_`) |
| TeamCache.TeamListCache.constructor | sportslib/base.py:137 | the stored dictionary starts empty |
| TeamCache.TeamListCache.FetchTeamList | sportslib/base.py:135-167 | the call answers and updates the dictionary as one cache step under the key `<slug>_<year>` |
| TeamResolver.PutAllContents | sportslib/base.py:175-180 | after a team's writes, the keys are the old ones and the written ones, and every written key leads to that team |
| TeamResolver.SearchTableIsLastOwner | sportslib/base.py:173-180 | the table holds exactly the keys some team has, and each leads to the last team that has it |
| TeamResolver.SearchTableValues | sportslib/base.py:173-180 | every entry of the table is a team of the list |
| TeamResolver.KeysInTable | sportslib/base.py:174-180 | every key of every team is in the table |
| TeamResolver.WriteTeam | sportslib/base.py:175-180 | the writes of one team: name, slug, space-free name, then each word, all lower-cased |
| TeamResolver.BuildTable | sportslib/base.py:173-180 | the loop builds the table of the whole list |
| TeamResolver.FindTeamSlug | sportslib/base.py:169-186 | an exact key gives its team; otherwise the fuzzy match's key gives its team, or nothing; any answer is a team of the list, and an empty list gives nothing |
| TeamSchedule.FirstMarkerIsFirst | sportslib/base.py:219-221 | no line before the first marker line is a marker line, and the line it points at is one |
| TeamSchedule.FirstFooterIsFirst | sportslib/base.py:222-224 | no line before the first footer line is a footer line, and the line it points at is one |
| TeamSchedule.LongLinesKeeps | sportslib/base.py:225-226 | a line is kept exactly when it is longer than two characters |
| TeamSchedule.ScheduleLines | sportslib/base.py:217-228 | the collected lines are the team name, the record, an empty line, then the lines longer than two characters from the first marker line up to, not including, the first footer line |
| TeamSchedule.ScheduleBodyLines | sportslib/base.py:219-226 | every schedule line is longer than two characters, is no footer, and comes from the marker line on |
| TeamSchedule.NoMarkerNoSchedule | sportslib/base.py:218-222 | a page with no marker line gives no schedule lines |
| TeamSchedule.SectionPrecedence | sportslib/base.py:247-252 | `Playoffs:` or `Postseason:` opens the playoffs; otherwise `Regular Season:` opens the regular season, otherwise `Preseason:` the preseason; a line opens a section exactly when the fetch filter counts it as a marker |
| TeamSchedule.ScheduleOf | sportslib/base.py:233-256 | the parsed postseason is always empty |
| TeamSchedule.SortLines | sportslib/base.py:242-254 | the loop gives the sorted state of the lines |
| TeamSchedule.ParseTeamSchedule | sportslib/base.py:233-256 | the parser gives the schedule of the raw text |
| TeamSchedule.LineGoesToOneSection | sportslib/base.py:247-254 | each line goes to exactly one section, the one it opens or else the open one; the other two are unchanged |
| TeamSchedule.SectionsHoldLinesFromFirstMarker | sportslib/base.py:242-254 | the sections hold exactly as many lines as there are from the first marker line on, and a section is open exactly when a marker line has been seen |
| TeamSchedule.SortLineCounts | sportslib/base.py:253-254 | a line is added to a section exactly when one is open after it |
| TeamSchedule.SectionLinesFromInput | sportslib/base.py:243-254 | every section line is one of the lines read |
| TeamSchedule.ScheduleLinesTrimmed | sportslib/base.py:244-246 | every line of a parsed section is non-blank and stripped |
| TeamSchedule.ChunkFields | sportslib/base.py:275-277 | one fenced field per chunk, the first named after the section and the rest "(cont.)" |
| TeamSchedule.AddSectionFields | sportslib/base.py:270-281 | the loop over one section builds its fields |
| TeamSchedule.ScheduleFields | sportslib/base.py:267-281 | the loop over the section list builds each section's fields after those of the sections before it |
| TeamSchedule.ScheduleFieldsInOrder | sportslib/base.py:267-281 | the fields are those of playoffs, postseason, the chunked regular season and preseason, in that order |
| TeamSchedule.SectionFieldsBounded | sportslib/base.py:278-281 | a non-chunked section gives one field named after it, holding its lines joined and cut to 1024 characters, then fenced; the value is 8 longer than the cut text, so over 1024 exactly when the text is over 1016 |
| TeamSchedule.FormatTeamScheduleEmbed | sportslib/base.py:258-284 | the embed's title, description, fields and footer for the season |
| TeamSchedule.ScheduleEmbedShape | sportslib/base.py:258-284 | a section has fields exactly when it has lines; the embed has no field exactly when all sections are empty; no description exactly when the record is empty |
| TeamSchedule.ChunksNotEmpty | sportslib/base.py:275 | a regular season always gives at least one chunk |
| Nfl.NflGameOfLines | nfl/nfl.py:41-54 | no game with fewer than three cleaned lines |
| Nfl.ParseNflGameBox | nfl/nfl.py:21-56 | the legacy parser gives the record of the cleaned lines |
| Nfl.LegacyParserAgrees | nfl/nfl.py:21-56 | both parsers accept the same boxes and read the same time/status, away, home and network |
| Nfl.FewLinesRejected | nfl/nfl.py:41-42 | a text of fewer than three lines is never a game |
| Nfl.OneLineRejected | tests/unit/test_nfl_parsing.py:77-92 | a one-line text (the empty string, `+-+ BROKEN +-+`) gives nothing |
| Nfl.BoxWithNetwork | nfl/nfl.py:21-56 | any indented box drawn with a `+---+` top, three `\| text \|` rows and a bottom border `+---- FOX +` gives the three texts and that network |
| Nfl.BoxWithoutNetwork | nfl/nfl.py:21-56 | the same box with a plain bottom rule gives the three texts and an empty network |
| Nfl.IncompleteBoxRejected | nfl/nfl.py:31-42 | a drawn box with a single row between its rules gives nothing |
| Nfl.StandardTestBox | tests/unit/test_nfl_parsing.py:20-37 | the standard test box gives `4:30 PM ET`, `5 LAR 12-5`, `4 CAR 8-9` and `FOX` |
| Nfl.NoNetworkTestBox | tests/unit/test_nfl_parsing.py:39-56 | the test box without a network gives an empty network |
| Nfl.NoSeedsTestBox | tests/unit/test_nfl_parsing.py:58-75 | the unseeded test box gives `DAL 12-5`, `SF 13-4` and `CBS` |
| Nfl.IncompleteTestBox | tests/unit/test_nfl_parsing.py:94-105 | the incomplete test box, with only a time row, gives nothing |
| Nfl.NflFormatTeamInfo | nfl/nfl.py:58-76 | the whole table over the whitespace-split tokens: three give bold second and parenthesised third, two give bold first and parenthesised second, any other count is unchanged |
| Nfl.FormattersAgree | nfl/nfl.py:58-76 | the legacy and base formatters agree exactly for a numeric seed triple, a pair whose second token holds `-`, no tokens, or more than three |
| Nfl.NflSeededFormat | nfl/nfl.py:66-69 | any three tokens show as the bold second and the third in parentheses, whatever the first is; the base formatter agrees exactly when the first token is a number |
| Nfl.SpacesDiffer | sportslib/base.py:96-111 | an unseeded triple left as it is never equals its legacy form |
| Nfl.NflPairFormat | nfl/nfl.py:70-73 | two tokens show as the bold first and the second in parentheses; the base formatter agrees when the second holds `-` |
| Nfl.NflSingleTokenUnchanged | nfl/nfl.py:74-76 | a lone token is returned as it is, where the base formatter makes it bold |
| Nfl.NflFormatSeededCase | tests/unit/test_nfl_parsing.py:112-118 | `5 LAR 12-5` shows as `**LAR** *(12-5)*` |
| Nfl.NflFormatPairCase | tests/unit/test_nfl_parsing.py:120-126 | `DAL 12-5` shows as `**DAL** *(12-5)*` |
| Nfl.NflFormatSingleCase | tests/unit/test_nfl_parsing.py:136-142 | `TEAM` stays `TEAM` |
| Nfl.NflRoundLabel | nfl/nfl.py:108-113 | the label is "NFL Games" unless the following text holds "Wild Card" or "Week", in which case it is that text stripped |
| Nfl.FetchNflGames | nfl/nfl.py:78-179 | every failure gives nothing; a fetched page gives the page's result |
| Nfl.NflResultWellFormed | nfl/nfl.py:115-163 | a result means the league was found and holds distinct day words, each with at least one game, every game parsed from an anchor of the page holding `+-`; a page whose elements never name the league gives nothing |
| Nfl.NflWalkHasNoCap | nfl/nfl.py:130-154 | the NFL walk has no safety limit: a game box met while processing is always added |
| Nfl.BaseWalkStopsAtCap | sportslib/base.py:341-343 | the base walk stops in the same position once it holds 30 games |
| Nfl.NflGameLine | nfl/nfl.py:215-224 | a game's text starts with its bold time and ends in ` - <network>` when there is one |
| Nfl.NflGameLineSides | nfl/nfl.py:215-224 | the text between the time line and the network part is `<away> @ <home>` with both sides always through the NFL formatter, never a score |
| Nfl.NflBoxGameLine | nfl/nfl.py:215-224 | the text of the game parsed from a box's cleaned lines: the stripped first line in bold, the two stripped side lines formatted, then the network read from the fourth line |
| Nfl.NflGameLines | nfl/nfl.py:214-224 | one line per game, in order |
| Nfl.NflDayEmbed | nfl/nfl.py:207-236 | titled "NFL Games - <day>", the bold round as description; a field exactly when there are games, within the limit, holding the game lines joined by blank lines and cut to 1024 characters |
| Nfl.BuildNflDayEmbed | nfl/nfl.py:207-239 | the loop over the games builds that embed |
| Nfl.CollectNflGameLines | nfl/nfl.py:363-372 | the loop gives one line per game of the day, in order |
| Nfl.EmbedOrderedDays | nfl/nfl.py:199-239 | the first loop gives one embed per day of the fixed order that has games |
| Nfl.EmbedExtraDays | nfl/nfl.py:241-275 | the second loop gives one embed per remaining entry with games, in insertion order |
| Nfl.ShowNflGames | nfl/nfl.py:181-279 | `show_nfl_games` sends the apology without games, otherwise both loops' embeds in turn |
| Nfl.OrderedEmbedsConcat | nfl/nfl.py:199-239 | the first loop over two runs of days is the two runs' embeds in turn |
| Nfl.GamesOnAbsent | nfl/nfl.py:349 | a day that is not in the map has no games |
| Nfl.OrderedEmbedsPresent | nfl/nfl.py:199-205 | skipping missing days, the fixed order gives the same embeds as its days that occur |
| Nfl.OrderedEmbedsTail | nfl/nfl.py:199-203 | looking up days other than the first entry's never sees that entry |
| Nfl.ExtraEmbedsAreExtras | nfl/nfl.py:242-243 | with distinct days, the second loop gives the embeds of the days not in the fixed order, in insertion order |
| Nfl.NflDisplayOrderMatchesBase | nfl/nfl.py:194-275 | the NFL cog shows the days in the same order as the base cog's `show_games` |
| Nfl.NoExtraDaysFetched | nfl/nfl.py:138-142 | every fetched day is a day word of the fixed order, so the second loop never adds an embed |
| Nfl.NoExtraEmbeds | nfl/nfl.py:241-243 | days that are all day words give no extra embeds |
| Nfl.NflDayReply | nfl/nfl.py:340-382 | an embed exactly when the result has games for the day; its field is the games joined by blank lines, not cut |
| Nfl.NflDayReplyAgrees | nfl/nfl.py:362-378 | that embed agrees with the day's embed in the full listing whenever the joined games fit the field limit |
| Nfl.ShowNflDay | nfl/nfl.py:340-382 | `show_nfl_day` sends that reply |
| Nfl.WithoutNLacks | nfl/nfl.py:126-131 | a text without `N` holds none of the league names the walk looks for |
| Nfl.WithoutNIsNoLeague | nfl/nfl.py:126-131 | such a text neither starts nor stops the NFL walk |
| Nfl.DayHeaderText | nfl/nfl.py:138-144 | a header "<day>, <date>" sets the day `day` |
| Nfl.NotDayHeader | nfl/nfl.py:138 | a text starting "Wi" (the round line) is no day header |
| Nfl.LeagueHeadingOfSample | tests/fixtures/nfl_html_samples.py:9 | the sample's league heading starts the walk |
| Nfl.RoundLineIsQuiet | tests/fixtures/nfl_html_samples.py:10 | the sample's round line changes nothing |
| Nfl.SampleHeaders | tests/fixtures/nfl_html_samples.py:12-46 | the sample's three headers set Today, Tomorrow and Sunday |
| Nfl.BasketballStops | tests/fixtures/nfl_html_samples.py:55 | the basketball heading stops the walk |
| Nfl.SamplePageBuckets | tests/fixtures/nfl_html_samples.py:6-59 | the sample page gives Today with two games, Tomorrow with two and Sunday with one, in that order; what follows the basketball heading is not read |
| DrawnBox.BoxLinesByLine | nfl/nfl.py:31-39 | cleaning a text cleans each of its lines on its own, in order |
| DrawnBox.DrawnBoxLines | nfl/nfl.py:31-39 | a drawn box's blank lines and top rule are dropped; what is kept is the rows' texts, then the bottom's |
| DrawnBox.RowLineKept | nfl/nfl.py:35-39 | an indented `\|  text  \|` row keeps exactly its text |
| DrawnBox.RuleLineDropped | nfl/nfl.py:37-38 | an indented `+----+` rule is dropped |
| DrawnBox.NetworkLineKept | nfl/nfl.py:35-39 | an indented `+---- FOX +` border keeps its dashes and the name |
| DrawnBox.NetworkOfBorder | nfl/nfl.py:45-47 | the network read from such a border is the name |
| DrawnBox.GameRowsKept | nfl/nfl.py:35-39 | three drawn game rows keep the time, away and home texts |
| DrawnBox.DrawnGameBoxLines | nfl/nfl.py:31-39 | a drawn game box cleans to its time, away and home, then what its bottom keeps |
| BristolConditions.LiftsAppend | bristolMountainConditions/bristolconditions.py:40-46 | reading rows block by block reads their lifts block by block |
| BristolConditions.LiftsFromRows | bristolMountainConditions/bristolconditions.py:40-46 | every lift is named by the first cell of a row with at least two cells, its status is that row's second cell upper-cased, and the status has no lower-case letter |
| BristolConditions.ExtractLifts | bristolMountainConditions/bristolconditions.py:37-46 | the loop reads the lifts of the rows after the header row |
| BristolConditions.HeaderDifficultyFirstKeyword | bristolMountainConditions/bristolconditions.py:53-60 | a heading names the difficulty of the first keyword it holds, in the order easier, more difficult, most difficult, extremely difficult; "Unknown" exactly when it holds none or is absent |
| BristolConditions.ConditionsWithoutComments | bristolMountainConditions/bristolconditions.py:72-84 | with no comments, the conditions are the surface alone |
| BristolConditions.ScanAppend | bristolMountainConditions/bristolconditions.py:62-85 | scanning two blocks of rows is scanning one, then the other from where it left off |
| BristolConditions.ScanAddsTrailRows | bristolMountainConditions/bristolconditions.py:62-85 | trails already read are kept, and every trail added comes from a trail row of the block with its name, upper-cased status and conditions |
| BristolConditions.ScanWithoutAlt | bristolMountainConditions/bristolconditions.py:75-78 | with no `alt` in the trail rows, the difficulty stays as it was and every trail carries it |
| BristolConditions.AltPersists | bristolMountainConditions/bristolconditions.py:75-78 | an `alt` sets the difficulty of its trail and of every later trail of the table until another row has an `alt` |
| BristolConditions.TrailsAppend | bristolMountainConditions/bristolconditions.py:51-53 | the difficulty starts over with every table: two runs of tables give each run's trails in turn |
| BristolConditions.UnknownWithoutHints | bristolMountainConditions/bristolconditions.py:53-78 | a table with no keyword in its heading and no `alt` gives only "Unknown" trails |
| BristolConditions.ScanTable | bristolMountainConditions/bristolconditions.py:53-85 | the loop over one table appends that table's trails |
| BristolConditions.ExtractTrails | bristolMountainConditions/bristolconditions.py:48-85 | the loop over the tables gives the trails of every table after the first |
| BristolConditions.GetBristolConditions | bristolMountainConditions/bristolconditions.py:18-87 | nothing on both sides exactly when the page is missing or has fewer than two tables; otherwise the lifts of the first table and the trails of the rest |
| BristolConditions.MinimalPageConditions | tests/fixtures/bristol_html_samples.py:55-71 | the minimal page gives the lift Rocket Lodge, OPEN, and the trail Lower Rocket, "● Easier", OPEN, "Packed Powder" |
| BristolConditions.RepliesShape | bristolMountainConditions/bristolconditions.py:91-156 | without data only the apology; otherwise the lift embed with one "Lifts" field, then the trail embed with the footer, both in the site's colour and linking to the conditions page |
| BristolConditions.LiftLineIcon | bristolMountainConditions/bristolconditions.py:109-110 | a lift line starts with a check mark exactly when the status is OPEN and with a cross otherwise, then the name in bold |
| BristolConditions.TrailsPartition | bristolMountainConditions/bristolconditions.py:129-130 | open and closed trails together are the trails, as a multiset |
| BristolConditions.TrailsPartitionCount | bristolMountainConditions/bristolconditions.py:129-130 | every trail is counted once, as open or as closed |
| BristolConditions.OpenTrailsAreOpen | bristolMountainConditions/bristolconditions.py:129 | the open trails are exactly the trails whose status is OPEN |
| BristolConditions.ClosedTrailsAreClosed | bristolMountainConditions/bristolconditions.py:130 | the closed trails are exactly the trails with any other status |
| BristolConditions.OpenFieldShape | bristolMountainConditions/bristolconditions.py:132-144 | an open field exactly when some trail is open; it counts all open trails and lists the first 15 |
| BristolConditions.ClosedFieldShape | bristolMountainConditions/bristolconditions.py:146-152 | a closed field exactly when some trail is not open; it counts all closed trails and strikes through the first 10 names |
| BristolConditions.LiftLines | bristolMountainConditions/bristolconditions.py:107-110 | the loop gives one line per lift, in order |
| BristolConditions.OpenTrailLines | bristolMountainConditions/bristolconditions.py:133-138 | the loop gives one line per listed open trail, in order |
| BristolConditions.Bristol | bristolMountainConditions/bristolconditions.py:91-156 | the command sends the replies for the page's conditions |
| BristolGem.GetBristolConditions | bristolConsitions/bristolgem.py:4-70 | the script reads the tables exactly as the cog does; nothing exactly when the page is missing or has fewer than two tables; statuses are upper case |
| BristolGem.Center | bristolConsitions/bristolgem.py:75 | `f"{s:^n}"` has width `n` (or the text's own width) and holds the text at the centre, the odd space on the right; every other character is a space |
| BristolGem.LiftRowIcon | bristolConsitions/bristolgem.py:79-81 | a lift row starts with the name, and its icon is a check mark exactly when the status is OPEN and a cross otherwise |
| BristolGem.TrailRowIcon | bristolConsitions/bristolgem.py:89-91 | a trail row starts with the name, and its icon is a check mark exactly when the status is OPEN and a cross otherwise |
| BristolGem.DisplayResults | bristolConsitions/bristolgem.py:72-91 | the lift heading, one row per lift, the trail heading, one row per trail, in order |
| BristolGem.ScriptMain | bristolConsitions/bristolgem.py:93-97 | the announcement, then the tables only when lifts and trails were both found and non-empty |
| BristolGem.ScriptShowsTablesWhenFound | bristolConsitions/bristolgem.py:93-97 | the tables are printed exactly when the page has two tables and yields both a lift and a trail |

## Left out

- HTTP requests, timeouts and sessions are not modelled. A non-200 status,
  a raised exception and a fetched body are the cases of a `Response`
  value, or an absent page for the Bristol code.
- BeautifulSoup is not modelled:
  - `find_all(string=True)`, `find_next` and `find_previous` are not
    modelled, and neither is the regular-expression linearisation of a
    team page (sportslib/base.py:212-215).
  - The model takes their results as inputs. These are the text nodes, the
    following text after the sport's heading, the visited elements, the
    team page's lines and each table's preceding heading.
  - Which node BeautifulSoup returns in each case is outside the model.
- `fetch_team_schedule` is not modelled in full: the team name and record
  lookups (sportslib/base.py:200-210) are inputs. Only the line filter is
  modelled.
- Fetching the team list's links is not modelled
  (sportslib/base.py:145-161). The fetch's result is an input to the cache
  step.
- `difflib.get_close_matches` is a parameter that answers one of the keys
  offered or nothing. Its similarity ratio and its 0.6 cut-off are not
  modelled.
- The clock is not modelled. `datetime.now()` becomes a year and month or a
  timestamp passed in, and embed timestamps, colours of the sports cogs and
  footers other than Bristol's are dropped.
- Discord objects are reduced to the parts that carry the content: title,
  description, fields and footer. `inline`, typing indicators, permissions,
  command registration, the `nfl` group and its day subcommands, and
  `setup` are not modelled.
- Logging and the `print` diagnostics of the NFL cog and the Bristol code
  are not modelled. The script's own table output is modelled as the
  strings printed.
- `show_team` (sportslib/base.py:451-482) is not modelled. It only chains
  the fetchers and formatters modelled here.
- `test_connection` (sportslib/base.py:484-500) and `nfltest`
  (nfl/nfl.py:384-401) are not modelled. They are network diagnostics with
  no logic of their own.
- Python's `str.isspace`, `isdigit`, `lower` and `upper` are modelled on
  ASCII only. Unicode case mapping and Unicode whitespace are not.
- BristolConditions.Conditions: the "N/A" surface branch
  (bristolconditions.py:72) is not modelled. The row filter already requires
  three cells, so that branch is never taken.
- Extractor.ThreeDayPage and Nfl.SamplePageBuckets are stated for game boxes
  that parse. The ASCII boxes of the fixture are not run through the parser
  inside these lemmas.
- Discord's 1024-character limit on a field value is not enforced by the
  model, and the source does not keep to it either. A fenced schedule field
  (sportslib/base.py:275-281) can reach 1032 characters;
  `TeamSchedule.SectionFieldsBounded` states its exact length.
- TeamCache.IsFresh: `cached_at` is a float timestamp in the source and an
  integer number of seconds here.
