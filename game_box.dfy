/**
 * The game-box parser of sportslib/base.py (`parse_game_box`): one ASCII box
 *
 *     +--------------+
 *     |  4:30 PM ET  |
 *     | 5 LAR 12-5   |
 *     | 4 CAR 8-9    |
 *     +--------- FOX +
 *
 * becomes a game record. The box lines are cleaned by a loop shared with the
 * legacy NFL parser (module Nfl).
 */
module GameBox {
  import opened Text

  /** The characters `str.strip('+ |')` takes off both ends of a box line. */
  const BoxBorder: set<char> := {'+', ' ', '|'}

  /** A line made only of '+' and '-': a horizontal rule of the box. */
  predicate IsRule(s: string)
  {
    forall i :: 0 <= i < |s| ==> s[i] == '+' || s[i] == '-'
  }

  /** What survives cleaning: non-empty, not a rule, and no border character at either end. */
  predicate IsUsable(c: string)
  {
    c != "" && !IsRule(c) && c[0] !in BoxBorder && c[|c| - 1] !in BoxBorder
  }

  /** `[line.strip() for line in lines if line.strip()]`. */
  function NonBlankLines(lines: seq<string>): (r: seq<string>)
    ensures |r| <= |lines|
    ensures forall l :: l in r ==> l != "" && l == Strip(l)
    decreases |lines|
  {
    if lines == [] then []
    else
      var t := Strip(lines[0]);
      assert t != "" ==> Strip(t) == t;
      if t == "" then NonBlankLines(lines[1..]) else [t] + NonBlankLines(lines[1..])
  }

  /** The cleaning loop's result on a prefix of the non-blank lines: each
      line stripped of border characters and kept when it is not empty and
      not made only of '+' and '-'. */
  function KeptLines(lines: seq<string>): (r: seq<string>)
    ensures |r| <= |lines|
    ensures forall k :: 0 <= k < |r| ==> IsUsable(r[k])
    decreases |lines|
  {
    if lines == [] then []
    else
      var kept := KeptLines(lines[..|lines| - 1]);
      var c := StripChars(lines[|lines| - 1], BoxBorder);
      if c != "" && !IsRule(c) then kept + [c] else kept
  }

  lemma KeptLinesStep(lines: seq<string>, i: nat)
    requires i < |lines|
    ensures var c := StripChars(lines[i], BoxBorder);
      KeptLines(lines[..i + 1]) == KeptLines(lines[..i]) + (if c != "" && !IsRule(c) then [c] else [])
  {
    assert lines[..i + 1][..i] == lines[..i];
    assert lines[..i + 1][i] == lines[i];
  }

  lemma KeptLinesAdvance(lines: seq<string>, i: nat, before: seq<string>, after: seq<string>)
    requires i < |lines| && before == KeptLines(lines[..i])
    requires var c := StripChars(lines[i], BoxBorder);
      after == if c != "" && !IsRule(c) then before + [c] else before
    ensures after == KeptLines(lines[..i + 1])
  {
    KeptLinesStep(lines, i);
    assert before + [] == before;
  }

  /** The usable lines of a box, in order. */
  function BoxLines(text: string): seq<string>
  {
    KeptLines(NonBlankLines(Split(text, '\n')))
  }

  /** The loop of `parse_game_box` that builds `cleaned_lines`. */
  method CleanBoxLines(text: string) returns (cleaned: seq<string>)
    ensures cleaned == BoxLines(text)
    ensures forall k :: 0 <= k < |cleaned| ==> IsUsable(cleaned[k])
  {
    var lines := NonBlankLines(Split(text, '\n'));
    cleaned := [];
    var i := 0;
    while i < |lines|
      invariant 0 <= i <= |lines|
      invariant cleaned == KeptLines(lines[..i])
    {
      var c := StripChars(lines[i], BoxBorder);
      var before := cleaned;
      if c != "" && !IsRule(c) {
        cleaned := cleaned + [c];
      }
      KeptLinesAdvance(lines, i, before, cleaned);
      i := i + 1;
    }
    assert lines[..|lines|] == lines;
  }

  /** A side whose last token is a score: the other tokens and the score. */
  datatype Scored = Scored(team: string, score: nat)

  /** One game. `awayScore`/`homeScore` are present for live or final games. */
  datatype Game = Game(
    status: string,
    away: string,
    home: string,
    network: string,
    awayScore: Option<Scored>,
    homeScore: Option<Scored>)

  /** The score split of one side line. It is present exactly when the line
      has at least two tokens and the last is all digits; the team keeps the
      other tokens, in order, and the score is the value of the last. */
  function SideScore(side: string): (r: Option<Scored>)
    ensures var ws := Words(side);
      r.Some? <==> |ws| >= 2 && IsDigits(ws[|ws| - 1])
    ensures var ws := Words(side);
      r.Some? ==> Words(r.value.team) + [ws[|ws| - 1]] == ws && r.value.score == DigitsValue(ws[|ws| - 1])
  {
    var parts := Words(side);
    if |parts| >= 2 && IsDigits(parts[|parts| - 1]) then
      var init := parts[..|parts| - 1];
      assert forall w :: w in init ==> w in parts;
      WordsOfJoin(init);
      assert init + [parts[|parts| - 1]] == parts;
      Some(Scored(Join(init, " "), DigitsValue(parts[|parts| - 1])))
    else
      None
  }

  /** The network of a fourth box line: every '-' removed, then trimmed. */
  function NetworkOf(line: string): (r: string)
    ensures '-' !in r
    ensures r == [] || (r[0] !in Whitespace && r[|r| - 1] !in Whitespace)
  {
    Strip(RemoveChar(Strip(line), '-'))
  }

  /** The network is empty exactly when the line holds nothing but dashes
      and blanks. */
  lemma NetworkOfEmpty(line: string)
    ensures NetworkOf(line) == [] <==> forall x :: x in line ==> x == '-' || x in Whitespace
  {
    var t := RemoveChar(Strip(line), '-');
    if forall x :: x in line ==> x == '-' || x in Whitespace {
      StripCharsEmpty(t, Whitespace);
    } else {
      var x :| x in line && x != '-' && x !in Whitespace;
      StripCharsKeepsOthers(line, Whitespace, x);
      StripCharsKeepsOthers(t, Whitespace, x);
    }
  }

  /** The network in order: the part of the line between its leading and
      trailing runs of dashes and blanks, with the dashes inside it dropped
      and every other character kept where it was. */
  lemma NetworkOfSpan(p: string, m: string, q: string)
    requires forall i :: 0 <= i < |p| ==> p[i] == '-' || p[i] in Whitespace
    requires forall i :: 0 <= i < |q| ==> q[i] == '-' || q[i] in Whitespace
    requires |m| > 0 && m[0] != '-' && m[0] !in Whitespace
    requires m[|m| - 1] != '-' && m[|m| - 1] !in Whitespace
    ensures NetworkOf(p + m + q) == RemoveChar(m, '-')
  {
    StripRemoveStrip(p, m, q, '-', Whitespace);
  }

  /** The record built from the cleaned lines: none with fewer than three;
      otherwise status, away and home are the first three lines trimmed, the
      network is empty with exactly three lines and comes from the fourth
      otherwise, and each side's score split is that side's own. */
  function GameOfLines(lines: seq<string>): (r: Option<Game>)
    ensures r.None? <==> |lines| < 3
    ensures r.Some? ==>
      && r.value.status == Strip(lines[0])
      && r.value.away == Strip(lines[1])
      && r.value.home == Strip(lines[2])
      && r.value.awayScore == SideScore(r.value.away)
      && r.value.homeScore == SideScore(r.value.home)
    ensures r.Some? && |lines| == 3 ==> r.value.network == ""
    ensures r.Some? && |lines| > 3 ==> r.value.network == NetworkOf(lines[3])
  {
    if |lines| < 3 then None
    else
      var network := if |lines| > 3 then NetworkOf(lines[3]) else "";
      var away := Strip(lines[1]);
      var home := Strip(lines[2]);
      Some(Game(Strip(lines[0]), away, home, network, SideScore(away), SideScore(home)))
  }

  /** What `parse_game_box` returns for `text`. */
  function GameOfBox(text: string): (r: Option<Game>)
    ensures r.None? <==> |BoxLines(text)| < 3
  {
    GameOfLines(BoxLines(text))
  }

  /** `parse_game_box`: the cleaning loop, then the record. */
  method ParseGameBox(text: string) returns (r: Option<Game>)
    ensures r == GameOfBox(text)
    ensures r.None? <==> |BoxLines(text)| < 3
  {
    var cleaned := CleanBoxLines(text);
    r := GameOfLines(cleaned);
  }

  /** Lines after the fourth never change the record. */
  lemma LaterLinesIgnored(lines: seq<string>)
    requires |lines| > 4
    ensures GameOfLines(lines) == GameOfLines(lines[..4])
  {
  }

  /** The network line keeps its text but loses its dashes: a bottom border
      such as `+--------- FOX +`, cleaned to `--------- FOX`, gives the
      network `FOX`. */
  lemma NetworkOfRule(n: nat, name: string)
    requires n > 0 && IsWord(name) && '-' !in name
    ensures NetworkOf(Repeat('-', n) + " " + name) == name
  {
    var line := Repeat('-', n) + " " + name;
    assert line[0] == '-' && line[|line| - 1] == name[|name| - 1];
    assert Strip(line) == line;
    assert line == Repeat('-', n) + (" " + name);
    DashesRemoved(n, " " + name);
    RemoveCharAbsent(" " + name, '-');
    assert " " + name == " " + name + "";
    StripCharsOf(" ", name, "", Whitespace);
  }

  lemma {:induction false} DashesRemoved(n: nat, t: string)
    ensures RemoveChar(Repeat('-', n) + t, '-') == RemoveChar(t, '-')
    decreases n
  {
    if n > 0 {
      assert (Repeat('-', n) + t)[1..] == Repeat('-', n - 1) + t;
      DashesRemoved(n - 1, t);
    } else {
      assert Repeat('-', n) + t == t;
    }
  }
}
