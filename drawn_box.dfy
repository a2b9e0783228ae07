/**
 * Game boxes as they are drawn on a page: indented rows between '+---+'
 * borders, with the network on the bottom border. The lemmas here follow
 * such a box through the cleaning passes of module GameBox line by line.
 */
module DrawnBox {
  import opened Text
  import opened GameBox

  /** Indentation or padding: spaces only. */
  predicate IsSpaces(s: string)
  {
    forall i :: 0 <= i < |s| ==> s[i] == ' '
  }

  /** The run of dashes of a horizontal border: at least one, dashes only. */
  predicate IsDashes(s: string)
  {
    |s| > 0 && forall i :: 0 <= i < |s| ==> s[i] == '-'
  }

  /** A row `|  text |`, indented by `ind` and padded by `left` and `right`. */
  function RowLine(ind: string, left: string, text: string, right: string): string
  {
    ind + ("|" + left + text + right + "|")
  }

  /** A plain border `+-----+`, indented by `ind`. */
  function RuleLine(ind: string, dashes: string): string
  {
    ind + ("+" + dashes + "+")
  }

  /** A bottom border that names the network, `+------ FOX +`. */
  function NetworkLine(ind: string, dashes: string, name: string): string
  {
    ind + ("+" + (dashes + " " + name) + " +")
  }

  /** What the two cleaning passes keep of one raw line of a box: nothing, or
      the line stripped of whitespace and then of border characters. */
  function CleanedLine(line: string): (r: seq<string>)
    ensures |r| <= 1
  {
    var t := Strip(line);
    var c := StripChars(t, BoxBorder);
    if t != "" && c != "" && !IsRule(c) then [c] else []
  }

  /** What each raw line keeps, concatenated in order. */
  function CleanedLines(lines: seq<string>): seq<string>
  {
    ConcatMap(CleanedLine, lines)
  }

  /** The usable lines of a box are what its raw lines keep one by one: the
      split at newlines, the non-blank filter and the cleaning loop work line
      by line. */
  lemma BoxLinesByLine(lines: seq<string>)
    requires |lines| > 0 && forall l :: l in lines ==> '\n' !in l
    ensures BoxLines(Join(lines, "\n")) == CleanedLines(lines)
  {
    SplitOfJoin(lines, '\n');
    KeptOfNonBlank(lines);
  }

  lemma {:induction false} KeptOfNonBlank(lines: seq<string>)
    ensures KeptLines(NonBlankLines(lines)) == CleanedLines(lines)
  {
    KeptLinesOneByOne(NonBlankLines(lines));
    KeepOfNonBlank(lines);
  }

  /** What the cleaning loop keeps of one non-blank line. */
  function KeepOne(t: string): seq<string>
  {
    var c := StripChars(t, BoxBorder);
    if c != "" && !IsRule(c) then [c] else []
  }

  /** The cleaning loop keeps, line by line, what `KeepOne` keeps. */
  lemma {:induction false} KeptLinesOneByOne(xs: seq<string>)
    ensures KeptLines(xs) == ConcatMap(KeepOne, xs)
    decreases |xs|
  {
    if xs != [] {
      var init := xs[..|xs| - 1];
      var last := xs[|xs| - 1];
      KeptLinesOneByOne(init);
      ConcatMapSnoc(KeepOne, xs);
      assert KeptLines(xs) == KeptLines(init) + KeepOne(last);
    }
  }

  lemma {:induction false} KeepOfNonBlank(lines: seq<string>)
    ensures ConcatMap(KeepOne, NonBlankLines(lines)) == CleanedLines(lines)
    decreases |lines|
  {
    if lines != [] {
      var t := Strip(lines[0]);
      var head: seq<string> := if t == "" then [] else [t];
      var rest := NonBlankLines(lines[1..]);
      assert NonBlankLines(lines) == head + rest;
      ConcatMapAppend(KeepOne, head, rest);
      if t != "" {
        ConcatMapOne(KeepOne, t);
      }
      assert ConcatMap(KeepOne, head) == CleanedLine(lines[0]);
      KeepOfNonBlank(lines[1..]);
      assert CleanedLines(lines) == CleanedLine(lines[0]) + CleanedLines(lines[1..]);
    }
  }

  /** Indentation alone is a blank line: dropped. */
  lemma BlankLineDropped(ind: string)
    requires IsSpaces(ind)
    ensures CleanedLine(ind) == []
  {
    StripCharsEmpty(ind, Whitespace);
  }

  /** Stripping an indented line takes off the indentation only. */
  lemma IndentedStrip(ind: string, m: string)
    requires IsSpaces(ind) && |m| > 0 && m[0] !in Whitespace && m[|m| - 1] !in Whitespace
    ensures Strip(ind + m) == m
  {
    assert ind + m == ind + m + "";
    StripCharsOf(ind, m, "", Whitespace);
  }

  /** One raw line whose strip is `m` keeps what `m` keeps once its border
      characters are gone. */
  lemma CleanedLineOf(line: string, m: string, c: string)
    requires Strip(line) == m && m != "" && StripChars(m, BoxBorder) == c
    ensures CleanedLine(line) == if c != "" && !IsRule(c) then [c] else []
  {
  }

  /** An indented line between border characters keeps what is left once
      they are stripped. */
  lemma IndentedLine(ind: string, m: string, c: string)
    requires IsSpaces(ind) && |m| > 0 && m[0] in {'+', '|'} && m[|m| - 1] in {'+', '|'}
    requires StripChars(m, BoxBorder) == c
    ensures CleanedLine(ind + m) == if c != "" && !IsRule(c) then [c] else []
  {
    IndentedStrip(ind, m);
    CleanedLineOf(ind + m, m, c);
  }

  /** Text that fits in one row: usable, with no whitespace at its ends and
      no newline. */
  predicate IsCell(text: string)
  {
    IsUsable(text) && text[0] !in Whitespace && text[|text| - 1] !in Whitespace && '\n' !in text
  }

  /** A text is a cell once it starts with a character that is neither a
      border character, whitespace nor a dash, ends with one that is neither
      a border character nor whitespace, and holds no newline. */
  lemma CellByEnds(text: string)
    requires |text| > 0 && text[0] !in BoxBorder + Whitespace + {'-'}
    requires text[|text| - 1] !in BoxBorder + Whitespace && '\n' !in text
    ensures IsCell(text)
  {
  }

  /** A row keeps its text. */
  lemma RowLineKept(ind: string, left: string, text: string, right: string)
    requires IsSpaces(ind) && IsSpaces(left) && IsSpaces(right) && IsCell(text)
    ensures CleanedLine(RowLine(ind, left, text, right)) == [text]
  {
    var line := RowLine(ind, left, text, right);
    var m := "|" + left + text + right + "|";
    BetweenBars(left, text, right);
    IndentedLine(ind, m, text);
  }

  lemma BetweenBars(left: string, text: string, right: string)
    requires IsSpaces(left) && IsSpaces(right) && IsUsable(text)
    ensures var m := "|" + left + text + right + "|";
      && m[0] == '|' && m[|m| - 1] == '|' && StripChars(m, BoxBorder) == text
  {
    var p := "|" + left;
    var q := right + "|";
    assert "|" + left + text + right + "|" == p + text + q;
    assert forall i :: 0 <= i < |p| ==> p[i] in BoxBorder;
    assert forall i :: 0 <= i < |q| ==> q[i] in BoxBorder;
    StripCharsOf(p, text, q, BoxBorder);
  }

  /** A plain border is a rule: dropped. */
  lemma RuleLineDropped(ind: string, dashes: string)
    requires IsSpaces(ind) && IsDashes(dashes)
    ensures CleanedLine(RuleLine(ind, dashes)) == []
    ensures '\n' !in RuleLine(ind, dashes)
  {
    RuleLineOneLine(ind, dashes);
    var m := "+" + dashes + "+";
    StripCharsOf("+", dashes, "+", BoxBorder);
    IndentedLine(ind, m, dashes);
  }

  lemma RuleLineOneLine(ind: string, dashes: string)
    requires IsSpaces(ind) && IsDashes(dashes)
    ensures '\n' !in RuleLine(ind, dashes)
  {
    var l := RuleLine(ind, dashes);
    assert forall i :: 0 <= i < |l| ==> l[i] in {' ', '+', '-'};
  }

  /** A bottom border with a network keeps its dashes and the name. */
  lemma NetworkLineKept(ind: string, dashes: string, name: string)
    requires IsSpaces(ind) && IsDashes(dashes) && IsWord(name) && name[|name| - 1] !in BoxBorder
    ensures CleanedLine(NetworkLine(ind, dashes, name)) == [dashes + " " + name]
  {
    var line := NetworkLine(ind, dashes, name);
    var v := dashes + " " + name;
    var m := "+" + v + " +";
    BetweenCorners(dashes, name);
    IndentedLine(ind, m, v);
  }

  lemma NetworkLineOneLine(ind: string, dashes: string, name: string)
    requires IsSpaces(ind) && IsDashes(dashes) && IsWord(name)
    ensures '\n' !in NetworkLine(ind, dashes, name)
  {
    var l := NetworkLine(ind, dashes, name);
    assert forall i :: 0 <= i < |l| ==> l[i] in {' ', '+', '-'} || l[i] in name;
  }

  lemma BetweenCorners(dashes: string, name: string)
    requires IsDashes(dashes) && IsWord(name) && name[|name| - 1] !in BoxBorder
    ensures var v := dashes + " " + name; var m := "+" + v + " +";
      && m[0] == '+' && m[|m| - 1] == '+' && StripChars(m, BoxBorder) == v && !IsRule(v)
  {
    var v := dashes + " " + name;
    assert v[0] == '-' && v[|v| - 1] == name[|name| - 1];
    StripCharsOf("+", v, " +", BoxBorder);
    assert v[|dashes|] == ' ';
  }

  /** The network of a cleaned bottom border is its name. */
  lemma NetworkOfBorder(dashes: string, name: string)
    requires IsDashes(dashes) && IsWord(name) && '-' !in name
    ensures NetworkOf(dashes + " " + name) == name
  {
    var v := dashes + " " + name;
    assert v[0] == '-' && v[|v| - 1] == name[|name| - 1];
    StripCharsKeeps(v, Whitespace);
    assert v == dashes + (" " + name);
    DashRunRemoved(dashes, " " + name);
    RemoveCharAbsent(" " + name, '-');
    assert " " + name == " " + name + "";
    StripCharsOf(" ", name, "", Whitespace);
  }

  lemma {:induction false} DashRunRemoved(d: string, t: string)
    requires forall i :: 0 <= i < |d| ==> d[i] == '-'
    ensures RemoveChar(d + t, '-') == RemoveChar(t, '-')
    decreases |d|
  {
    if |d| > 0 {
      assert (d + t)[1..] == d[1..] + t;
      DashRunRemoved(d[1..], t);
    } else {
      assert d + t == t;
    }
  }

  lemma CleanedLinesAppend(a: seq<string>, b: seq<string>)
    ensures CleanedLines(a + b) == CleanedLines(a) + CleanedLines(b)
  {
    ConcatMapAppend(CleanedLine, a, b);
  }

  /** The lines of a box as it sits on a page between a newline and the
      closing indentation: an empty first line, the top border, the rows,
      the bottom line and a last line of indentation alone. */
  function DrawnLines(ind: string, top: string, rows: seq<string>, bottom: string): seq<string>
  {
    ["", RuleLine(ind, top)] + rows + [bottom, ind]
  }

  /** Of a drawn box only the rows and the bottom line can leave anything. */
  lemma DrawnBoxLines(ind: string, top: string, rows: seq<string>, bottom: string)
    requires IsSpaces(ind) && IsDashes(top)
    requires forall l :: l in rows ==> '\n' !in l
    requires '\n' !in bottom
    ensures BoxLines(Join(DrawnLines(ind, top, rows, bottom), "\n")) == CleanedLines(rows) + CleanedLine(bottom)
  {
    DrawnLinesOneEach(ind, top, rows, bottom);
    BoxLinesByLine(DrawnLines(ind, top, rows, bottom));
    RuleLineDropped(ind, top);
    BlankLineDropped(ind);
    CleanedAround(RuleLine(ind, top), rows, bottom, ind);
  }

  lemma CleanedAround(rule: string, rows: seq<string>, bottom: string, last: string)
    requires CleanedLine(rule) == [] && CleanedLine(last) == []
    ensures CleanedLines(["", rule] + rows + [bottom, last]) == CleanedLines(rows) + CleanedLine(bottom)
  {
    CleanedLinesAppend(["", rule] + rows, [bottom, last]);
    CleanedLinesAppend(["", rule], rows);
    TopLinesDropped(rule);
    LastLinesKeepBottom(bottom, last);
    assert CleanedLines(["", rule] + rows) == CleanedLines(rows);
  }

  lemma TopLinesDropped(rule: string)
    requires CleanedLine(rule) == []
    ensures CleanedLines(["", rule]) == []
  {
    BlankLineDropped("");
    assert ["", rule] == [""] + [rule];
    CleanedLinesAppend([""], [rule]);
    ConcatMapOne(CleanedLine, "");
    ConcatMapOne(CleanedLine, rule);
  }

  lemma LastLinesKeepBottom(bottom: string, last: string)
    requires CleanedLine(last) == []
    ensures CleanedLines([bottom, last]) == CleanedLine(bottom)
  {
    assert [bottom, last] == [bottom] + [last];
    CleanedLinesAppend([bottom], [last]);
    ConcatMapOne(CleanedLine, bottom);
    ConcatMapOne(CleanedLine, last);
    assert CleanedLine(bottom) + [] == CleanedLine(bottom);
  }

  lemma DrawnLinesOneEach(ind: string, top: string, rows: seq<string>, bottom: string)
    requires IsSpaces(ind) && IsDashes(top)
    requires forall l :: l in rows ==> '\n' !in l
    requires '\n' !in bottom
    ensures forall l :: l in DrawnLines(ind, top, rows, bottom) ==> '\n' !in l
  {
    var rule := RuleLine(ind, top);
    assert forall i :: 0 <= i < |rule| ==> rule[i] != '\n';
    assert '\n' !in ind;
  }

  /** The three rows of a game box: the time, the away team and the home
      team, each with its own padding. */
  function GameRows(ind: string, pads: seq<string>, time: string, away: string, home: string): seq<string>
    requires |pads| == 6
  {
    [RowLine(ind, pads[0], time, pads[1]), RowLine(ind, pads[2], away, pads[3]), RowLine(ind, pads[4], home, pads[5])]
  }

  /** The rows of a game box keep their three texts, in order. */
  lemma GameRowsKept(ind: string, pads: seq<string>, time: string, away: string, home: string)
    requires IsSpaces(ind) && |pads| == 6 && forall k :: 0 <= k < 6 ==> IsSpaces(pads[k])
    requires IsCell(time) && IsCell(away) && IsCell(home)
    ensures CleanedLines(GameRows(ind, pads, time, away, home)) == [time, away, home]
    ensures forall l :: l in GameRows(ind, pads, time, away, home) ==> '\n' !in l
  {
    var r0, r1, r2 := RowLine(ind, pads[0], time, pads[1]), RowLine(ind, pads[2], away, pads[3]),
      RowLine(ind, pads[4], home, pads[5]);
    assert GameRows(ind, pads, time, away, home) == [r0, r1, r2];
    RowLineKept(ind, pads[0], time, pads[1]);
    RowLineKept(ind, pads[2], away, pads[3]);
    RowLineKept(ind, pads[4], home, pads[5]);
    KeptThree(r0, r1, r2, time, away, home);
    GameRowsOneLine(ind, pads, time, away, home);
  }

  lemma GameRowsOneLine(ind: string, pads: seq<string>, time: string, away: string, home: string)
    requires IsSpaces(ind) && |pads| == 6 && forall k :: 0 <= k < 6 ==> IsSpaces(pads[k])
    requires '\n' !in time && '\n' !in away && '\n' !in home
    ensures forall l :: l in GameRows(ind, pads, time, away, home) ==> '\n' !in l
  {
    RowLineOneLine(ind, pads[0], time, pads[1]);
    RowLineOneLine(ind, pads[2], away, pads[3]);
    RowLineOneLine(ind, pads[4], home, pads[5]);
  }

  lemma KeptThree(r0: string, r1: string, r2: string, x: string, y: string, z: string)
    requires CleanedLine(r0) == [x] && CleanedLine(r1) == [y] && CleanedLine(r2) == [z]
    ensures CleanedLines([r0, r1, r2]) == [x, y, z]
  {
    ConcatMapThree(CleanedLine, r0, r1, r2);
  }

  lemma RowLineOneLine(ind: string, left: string, text: string, right: string)
    requires IsSpaces(ind) && IsSpaces(left) && IsSpaces(right) && '\n' !in text
    ensures '\n' !in RowLine(ind, left, text, right)
  {
    var l := RowLine(ind, left, text, right);
    assert forall i :: 0 <= i < |l| ==> l[i] == ' ' || l[i] == '|' || l[i] in text;
  }

  /** The usable lines of a drawn game box: the three row texts, then what
      the bottom line keeps. */
  lemma DrawnGameBoxLines(ind: string, top: string, pads: seq<string>, time: string, away: string, home: string,
                          bottom: string)
    requires IsSpaces(ind) && IsDashes(top) && |pads| == 6 && forall k :: 0 <= k < 6 ==> IsSpaces(pads[k])
    requires IsCell(time) && IsCell(away) && IsCell(home) && '\n' !in bottom
    ensures BoxLines(Join(DrawnLines(ind, top, GameRows(ind, pads, time, away, home), bottom), "\n")) ==
      [time, away, home] + CleanedLine(bottom)
  {
    GameRowsKept(ind, pads, time, away, home);
    DrawnBoxLines(ind, top, GameRows(ind, pads, time, away, home), bottom);
  }
}
