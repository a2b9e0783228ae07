/**
 * The Bristol Mountain conditions cog (bristolMountainConditions/
 * bristolconditions.py): `get_bristol_conditions`, which reads the lift table
 * and the trail tables of the conditions page, and the `bristol` command,
 * which turns them into two embeds. The page is given already parsed: the
 * page's tables in order, each with the text of the heading element before it
 * and its rows, each row being its `td` cells with their stripped text and
 * the `alt` of the first image in the cell. A failed or refused request is a
 * page that is absent.
 */
module BristolConditions {
  import opened Text

  // ---------------------------------------------------------------------------
  // The page

  /** One `td` cell: `get_text(strip=True)` and the `alt` attribute of the
      first `img` inside it (absent when there is no image or no `alt`). */
  datatype Cell = Cell(text: string, alt: Option<string>)

  /** One `table`: the text of the nearest `h3`/`h4`/`strong` before it, if
      any, and its rows (`tr`), each as its `td` cells (a row of `th` cells
      has none). */
  datatype Table = Table(header: Option<string>, rows: seq<seq<Cell>>)

  datatype Lift = Lift(name: string, status: string)

  datatype Trail = Trail(name: string, difficulty: string, status: string, conditions: string)

  // ---------------------------------------------------------------------------
  // Lifts

  /** The lift a row gives: rows with fewer than two cells give none. */
  function LiftOf(row: seq<Cell>): seq<Lift>
  {
    if |row| >= 2 then [Lift(row[0].text, Upper(row[1].text))] else []
  }

  /** The lifts of the rows, in row order. */
  function Lifts(rows: seq<seq<Cell>>): seq<Lift>
  {
    if rows == [] then [] else Lifts(rows[..|rows| - 1]) + LiftOf(rows[|rows| - 1])
  }

  /** `rows[1:]`: every row but the header row (nothing when there are none). */
  function AfterHeader(rows: seq<seq<Cell>>): seq<seq<Cell>>
  {
    if rows == [] then [] else rows[1..]
  }

  /** Reading rows one block after another reads their lifts one block after
      another: each row contributes its own lift, in order. */
  lemma {:induction false} LiftsAppend(rows1: seq<seq<Cell>>, rows2: seq<seq<Cell>>)
    ensures Lifts(rows1 + rows2) == Lifts(rows1) + Lifts(rows2)
    decreases |rows2|
  {
    if rows2 != [] {
      var init := rows2[..|rows2| - 1];
      LiftsAppend(rows1, init);
      assert (rows1 + rows2)[..|rows1 + rows2| - 1] == rows1 + init;
    } else {
      assert rows1 + rows2 == rows1;
    }
  }

  /** Every lift is named by the first cell of a row with at least two cells,
      and its status has no lower-case letter. */
  lemma {:induction false} LiftsFromRows(rows: seq<seq<Cell>>)
    ensures forall l :: l in Lifts(rows) ==>
      (exists row: seq<Cell> :: row in rows && |row| >= 2 && l.name == row[0].text && l.status == Upper(row[1].text))
    ensures forall l :: l in Lifts(rows) ==> forall c :: c in l.status ==> !('a' <= c <= 'z')
  {
    if rows != [] {
      var init := rows[..|rows| - 1];
      var row := rows[|rows| - 1];
      LiftsFromRows(init);
      assert forall r :: r in init ==> r in rows;
      assert row in rows;
    }
  }

  /** The loop over the lift table's rows after the first. */
  method ExtractLifts(table: Table) returns (lifts: seq<Lift>)
    ensures lifts == Lifts(AfterHeader(table.rows))
  {
    var rows := AfterHeader(table.rows);
    lifts := [];
    var i := 0;
    while i < |rows|
      invariant 0 <= i <= |rows|
      invariant lifts == Lifts(rows[..i])
    {
      var cols := rows[i];
      if |cols| >= 2 {
        lifts := lifts + [Lift(cols[0].text, Upper(cols[1].text))];
      }
      assert rows[..i + 1][..i] == rows[..i];
      i := i + 1;
    }
    assert rows[..i] == rows;
  }

  // ---------------------------------------------------------------------------
  // Trails

  /** The difficulty a trail table starts with: the first keyword of the
      lower-cased heading, in the order easier, more difficult, most
      difficult, extremely difficult; "Unknown" otherwise or without a
      heading. */
  function HeaderDifficulty(header: Option<string>): string
  {
    if header.None? then "Unknown"
    else
      var h := Lower(header.value);
      if Contains(h, "easier") then "● Easier"
      else if Contains(h, "more difficult") then "■ More Difficult"
      else if Contains(h, "most difficult") then "♦ Most Difficult"
      else if Contains(h, "extremely difficult") then "♦♦ Extremely Difficult"
      else "Unknown"
  }

  /** The four difficulties a heading can name. */
  const Difficulties: seq<string> :=
    ["● Easier", "■ More Difficult", "♦ Most Difficult", "♦♦ Extremely Difficult"]

  /** The keywords that name them, in the same order. */
  const Keywords: seq<string> := ["easier", "more difficult", "most difficult", "extremely difficult"]

  /** A heading names the difficulty of the first keyword it holds, and it
      gives "Unknown" exactly when it holds none (or is absent). */
  lemma HeaderDifficultyFirstKeyword(header: Option<string>)
    ensures header.None? ==> HeaderDifficulty(header) == "Unknown"
    ensures header.Some? ==> forall k :: 0 <= k < 4 ==>
      (HeaderDifficulty(header) == Difficulties[k] <==>
        Contains(Lower(header.value), Keywords[k])
        && forall j :: 0 <= j < k ==> !Contains(Lower(header.value), Keywords[j]))
    ensures header.Some? ==>
      (HeaderDifficulty(header) == "Unknown" <==> !ContainsAny(Lower(header.value), Keywords))
  {
    if header.Some? {
      var h := Lower(header.value);
      assert Difficulties[0] != Difficulties[1] && Difficulties[0] != Difficulties[2] && Difficulties[0] != Difficulties[3];
      assert Difficulties[1] != Difficulties[2] && Difficulties[1] != Difficulties[3] && Difficulties[2] != Difficulties[3];
      assert forall k :: 0 <= k < 4 ==> Difficulties[k] != "Unknown";
      if ContainsAny(h, Keywords) {
        var k :| 0 <= k < |Keywords| && Contains(h, Keywords[k]);
        assert HeaderDifficulty(header) != "Unknown";
      }
    }
  }

  /** The names of the header rows, in any letter case. */
  predicate IsHeaderName(name: string)
  {
    var n := Lower(name);
    n == "trail" || n == "lift" || n == "status"
  }

  /** A row that gives a trail: at least three cells and no header name. */
  predicate IsTrailRow(row: seq<Cell>)
  {
    |row| >= 3 && !IsHeaderName(row[0].text)
  }

  /** An `alt` that overrides the difficulty: present and not empty. */
  predicate HasAlt(row: seq<Cell>)
  {
    |row| >= 1 && row[0].alt.Some? && row[0].alt.value != ""
  }

  /** Surface and comments joined by a space and stripped; a row with three
      cells has no comments. */
  function Conditions(row: seq<Cell>): string
    requires |row| >= 3
  {
    var surface := row[2].text;
    var comments := if |row| > 3 then row[3].text else "";
    Strip(surface + " " + comments)
  }

  /** Without comments the conditions are the surface alone: the joining
      space is stripped again. */
  lemma ConditionsWithoutComments(row: seq<Cell>)
    requires |row| >= 3 && (|row| == 3 || row[3].text == "")
    requires var m := row[2].text; m != [] && m[0] !in Whitespace && m[|m| - 1] !in Whitespace
    ensures Conditions(row) == row[2].text
  {
    var m := row[2].text;
    assert m + " " + "" == m + " ";
    StripOneSpace(m);
  }

  lemma StripOneSpace(m: string)
    requires m != [] && m[0] !in Whitespace && m[|m| - 1] !in Whitespace
    ensures Strip(m + " ") == m
  {
    assert ' ' in Whitespace;
    StripCharsOf("", m, " ", Whitespace);
    assert "" + m + " " == m + " ";
  }

  /** The difficulty in force while a trail table is read, and the trails read
      so far. */
  datatype TrailScan = TrailScan(difficulty: string, trails: seq<Trail>)

  /** One row of a trail table. */
  function ScanRow(st: TrailScan, row: seq<Cell>): TrailScan
  {
    if !IsTrailRow(row) then st
    else
      var d := if HasAlt(row) then row[0].alt.value else st.difficulty;
      TrailScan(d, st.trails + [TrailOf(row, d)])
  }

  /** The trail of a trail row read with difficulty `d`. */
  function TrailOf(row: seq<Cell>, d: string): Trail
    requires |row| >= 3
  {
    Trail(row[0].text, d, Upper(row[1].text), Conditions(row))
  }

  /** The rows of a trail table, one after the other, from `st`. */
  function Scan(st: TrailScan, rows: seq<seq<Cell>>): TrailScan
  {
    if rows == [] then st else ScanRow(Scan(st, rows[..|rows| - 1]), rows[|rows| - 1])
  }

  /** The trails of one table, starting from its heading's difficulty. */
  function TableTrails(t: Table): seq<Trail>
  {
    Scan(TrailScan(HeaderDifficulty(t.header), []), t.rows).trails
  }

  /** The trails of the trail tables, table after table. */
  function Trails(tables: seq<Table>): seq<Trail>
  {
    if tables == [] then [] else Trails(tables[..|tables| - 1]) + TableTrails(tables[|tables| - 1])
  }

  /** Reading rows in two blocks is reading the second block from where the
      first left off. */
  lemma {:induction false} ScanAppend(st: TrailScan, rows1: seq<seq<Cell>>, rows2: seq<seq<Cell>>)
    ensures Scan(st, rows1 + rows2) == Scan(Scan(st, rows1), rows2)
    decreases |rows2|
  {
    if rows2 != [] {
      var init := rows2[..|rows2| - 1];
      ScanAppend(st, rows1, init);
      assert (rows1 + rows2)[..|rows1 + rows2| - 1] == rows1 + init;
    } else {
      assert rows1 + rows2 == rows1;
    }
  }

  /** Trails already read are kept; every trail added comes from a trail row
      of the block, with its name, upper-cased status and conditions. */
  lemma {:induction false} ScanAddsTrailRows(st: TrailScan, rows: seq<seq<Cell>>)
    ensures var r := Scan(st, rows).trails;
      && |st.trails| <= |r| && r[..|st.trails|] == st.trails
      && forall k :: |st.trails| <= k < |r| ==>
           exists row: seq<Cell> :: row in rows && IsTrailRow(row) && r[k] == TrailOf(row, r[k].difficulty)
    decreases |rows|
  {
    if rows != [] {
      var init := rows[..|rows| - 1];
      var row := rows[|rows| - 1];
      ScanAddsTrailRows(st, init);
      assert forall x :: x in init ==> x in rows;
      assert row in rows;
      var mid := Scan(st, init);
      var r := Scan(st, rows).trails;
      if IsTrailRow(row) {
        var d := if HasAlt(row) then row[0].alt.value else mid.difficulty;
        assert r == mid.trails + [TrailOf(row, d)];
        assert r[|r| - 1] == TrailOf(row, r[|r| - 1].difficulty);
        assert r[..|st.trails|] == mid.trails[..|st.trails|];
      } else {
        assert r == mid.trails;
      }
    }
  }

  /** With no `alt` in the trail rows of a block, the difficulty stays as it
      was and every trail of the block carries it. */
  lemma {:induction false} ScanWithoutAlt(st: TrailScan, rows: seq<seq<Cell>>)
    requires forall row :: row in rows && IsTrailRow(row) ==> !HasAlt(row)
    ensures var r := Scan(st, rows);
      && r.difficulty == st.difficulty
      && |st.trails| <= |r.trails|
      && forall k :: |st.trails| <= k < |r.trails| ==> r.trails[k].difficulty == st.difficulty
    decreases |rows|
  {
    if rows != [] {
      var init := rows[..|rows| - 1];
      assert forall row :: row in init ==> row in rows;
      ScanWithoutAlt(st, init);
      var row := rows[|rows| - 1];
      assert row in rows;
      var mid := Scan(st, init);
      if IsTrailRow(row) {
        assert Scan(st, rows) == TrailScan(mid.difficulty, mid.trails + [TrailOf(row, mid.difficulty)]);
      } else {
        assert Scan(st, rows) == mid;
      }
    }
  }

  /** An `alt` on a trail row sets the difficulty of that trail and of every
      later trail of the table, until a later trail row has an `alt` of its
      own. */
  lemma AltPersists(st: TrailScan, before: seq<seq<Cell>>, row: seq<Cell>, after: seq<seq<Cell>>)
    requires IsTrailRow(row) && HasAlt(row)
    requires forall r :: r in after && IsTrailRow(r) ==> !HasAlt(r)
    ensures var mid := Scan(st, before);
      var r := Scan(st, before + [row] + after);
      && |mid.trails| < |r.trails|
      && forall k :: |mid.trails| <= k < |r.trails| ==> r.trails[k].difficulty == row[0].alt.value
  {
    var mid := Scan(st, before);
    ScanAppend(st, before + [row], after);
    ScanAppend(st, before, [row]);
    assert Scan(mid, [row]) == ScanRow(mid, row) by {
      assert [row][..0] == [];
    }
    var next := ScanRow(mid, row);
    ScanWithoutAlt(next, after);
    ScanAddsTrailRows(next, after);
    var r := Scan(next, after);
    assert r.trails[|mid.trails|] == r.trails[..|next.trails|][|mid.trails|] == next.trails[|mid.trails|];
  }

  /** The trails of two runs of tables are each run's trails in turn: the
      difficulty starts over with every table. */
  lemma {:induction false} TrailsAppend(tables1: seq<Table>, tables2: seq<Table>)
    ensures Trails(tables1 + tables2) == Trails(tables1) + Trails(tables2)
    decreases |tables2|
  {
    if tables2 != [] {
      var init := tables2[..|tables2| - 1];
      TrailsAppend(tables1, init);
      assert (tables1 + tables2)[..|tables1 + tables2| - 1] == tables1 + init;
    } else {
      assert tables1 + tables2 == tables1;
    }
  }

  /** A table whose heading has no keyword and whose trail rows have no `alt`
      gives trails of "Unknown" difficulty. */
  lemma UnknownWithoutHints(t: Table)
    requires t.header.None? || !ContainsAny(Lower(t.header.value), Keywords)
    requires forall row :: row in t.rows && IsTrailRow(row) ==> !HasAlt(row)
    ensures forall tr :: tr in TableTrails(t) ==> tr.difficulty == "Unknown"
  {
    HeaderDifficultyFirstKeyword(t.header);
    ScanWithoutAlt(TrailScan(HeaderDifficulty(t.header), []), t.rows);
  }

  /** The rows of one trail table, appended to `trails`. */
  method ScanTable(table: Table, trails: seq<Trail>) returns (after: seq<Trail>)
    ensures after == trails + TableTrails(table)
  {
    var currentDifficulty := HeaderDifficulty(table.header);
    ghost var start := TrailScan(currentDifficulty, []);
    after := trails;
    var rows := table.rows;
    var i := 0;
    while i < |rows|
      invariant 0 <= i <= |rows|
      invariant currentDifficulty == Scan(start, rows[..i]).difficulty
      invariant after == trails + Scan(start, rows[..i]).trails
    {
      ghost var st := Scan(start, rows[..i]);
      assert Scan(start, rows[..i + 1]) == ScanRow(st, rows[i]) by {
        assert rows[..i + 1][..i] == rows[..i];
      }
      var cols := rows[i];
      i := i + 1;
      if |cols| < 3 {
        continue;
      }
      var name := cols[0].text;
      if IsHeaderName(name) {
        continue;
      }
      var status := Upper(cols[1].text);
      var surface := cols[2].text;
      var comments := if |cols| > 3 then cols[3].text else "";
      if cols[0].alt.Some? && cols[0].alt.value != "" {
        currentDifficulty := cols[0].alt.value;
      }
      var trail := Trail(name, currentDifficulty, status, Strip(surface + " " + comments));
      assert (trails + st.trails) + [trail] == trails + (st.trails + [trail]);
      after := after + [trail];
    }
    assert rows[..i] == rows;
  }

  /** The loop over the trail tables. */
  method ExtractTrails(tables: seq<Table>) returns (trails: seq<Trail>)
    ensures trails == Trails(tables)
  {
    trails := [];
    var i := 0;
    while i < |tables|
      invariant 0 <= i <= |tables|
      invariant trails == Trails(tables[..i])
    {
      trails := ScanTable(tables[i], trails);
      assert tables[..i + 1][..i] == tables[..i];
      i := i + 1;
    }
    assert tables[..i] == tables;
  }

  // ---------------------------------------------------------------------------
  // get_bristol_conditions

  /** Lifts and trails of a page; both absent when the page could not be
      fetched or has fewer than two tables. */
  function PageConditions(page: Option<seq<Table>>): (Option<seq<Lift>>, Option<seq<Trail>>)
  {
    if page.None? || |page.value| < 2 then (None, None)
    else (Some(Lifts(AfterHeader(page.value[0].rows))), Some(Trails(page.value[1..])))
  }

  /** `get_bristol_conditions`. */
  method GetBristolConditions(page: Option<seq<Table>>) returns (lifts: Option<seq<Lift>>, trails: Option<seq<Trail>>)
    ensures (lifts, trails) == PageConditions(page)
    ensures lifts.None? <==> trails.None?
    ensures lifts.None? <==> page.None? || |page.value| < 2
  {
    if page.None? {
      return None, None;
    }
    var tables := page.value;
    if |tables| < 2 {
      return None, None;
    }
    var l := ExtractLifts(tables[0]);
    var t := ExtractTrails(tables[1..]);
    lifts, trails := Some(l), Some(t);
  }

  /** A page shaped like the site's smallest one: a lift table and an
      "Easier Trails" table, each with a row of `th` cells first. */
  function MinimalPage(): seq<Table>
  {
    [Table(Some("Lifts"), [[], [Cell("Rocket Lodge", None), Cell("Open", None)]]),
     Table(Some("Easier Trails"), [[], [Cell("Lower Rocket", None), Cell("Open", None), Cell("Packed Powder", None), Cell("", None)]])]
  }

  /** On that page the header rows give nothing, the status is upper-cased,
      the difficulty comes from the heading and the empty comment leaves no
      trailing space. */
  lemma MinimalPageConditions()
    ensures PageConditions(Some(MinimalPage())) ==
      (Some([Lift("Rocket Lodge", "OPEN")]), Some([Trail("Lower Rocket", "● Easier", "OPEN", "Packed Powder")]))
  {
    var page := MinimalPage();
    TwoTablePage(page[0], page[1]);
    assert page == [page[0], page[1]];
    MinimalLifts(page[0]);
    MinimalTrails(page[1]);
  }

  /** A page of two tables: the lifts of the first, the trails of the second. */
  lemma TwoTablePage(lifts: Table, trails: Table)
    ensures PageConditions(Some([lifts, trails])) == (Some(Lifts(AfterHeader(lifts.rows))), Some(TableTrails(trails)))
  {
    var page := [lifts, trails];
    assert page[0] == lifts && page[1..] == [trails];
    assert [trails][..0] == [];
    assert Trails([trails]) == TableTrails(trails);
  }

  lemma MinimalLifts(t: Table)
    requires t == MinimalPage()[0]
    ensures Lifts(AfterHeader(t.rows)) == [Lift("Rocket Lodge", "OPEN")]
  {
    OpenUpper();
    var rows := AfterHeader(t.rows);
    assert rows == [[Cell("Rocket Lodge", None), Cell("Open", None)]];
    assert Lifts(rows) == Lifts([]) + LiftOf(rows[0]);
  }

  lemma OpenUpper()
    ensures Upper("Open") == "OPEN"
  {
  }

  lemma MinimalTrails(t: Table)
    requires t == MinimalPage()[1]
    ensures TableTrails(t) == [Trail("Lower Rocket", "● Easier", "OPEN", "Packed Powder")]
  {
    var row := MinimalTrailRow();
    assert t == Table(Some("Easier Trails"), [[], row]);
    EasierHeading();
    MinimalRowIsTrailRow();
    OneTrailTable(t, row);
    MinimalRowConditions();
    OpenUpper();
  }

  /** A table of a header row and one trail row without `alt` gives that
      trail, with the heading's difficulty. */
  lemma OneTrailTable(t: Table, row: seq<Cell>)
    requires t.rows == [[], row] && IsTrailRow(row) && !HasAlt(row)
    ensures TableTrails(t) == [Trail(row[0].text, HeaderDifficulty(t.header), Upper(row[1].text), Conditions(row))]
  {
    var start := TrailScan(HeaderDifficulty(t.header), []);
    assert t.rows[..1] == [[]];
    assert Scan(start, t.rows[..1]) == start by {
      assert t.rows[..1][..0] == [];
    }
  }

  lemma EasierHeading()
    ensures HeaderDifficulty(Some("Easier Trails")) == "● Easier"
  {
    assert Lower("Easier Trails") == "easier trails";
    assert "easier" <= "easier trails";
  }

  /** The trail row of the minimal page. */
  function MinimalTrailRow(): seq<Cell>
  {
    [Cell("Lower Rocket", None), Cell("Open", None), Cell("Packed Powder", None), Cell("", None)]
  }

  lemma MinimalRowIsTrailRow()
    ensures IsTrailRow(MinimalTrailRow()) && !HasAlt(MinimalTrailRow())
  {
    LowerRocketIsNoHeader();
  }

  lemma MinimalRowConditions()
    ensures Conditions(MinimalTrailRow()) == "Packed Powder"
  {
    var m := "Packed Powder";
    assert m[0] == 'P' && m[|m| - 1] == 'r';
    ConditionsWithoutComments(MinimalTrailRow());
  }

  lemma LowerRocketIsNoHeader()
    ensures !IsHeaderName("Lower Rocket")
  {
    assert |Lower("Lower Rocket")| == 12;
  }

  // ---------------------------------------------------------------------------
  // The bristol command

  const ConditionsUrl: string := "https://www.bristolmountain.com/conditions/"
  const EmbedColor: int := 0x0066CC
  const CouldNotFetch: string := "Could not fetch Bristol Mountain conditions. Please try again later."
  const LiftTitle: string := "Bristol Mountain - Ski Lift Status"
  const TrailTitle: string := "Bristol Mountain - Trail Conditions"
  const Footer: string := "Data from bristolmountain.com"
  /** At most this many open trails are listed, and this many closed ones. */
  const MaxOpenListed: nat := 15
  const MaxClosedListed: nat := 10

  datatype Field = Field(name: string, value: string)

  /** A Discord embed as the command fills it (every field is not inline). */
  datatype ConditionsEmbed = ConditionsEmbed(title: string, color: int, url: string, fields: seq<Field>, footer: Option<string>)

  /** A message the command sends: plain text or one embed. */
  datatype Message = Say(content: string) | Show(embed: ConditionsEmbed)

  /** The status icon: a check mark for "OPEN", a cross for anything else. */
  function Icon(status: string): string
  {
    if status == "OPEN" then "✅" else "❌"
  }

  function LiftLine(l: Lift): string
  {
    Icon(l.status) + " **" + l.name + "** - " + l.status
  }

  function TrailLine(t: Trail): string
  {
    "**" + t.name + "** " + t.difficulty + "\n" + "└ " + t.conditions
  }

  function ClosedName(t: Trail): string
  {
    "~~" + t.name + "~~"
  }

  function LiftLinesOf(lifts: seq<Lift>): (r: seq<string>)
    ensures |r| == |lifts| && forall i :: 0 <= i < |lifts| ==> r[i] == LiftLine(lifts[i])
  {
    seq(|lifts|, i requires 0 <= i < |lifts| => LiftLine(lifts[i]))
  }

  function TrailLinesOf(trails: seq<Trail>): (r: seq<string>)
    ensures |r| == |trails| && forall i :: 0 <= i < |trails| ==> r[i] == TrailLine(trails[i])
  {
    seq(|trails|, i requires 0 <= i < |trails| => TrailLine(trails[i]))
  }

  function ClosedNamesOf(trails: seq<Trail>): (r: seq<string>)
    ensures |r| == |trails| && forall i :: 0 <= i < |trails| ==> r[i] == ClosedName(trails[i])
  {
    seq(|trails|, i requires 0 <= i < |trails| => ClosedName(trails[i]))
  }

  /** The trails whose status is "OPEN", in order. */
  function OpenTrails(trails: seq<Trail>): seq<Trail>
  {
    if trails == [] then []
    else OpenTrails(trails[..|trails| - 1]) + (if trails[|trails| - 1].status == "OPEN" then [trails[|trails| - 1]] else [])
  }

  /** The other trails, in order. */
  function ClosedTrails(trails: seq<Trail>): seq<Trail>
  {
    if trails == [] then []
    else ClosedTrails(trails[..|trails| - 1]) + (if trails[|trails| - 1].status != "OPEN" then [trails[|trails| - 1]] else [])
  }

  /** `s[:n]`. */
  function Take<T>(s: seq<T>, n: nat): seq<T>
  {
    if |s| <= n then s else s[..n]
  }

  /** The field of the lift embed: every lift, one line each. */
  function LiftFields(lifts: seq<Lift>): seq<Field>
  {
    var lines := LiftLinesOf(lifts);
    if lines != [] then [Field("Lifts", Join(lines, "\n"))] else []
  }

  /** The open-trails field: the number of open trails, and the first 15 of
      them listed; no field when none is open. */
  function OpenField(trails: seq<Trail>): seq<Field>
  {
    var open := OpenTrails(trails);
    if open == [] then []
    else
      var lines := TrailLinesOf(Take(open, MaxOpenListed));
      [Field("Open Trails (" + NatToString(|open|) + ")", if lines != [] then Join(lines, "\n") else "None")]
  }

  /** The closed-trails field: the number of closed trails, and the names of
      the first 10 struck through; no field when none is closed. */
  function ClosedField(trails: seq<Trail>): seq<Field>
  {
    var closed := ClosedTrails(trails);
    if closed == [] then []
    else
      var names := ClosedNamesOf(Take(closed, MaxClosedListed));
      [Field("Closed Trails (" + NatToString(|closed|) + ")", if names != [] then Join(names, ", ") else "None")]
  }

  function LiftEmbed(lifts: seq<Lift>): ConditionsEmbed
  {
    ConditionsEmbed(LiftTitle, EmbedColor, ConditionsUrl, LiftFields(lifts), None)
  }

  function TrailEmbed(trails: seq<Trail>): ConditionsEmbed
  {
    ConditionsEmbed(TrailTitle, EmbedColor, ConditionsUrl, OpenField(trails) + ClosedField(trails), Some(Footer))
  }

  /** No data: missing or empty lifts or trails. */
  predicate NoData(lifts: Option<seq<Lift>>, trails: Option<seq<Trail>>)
  {
    lifts.None? || lifts.value == [] || trails.None? || trails.value == []
  }

  /** The messages `bristol` sends for the lifts and trails it got. */
  function Replies(lifts: Option<seq<Lift>>, trails: Option<seq<Trail>>): seq<Message>
  {
    if NoData(lifts, trails) then [Say(CouldNotFetch)]
    else [Show(LiftEmbed(lifts.value)), Show(TrailEmbed(trails.value))]
  }

  /** Without data only the apology is sent; otherwise exactly two embeds, the
      lift status (one "Lifts" field) then the trail conditions (with the
      footer), both in the site's colour and linking to the conditions page. */
  lemma RepliesShape(lifts: Option<seq<Lift>>, trails: Option<seq<Trail>>)
    ensures var r := Replies(lifts, trails);
      && (NoData(lifts, trails) <==> r == [Say(CouldNotFetch)])
      && (!NoData(lifts, trails) ==>
            |r| == 2 && r[0].Show? && r[1].Show?
            && r[0].embed.title == LiftTitle && r[1].embed.title == TrailTitle
            && |r[0].embed.fields| == 1 && r[0].embed.fields[0].name == "Lifts"
            && r[1].embed.footer == Some(Footer)
            && r[0].embed.color == r[1].embed.color == EmbedColor
            && r[0].embed.url == r[1].embed.url == ConditionsUrl)
  {
  }

  /** A lift's line starts with a check mark exactly when it is "OPEN", and
      with a cross otherwise; its name follows in bold. */
  lemma LiftLineIcon(l: Lift)
    ensures LiftLine(l)[0] == '✅' <==> l.status == "OPEN"
    ensures LiftLine(l)[0] == '❌' <==> l.status != "OPEN"
    ensures LiftLine(l)[4..4 + |l.name|] == l.name
  {
  }

  /** Open and closed trails split the trails: together they are the trails. */
  lemma {:induction false} TrailsPartition(trails: seq<Trail>)
    ensures multiset(OpenTrails(trails)) + multiset(ClosedTrails(trails)) == multiset(trails)
  {
    if trails != [] {
      var init := trails[..|trails| - 1];
      var last := trails[|trails| - 1];
      TrailsPartition(init);
      assert trails == init + [last];
      assert multiset(trails) == multiset(init) + multiset{last};
    }
  }

  /** Every trail is counted once, as open or as closed. */
  lemma {:induction false} TrailsPartitionCount(trails: seq<Trail>)
    ensures |OpenTrails(trails)| + |ClosedTrails(trails)| == |trails|
  {
    if trails != [] {
      TrailsPartitionCount(trails[..|trails| - 1]);
    }
  }

  /** The open trails are the trails whose status is "OPEN". */
  lemma {:induction false} OpenTrailsAreOpen(trails: seq<Trail>)
    ensures forall t :: t in OpenTrails(trails) <==> t in trails && t.status == "OPEN"
  {
    if trails != [] {
      var init := trails[..|trails| - 1];
      OpenTrailsAreOpen(init);
      assert trails == init + [trails[|trails| - 1]];
    }
  }

  /** The closed trails are the trails whose status is anything else. */
  lemma {:induction false} ClosedTrailsAreClosed(trails: seq<Trail>)
    ensures forall t :: t in ClosedTrails(trails) <==> t in trails && t.status != "OPEN"
  {
    if trails != [] {
      var init := trails[..|trails| - 1];
      ClosedTrailsAreClosed(init);
      assert trails == init + [trails[|trails| - 1]];
    }
  }

  /** `s[:n]` is the first `min(n, |s|)` elements. */
  lemma TakePrefix<T>(s: seq<T>, n: nat)
    ensures |Take(s, n)| == if |s| < n then |s| else n
    ensures Take(s, n) == s[..|Take(s, n)|]
  {
  }

  /** The trail embed has an open field exactly when some trail is open; it
      names the number of open trails and lists the first 15 of them. */
  lemma OpenFieldShape(trails: seq<Trail>)
    ensures var open := OpenTrails(trails);
      && (OpenField(trails) != [] <==> exists t :: t in trails && t.status == "OPEN")
      && (open != [] ==>
            OpenField(trails)[0].name == "Open Trails (" + NatToString(|open|) + ")"
            && OpenField(trails)[0].value == Join(TrailLinesOf(open[..if |open| < 15 then |open| else 15]), "\n"))
  {
    var open := OpenTrails(trails);
    OpenTrailsAreOpen(trails);
    if exists t :: t in trails && t.status == "OPEN" {
      var t :| t in trails && t.status == "OPEN";
      assert t in open;
    }
    TakePrefix(open, MaxOpenListed);
  }

  /** The trail embed has a closed field exactly when some trail is not open;
      it names the number of closed trails and strikes through the names of
      the first 10. */
  lemma ClosedFieldShape(trails: seq<Trail>)
    ensures var closed := ClosedTrails(trails);
      && (ClosedField(trails) != [] <==> exists t :: t in trails && t.status != "OPEN")
      && (closed != [] ==>
            ClosedField(trails)[0].name == "Closed Trails (" + NatToString(|closed|) + ")"
            && ClosedField(trails)[0].value == Join(ClosedNamesOf(closed[..if |closed| < 10 then |closed| else 10]), ", "))
  {
    var closed := ClosedTrails(trails);
    ClosedTrailsAreClosed(trails);
    if exists t :: t in trails && t.status != "OPEN" {
      var t :| t in trails && t.status != "OPEN";
      assert t in closed;
    }
    TakePrefix(closed, MaxClosedListed);
  }

  /** The loop that builds `lift_lines`. */
  method LiftLines(lifts: seq<Lift>) returns (lines: seq<string>)
    ensures lines == LiftLinesOf(lifts)
  {
    lines := [];
    var i := 0;
    while i < |lifts|
      invariant 0 <= i <= |lifts|
      invariant lines == LiftLinesOf(lifts[..i])
    {
      var lift := lifts[i];
      var icon := if lift.status == "OPEN" then "✅" else "❌";
      lines := lines + [icon + " **" + lift.name + "** - " + lift.status];
      i := i + 1;
    }
    assert lifts[..i] == lifts;
  }

  /** The loop that builds `trail_lines` from the open trails listed. */
  method OpenTrailLines(listed: seq<Trail>) returns (lines: seq<string>)
    ensures lines == TrailLinesOf(listed)
  {
    lines := [];
    var i := 0;
    while i < |listed|
      invariant 0 <= i <= |listed|
      invariant lines == TrailLinesOf(listed[..i])
    {
      var trail := listed[i];
      lines := lines + ["**" + trail.name + "** " + trail.difficulty + "\n" + "└ " + trail.conditions];
      i := i + 1;
    }
    assert listed[..i] == listed;
  }

  /** The `bristol` command: fetch, then either the apology or the two embeds. */
  method Bristol(page: Option<seq<Table>>) returns (sent: seq<Message>)
    ensures sent == Replies(PageConditions(page).0, PageConditions(page).1)
  {
    var lifts, trails := GetBristolConditions(page);
    if lifts.None? || lifts.value == [] || trails.None? || trails.value == [] {
      return [Say(CouldNotFetch)];
    }
    var liftLines := LiftLines(lifts.value);
    var liftFields := [];
    if liftLines != [] {
      liftFields := [Field("Lifts", Join(liftLines, "\n"))];
    }
    assert liftFields == LiftFields(lifts.value);
    sent := [Show(ConditionsEmbed(LiftTitle, EmbedColor, ConditionsUrl, liftFields, None))];

    var openTrails := OpenTrails(trails.value);
    var closedTrails := ClosedTrails(trails.value);
    var fields := [];
    if openTrails != [] {
      var trailLines := OpenTrailLines(Take(openTrails, MaxOpenListed));
      fields := fields + [Field("Open Trails (" + NatToString(|openTrails|) + ")",
                                if trailLines != [] then Join(trailLines, "\n") else "None")];
    }
    assert fields == OpenField(trails.value);
    if closedTrails != [] {
      var closedNames := ClosedNamesOf(Take(closedTrails, MaxClosedListed));
      fields := fields + [Field("Closed Trails (" + NatToString(|closedTrails|) + ")",
                                if closedNames != [] then Join(closedNames, ", ") else "None")];
    }
    assert fields == OpenField(trails.value) + ClosedField(trails.value);
    sent := sent + [Show(ConditionsEmbed(TrailTitle, EmbedColor, ConditionsUrl, fields, Some(Footer)))];
  }
}
