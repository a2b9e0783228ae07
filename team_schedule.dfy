/**
 * A team's season schedule (sportslib/base.py): the line filter at the end of
 * `fetch_team_schedule`, `parse_team_schedule`, which sorts the lines into
 * sections by their markers, and the fields `format_team_schedule_embed`
 * makes of the sections. The page's lines are given already linearised
 * (tags replaced by spaces, one element per line, stripped, blank lines
 * dropped).
 */
module TeamSchedule {
  import opened Text
  import opened Chunks
  import opened GameBox

  // ---------------------------------------------------------------------------
  // fetch_team_schedule: the line filter

  /** A line that opens the schedule. */
  predicate IsMarker(line: string)
  {
    Contains(line, "Playoffs:") || Contains(line, "Regular Season:")
    || Contains(line, "Preseason:") || Contains(line, "Postseason:")
  }

  /** The site's footer, in any letter case. */
  predicate IsFooter(line: string)
  {
    Contains(Lower(line), "plaintextsports")
  }

  /** The index of the first marker line, or the number of lines. */
  function FirstMarker(lines: seq<string>): (r: nat)
    ensures r <= |lines|
  {
    if lines == [] then 0
    else if IsMarker(lines[0]) then 0
    else 1 + FirstMarker(lines[1..])
  }

  /** No line before the first marker line is a marker line, and the line
      it points at is one. */
  lemma {:induction false} FirstMarkerIsFirst(lines: seq<string>)
    ensures var r := FirstMarker(lines);
      && (forall k :: 0 <= k < r ==> !IsMarker(lines[k]))
      && (r < |lines| ==> IsMarker(lines[r]))
  {
    if lines != [] && !IsMarker(lines[0]) {
      FirstMarkerIsFirst(lines[1..]);
      forall k | 0 < k < FirstMarker(lines) ensures !IsMarker(lines[k]) {
        assert lines[k] == lines[1..][k - 1];
      }
    }
  }

  /** The index of the first footer line at or after `from`, or the number of lines. */
  function FirstFooter(lines: seq<string>, from: nat): (r: nat)
    requires from <= |lines|
    ensures from <= r <= |lines|
    decreases |lines| - from
  {
    if from == |lines| then from
    else if IsFooter(lines[from]) then from
    else FirstFooter(lines, from + 1)
  }

  /** No line from `from` up to the first footer line is a footer line, and
      the line it points at is one. */
  lemma {:induction false} FirstFooterIsFirst(lines: seq<string>, from: nat)
    requires from <= |lines|
    ensures var r := FirstFooter(lines, from);
      && (forall k :: from <= k < r ==> !IsFooter(lines[k]))
      && (r < |lines| ==> IsFooter(lines[r]))
    decreases |lines| - from
  {
    if from < |lines| && !IsFooter(lines[from]) {
      FirstFooterIsFirst(lines, from + 1);
    }
  }

  /** The lines longer than two characters, in order. */
  function LongLines(lines: seq<string>): seq<string>
  {
    if lines == [] then []
    else
      var rest := LongLines(lines[..|lines| - 1]);
      var line := lines[|lines| - 1];
      if |line| > 2 then rest + [line] else rest
  }

  /** A line is kept exactly when it is one of the lines and is longer than
      two characters. */
  lemma {:induction false} LongLinesKeeps(lines: seq<string>)
    ensures forall l :: l in LongLines(lines) <==> l in lines && |l| > 2
  {
    if lines != [] {
      var init := lines[..|lines| - 1];
      LongLinesKeeps(init);
      assert lines == init + [lines[|lines| - 1]];
    }
  }

  lemma LongLinesStep(lines: seq<string>, i: nat, j: nat)
    requires i <= j < |lines|
    ensures LongLines(lines[i..j + 1]) == LongLines(lines[i..j]) + (if |lines[j]| > 2 then [lines[j]] else [])
  {
    assert lines[i..j + 1][..j - i] == lines[i..j];
  }

  /** The schedule part of the page: from the first marker line up to (not
      including) the first footer line after it, lines longer than two
      characters only. */
  function ScheduleBody(lines: seq<string>): seq<string>
  {
    var m := FirstMarker(lines);
    LongLines(lines[m..FirstFooter(lines, m)])
  }

  /** The loop of `fetch_team_schedule` that collects `schedule_lines`;
      the text returned is these lines joined by newlines. */
  method ScheduleLines(teamName: string, record: string, lines: seq<string>) returns (scheduleLines: seq<string>)
    ensures scheduleLines == [teamName, record, ""] + ScheduleBody(lines)
  {
    var m := FirstMarker(lines);
    var header := [teamName, record, ""];
    scheduleLines := header;
    var started := false;
    var i := 0;
    while i < |lines|
      invariant 0 <= i <= |lines|
      invariant !started ==> i <= m && scheduleLines == header
      invariant started ==> (m < i <= FirstFooter(lines, m)
        && scheduleLines == header + LongLines(lines[m..i]))
    {
      var line := lines[i];
      if IsMarker(line) {
        if !started {
          MarkerIsFirst(lines, i);
          assert lines[m..i] == [];
        }
        started := true;
      } else if !started {
        NotMarkerYet(lines, i);
      }
      if started {
        if IsFooter(line) {
          FooterIsFirst(lines, m, i);
          return;
        }
        NotFooterYet(lines, m, i);
        LongLinesStep(lines, m, i);
        if |line| > 2 {
          scheduleLines := scheduleLines + [line];
        }
      }
      i := i + 1;
    }
    if !started {
      assert m == |lines|;
    }
  }

  /** Only schedule lines are kept: each is longer than two characters, is
      no footer, and comes from the marker line on. */
  lemma ScheduleBodyLines(lines: seq<string>)
    ensures forall l :: l in ScheduleBody(lines) ==>
      |l| > 2 && !IsFooter(l) && l in lines[FirstMarker(lines)..]
  {
    forall l | l in ScheduleBody(lines)
      ensures |l| > 2 && !IsFooter(l) && l in lines[FirstMarker(lines)..]
    {
      ScheduleBodyLine(lines, l);
    }
  }

  lemma ScheduleBodyLine(lines: seq<string>, l: string)
    requires l in ScheduleBody(lines)
    ensures |l| > 2 && !IsFooter(l) && l in lines[FirstMarker(lines)..]
  {
    var m := FirstMarker(lines);
    var f := FirstFooter(lines, m);
    var k := LongLineAt(lines, m, f, l);
    NotFooterBefore(lines, m, k);
    assert lines[m..][k - m] == l;
  }

  /** A kept line of `lines[from..to]` is one of those lines. */
  lemma LongLineAt(lines: seq<string>, from: nat, to: nat, l: string) returns (k: nat)
    requires from <= to <= |lines| && l in LongLines(lines[from..to])
    ensures from <= k < to && lines[k] == l && |l| > 2
  {
    var body := lines[from..to];
    LongLinesKeeps(body);
    var j :| 0 <= j < |body| && body[j] == l;
    k := from + j;
  }

  lemma MarkerIsFirst(lines: seq<string>, i: nat)
    requires i < |lines| && i <= FirstMarker(lines) && IsMarker(lines[i])
    ensures FirstMarker(lines) == i
  {
    FirstMarkerIsFirst(lines);
  }

  lemma NotMarkerYet(lines: seq<string>, i: nat)
    requires i < |lines| && i <= FirstMarker(lines) && !IsMarker(lines[i])
    ensures i < FirstMarker(lines)
  {
    FirstMarkerIsFirst(lines);
  }

  lemma FooterIsFirst(lines: seq<string>, from: nat, i: nat)
    requires from <= i < |lines| && i <= FirstFooter(lines, from) && IsFooter(lines[i])
    ensures FirstFooter(lines, from) == i
  {
    FirstFooterIsFirst(lines, from);
  }

  lemma NotFooterYet(lines: seq<string>, from: nat, i: nat)
    requires from <= i < |lines| && i <= FirstFooter(lines, from) && !IsFooter(lines[i])
    ensures i < FirstFooter(lines, from)
  {
    FirstFooterIsFirst(lines, from);
  }

  lemma NotFooterBefore(lines: seq<string>, from: nat, k: nat)
    requires from <= |lines| && from <= k < FirstFooter(lines, from)
    ensures !IsFooter(lines[k])
  {
    FirstFooterIsFirst(lines, from);
  }

  /** A page with no marker line gives no schedule lines. */
  lemma NoMarkerNoSchedule(lines: seq<string>)
    requires forall k :: 0 <= k < |lines| ==> !IsMarker(lines[k])
    ensures ScheduleBody(lines) == []
  {
    FirstMarkerIsFirst(lines);
  }

  // ---------------------------------------------------------------------------
  // parse_team_schedule

  datatype Section = Playoffs | RegularSeason | Preseason

  /** The parsed schedule; `postseason` is never filled. */
  datatype Schedule = Schedule(
    teamName: string,
    record: string,
    playoffs: seq<string>,
    postseason: seq<string>,
    regularSeason: seq<string>,
    preseason: seq<string>)

  /** The section a line opens: "Playoffs:" or "Postseason:" open the
      playoffs, else "Regular Season:" the regular season, else "Preseason:"
      the preseason. */
  function SectionOf(line: string): Option<Section>
  {
    if Contains(line, "Playoffs:") || Contains(line, "Postseason:") then Some(Playoffs)
    else if Contains(line, "Regular Season:") then Some(RegularSeason)
    else if Contains(line, "Preseason:") then Some(Preseason)
    else None
  }

  /** The precedence of the markers, and a line opens a section exactly
      when it is a marker line of the schedule filter. */
  lemma SectionPrecedence(line: string)
    ensures SectionOf(line) == Some(Playoffs) <==> Contains(line, "Playoffs:") || Contains(line, "Postseason:")
    ensures SectionOf(line) == Some(RegularSeason) <==>
      !Contains(line, "Playoffs:") && !Contains(line, "Postseason:") && Contains(line, "Regular Season:")
    ensures SectionOf(line).None? <==> !IsMarker(line)
  {
  }

  /** The loop state of `parse_team_schedule`: the open section and the
      three sections filled so far. */
  datatype Sorting = Sorting(current: Option<Section>, playoffs: seq<string>, regularSeason: seq<string>, preseason: seq<string>)

  function Append(st: Sorting, s: Section, line: string): Sorting
  {
    match s
    case Playoffs => st.(playoffs := st.playoffs + [line])
    case RegularSeason => st.(regularSeason := st.regularSeason + [line])
    case Preseason => st.(preseason := st.preseason + [line])
  }

  /** The state after one more line (stripped and not blank): a marker line
      opens its section, and the line goes to the open section, if any. */
  function SortLine(st: Sorting, line: string): Sorting
  {
    var current := if SectionOf(line).Some? then SectionOf(line) else st.current;
    if current.Some? then Append(st.(current := current), current.value, line)
    else st.(current := current)
  }

  /** The state after the stripped, non-blank lines `lines`. */
  function Sorted(lines: seq<string>): Sorting
  {
    if lines == [] then Sorting(None, [], [], [])
    else SortLine(Sorted(lines[..|lines| - 1]), lines[|lines| - 1])
  }

  lemma SortedStep(lines: seq<string>, i: nat)
    requires i < |lines|
    ensures Sorted(lines[..i + 1]) == SortLine(Sorted(lines[..i]), lines[i])
  {
    assert lines[..i + 1][..i] == lines[..i];
  }

  /** The lines from the third on, stripped, blank ones skipped. */
  function SectionLines(lines: seq<string>): seq<string>
  {
    NonBlankLines(if |lines| >= 2 then lines[2..] else [])
  }

  /** What `parse_team_schedule` returns for `rawText`. */
  function ScheduleOf(rawText: string): (r: Schedule)
    ensures r.postseason == []
  {
    var lines := Split(Strip(rawText), '\n');
    var st := Sorted(SectionLines(lines));
    Schedule(Strip(lines[0]), if |lines| > 1 then Strip(lines[1]) else "",
             st.playoffs, [], st.regularSeason, st.preseason)
  }

  /** The loop of `parse_team_schedule` over the stripped, non-blank lines
      from the third on. */
  method SortLines(lines: seq<string>) returns (st: Sorting)
    ensures st == Sorted(lines)
  {
    var current: Option<Section> := None;
    var playoffs: seq<string> := [];
    var regularSeason: seq<string> := [];
    var preseason: seq<string> := [];
    var i := 0;
    while i < |lines|
      invariant 0 <= i <= |lines|
      invariant Sorted(lines[..i]) == Sorting(current, playoffs, regularSeason, preseason)
    {
      SortedStep(lines, i);
      var line := lines[i];
      var marker := SectionOf(line);
      if marker.Some? {
        current := marker;
      }
      if current == Some(Playoffs) {
        playoffs := playoffs + [line];
      } else if current == Some(RegularSeason) {
        regularSeason := regularSeason + [line];
      } else if current == Some(Preseason) {
        preseason := preseason + [line];
      }
      i := i + 1;
    }
    assert lines[..i] == lines;
    st := Sorting(current, playoffs, regularSeason, preseason);
  }

  /** `parse_team_schedule`. */
  method ParseTeamSchedule(rawText: string) returns (r: Schedule)
    ensures r == ScheduleOf(rawText)
  {
    var lines := Split(Strip(rawText), '\n');
    var st := SortLines(SectionLines(lines));
    r := Schedule(Strip(lines[0]), if |lines| > 1 then Strip(lines[1]) else "",
                  st.playoffs, [], st.regularSeason, st.preseason);
  }

  /** Each line goes to exactly one section: the one its own marker opens,
      or else the open one; the other two sections are unchanged. */
  lemma LineGoesToOneSection(lines: seq<string>, line: string)
    requires Sorted(lines).current.Some? || IsMarker(line)
    ensures var before := Sorted(lines);
      var s := if IsMarker(line) then SectionOf(line).value else before.current.value;
      Sorted(lines + [line]) == Append(before.(current := Some(s)), s, line)
  {
    assert (lines + [line])[..|lines|] == lines;
  }

  /** The number of lines in the sections. */
  function Total(st: Sorting): nat
  {
    |st.playoffs| + |st.regularSeason| + |st.preseason|
  }

  lemma {:induction false} FirstMarkerSnoc(lines: seq<string>, line: string)
    ensures FirstMarker(lines + [line]) ==
      if FirstMarker(lines) < |lines| then FirstMarker(lines)
      else if IsMarker(line) then |lines| else |lines| + 1
  {
    var xs := lines + [line];
    if lines == [] {
      assert xs == [line];
    } else {
      assert xs[0] == lines[0];
      if !IsMarker(lines[0]) {
        FirstMarkerSnoc(lines[1..], line);
        assert xs[1..] == lines[1..] + [line];
      }
    }
  }

  /** The sections hold exactly the lines from the first marker line on:
      lines before it are dropped, every line after it is kept once, and a
      section is open exactly when a marker line has been seen. */
  lemma {:induction false} SectionsHoldLinesFromFirstMarker(lines: seq<string>)
    ensures Total(Sorted(lines)) == |lines| - FirstMarker(lines)
    ensures Sorted(lines).current.Some? <==> FirstMarker(lines) < |lines|
    decreases |lines|
  {
    if lines != [] {
      var init := lines[..|lines| - 1];
      var line := lines[|lines| - 1];
      SectionsHoldLinesFromFirstMarker(init);
      assert init + [line] == lines;
      FirstMarkerSnoc(init, line);
      SortLineCounts(Sorted(init), line);
      SectionOfIsMarker(line);
    }
  }

  /** A line is added to a section exactly when one is open after it. */
  lemma SortLineCounts(st: Sorting, line: string)
    ensures var open := st.current.Some? || SectionOf(line).Some?;
      && (SortLine(st, line).current.Some? <==> open)
      && Total(SortLine(st, line)) == Total(st) + (if open then 1 else 0)
  {
  }

  lemma SectionOfIsMarker(line: string)
    ensures SectionOf(line).Some? <==> IsMarker(line)
  {
  }

  /** Every section line is one of the lines read. */
  lemma {:induction false} SectionLinesFromInput(lines: seq<string>)
    ensures var st := Sorted(lines);
      forall l :: l in st.playoffs + st.regularSeason + st.preseason ==> l in lines
    decreases |lines|
  {
    if lines != [] {
      var init := lines[..|lines| - 1];
      SectionLinesFromInput(init);
      assert forall l :: l in init ==> l in lines;
    }
  }

  /** Every line of a parsed schedule's sections is non-blank and stripped. */
  lemma ScheduleLinesTrimmed(rawText: string)
    ensures var r := ScheduleOf(rawText);
      forall l :: l in r.playoffs + r.regularSeason + r.preseason ==> l != "" && l == Strip(l)
  {
    var lines := Split(Strip(rawText), '\n');
    SectionLinesFromInput(SectionLines(lines));
  }

  // ---------------------------------------------------------------------------
  // format_team_schedule_embed: the section fields

  /** One field of the schedule embed. */
  datatype Field = Field(name: string, value: string)

  /** A code block. */
  function Fenced(text: string): string
  {
    "```\n" + text + "\n```"
  }

  /** The chunk budget of the regular season. */
  const ChunkBudget: int := 1020

  /** The fields of the regular season: one per chunk, the first named
      "Regular Season", the rest "Regular Season (cont.)". */
  function ChunkFields(name: string, chunks: seq<string>, first: bool): (r: seq<Field>)
    ensures |r| == |chunks|
    ensures forall k :: 0 <= k < |r| ==> r[k].value == Fenced(chunks[k])
    ensures forall k :: 0 <= k < |r| ==> r[k].name == if first && k == 0 then name else name + " (cont.)"
  {
    if chunks == [] then []
    else [Field(if first then name else name + " (cont.)", Fenced(chunks[0]))] + ChunkFields(name, chunks[1..], false)
  }

  /** The fields of one section: none when it is empty, the chunk fields for
      the regular season, one field cut to the field limit otherwise. */
  function SectionFields(name: string, lines: seq<string>, chunked: bool): seq<Field>
  {
    if lines == [] then []
    else if chunked then ChunkFields(name, ChunksOf(Join(lines, "\n"), ChunkBudget), true)
    else [Field(name, Fenced(Truncate(Join(lines, "\n"))))]
  }

  /** The loop of `format_team_schedule_embed` over one section. */
  method AddSectionFields(name: string, lines: seq<string>, chunked: bool) returns (fields: seq<Field>)
    ensures fields == SectionFields(name, lines, chunked)
  {
    fields := [];
    if lines == [] {
      return;
    }
    var text := Join(lines, "\n");
    if chunked {
      var chunks := SplitTextToChunks(text, ChunkBudget);
      var i := 0;
      while i < |chunks|
        invariant 0 <= i <= |chunks|
        invariant fields == ChunkFields(name, chunks[..i], true)
      {
        ChunkFieldsStep(name, chunks, i);
        fields := fields + [Field(if i == 0 then name else name + " (cont.)", Fenced(chunks[i]))];
        i := i + 1;
      }
      assert chunks[..i] == chunks;
    } else {
      if |text| > FieldLimit {
        text := text[..1021] + "...";
      }
      fields := [Field(name, Fenced(text))];
    }
  }

  lemma ChunkFieldsStep(name: string, chunks: seq<string>, i: nat)
    requires i < |chunks|
    ensures ChunkFields(name, chunks[..i + 1], true) ==
      ChunkFields(name, chunks[..i], true) + [Field(if i == 0 then name else name + " (cont.)", Fenced(chunks[i]))]
  {
    var a := ChunkFields(name, chunks[..i + 1], true);
    var b := ChunkFields(name, chunks[..i], true) + [Field(if i == 0 then name else name + " (cont.)", Fenced(chunks[i]))];
    var prefix := ChunkFields(name, chunks[..i], true);
    assert |a| == |b|;
    forall k | 0 <= k < |a| ensures a[k] == b[k] {
      if k < i {
        assert b[k] == prefix[k];
        assert chunks[..i + 1][k] == chunks[..i][k];
      }
      assert a[k].value == b[k].value && a[k].name == b[k].name;
    }
  }

  /** One entry of the section list: the schedule key, the field name and
      the section's lines. */
  datatype SectionEntry = SectionEntry(key: string, name: string, lines: seq<string>)

  /** The section list, in the order the embed shows it. */
  function Sections(s: Schedule): seq<SectionEntry>
  {
    [SectionEntry("playoffs", "Playoffs", s.playoffs),
     SectionEntry("postseason", "Postseason", s.postseason),
     SectionEntry("regular_season", "Regular Season", s.regularSeason),
     SectionEntry("preseason", "Preseason", s.preseason)]
  }

  /** The fields of one entry; only the `regular_season` key is chunked. */
  function EntryFields(section: SectionEntry): seq<Field>
  {
    SectionFields(section.name, section.lines, section.key == "regular_season")
  }

  /** All section fields: each entry's fields, in the order of the list. */
  function ScheduleFieldsOf(s: Schedule): seq<Field>
  {
    ConcatMap(EntryFields, Sections(s))
  }

  /** The fields of the four sections in order: playoffs, postseason, the
      chunked regular season, preseason. */
  lemma ScheduleFieldsInOrder(s: Schedule)
    ensures ScheduleFieldsOf(s) ==
      SectionFields("Playoffs", s.playoffs, false)
      + SectionFields("Postseason", s.postseason, false)
      + SectionFields("Regular Season", s.regularSeason, true)
      + SectionFields("Preseason", s.preseason, false)
  {
    var playoffs := SectionEntry("playoffs", "Playoffs", s.playoffs);
    var postseason := SectionEntry("postseason", "Postseason", s.postseason);
    var regular := SectionEntry("regular_season", "Regular Season", s.regularSeason);
    var preseason := SectionEntry("preseason", "Preseason", s.preseason);
    assert Sections(s) == [playoffs, postseason, regular, preseason];
    ConcatMapFour(EntryFields, playoffs, postseason, regular, preseason);
    assert EntryFields(playoffs) == SectionFields("Playoffs", s.playoffs, false);
    assert EntryFields(postseason) == SectionFields("Postseason", s.postseason, false);
    assert EntryFields(regular) == SectionFields("Regular Season", s.regularSeason, true);
    assert EntryFields(preseason) == SectionFields("Preseason", s.preseason, false);
  }

  /** The loop of `format_team_schedule_embed` over the section list. */
  method ScheduleFields(s: Schedule) returns (fields: seq<Field>)
    ensures fields == ScheduleFieldsOf(s)
  {
    var sections := Sections(s);
    fields := [];
    var i := 0;
    while i < |sections|
      invariant 0 <= i <= |sections|
      invariant fields == ConcatMap(EntryFields, sections[..i])
    {
      var section := sections[i];
      var added := AddSectionFields(section.name, section.lines, section.key == "regular_season");
      ConcatMapSnoc(EntryFields, sections[..i + 1]);
      assert sections[..i + 1][..i] == sections[..i];
      fields := fields + added;
      i := i + 1;
    }
    assert sections[..i] == sections;
  }

  /** A section other than the regular season gets one field, named after
      the section, whose value is the fenced text of its lines joined and cut
      to the field limit. The fence adds eight characters, so the value is
      longer than the field limit exactly when the joined lines are longer
      than the limit less eight; at most it is the limit plus eight. */
  lemma SectionFieldsBounded(name: string, lines: seq<string>)
    requires lines != []
    ensures var f := SectionFields(name, lines, false);
      var text := Join(lines, "\n");
      && |f| == 1 && f[0].name == name
      && f[0].value == Fenced(Truncate(text))
      && |f[0].value| == (if |text| > FieldLimit then FieldLimit else |text|) + 8
      && (|f[0].value| > FieldLimit <==> |text| > FieldLimit - 8)
  {
  }

  /** The schedule embed, without its colour and time stamp. */
  datatype ScheduleEmbed = ScheduleEmbed(title: string, description: Option<string>, fields: seq<Field>, footer: string)

  /** What `format_team_schedule_embed` builds for the season `year`. */
  function ScheduleEmbedOf(s: Schedule, year: int): ScheduleEmbed
  {
    ScheduleEmbed(s.teamName + " - " + IntToString(year) + " Season",
                  if s.record != "" then Some("**" + s.record + "**") else None,
                  ScheduleFieldsOf(s),
                  "Data from plaintextsports.com")
  }

  /** `format_team_schedule_embed`. */
  method FormatTeamScheduleEmbed(s: Schedule, year: int) returns (e: ScheduleEmbed)
    ensures e == ScheduleEmbedOf(s, year)
  {
    var fields := ScheduleFields(s);
    e := ScheduleEmbed(s.teamName + " - " + IntToString(year) + " Season",
                       if s.record != "" then Some("**" + s.record + "**") else None,
                       fields, "Data from plaintextsports.com");
  }

  /** A section has fields exactly when it has lines; a schedule with no
      section lines has no fields, and the record is shown exactly when it
      is not empty. */
  lemma ScheduleEmbedShape(s: Schedule, year: int)
    ensures forall name, lines, chunked :: SectionFields(name, lines, chunked) == [] <==> lines == []
    ensures ScheduleEmbedOf(s, year).fields == [] <==>
      s.playoffs == [] && s.postseason == [] && s.regularSeason == [] && s.preseason == []
    ensures ScheduleEmbedOf(s, year).description.None? <==> s.record == ""
  {
    forall name, lines, chunked
      ensures SectionFields(name, lines, chunked) == [] <==> lines == []
    {
      if lines != [] && chunked {
        ChunksNotEmpty(Join(lines, "\n"));
      }
    }    ScheduleFieldsInOrder(s);
  }

  lemma ChunksNotEmpty(text: string)
    ensures ChunksOf(text, ChunkBudget) != []
  {
    EmptyChunkOnlyFirst(Split(text, '\n'), ChunkBudget);
  }
}
