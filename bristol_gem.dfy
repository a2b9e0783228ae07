/**
 * The stand-alone Bristol Mountain script (bristolConsitions/bristolgem.py):
 * the same table extraction as the cog, and `display_results`, which prints
 * a lift table and a trail table in fixed-width columns. The printed output
 * is the sequence of table lines handed to `print`, one per call; the error
 * messages the script prints are not part of it.
 */
module BristolGem {
  import opened Text
  import opened BristolConditions

  /** `get_bristol_conditions` of the script: a failed request
      (`raise_for_status` or any request error) is an absent page, and the
      tables are read exactly as the cog reads them. */
  method GetBristolConditions(page: Option<seq<Table>>) returns (lifts: Option<seq<Lift>>, trails: Option<seq<Trail>>)
    ensures (lifts, trails) == PageConditions(page)
    ensures lifts.None? <==> page.None? || |page.value| < 2
    ensures lifts.Some? ==> forall l :: l in lifts.value ==> forall c :: c in l.status ==> !('a' <= c <= 'z')
  {
    lifts, trails := BristolConditions.GetBristolConditions(page);
    if lifts.Some? {
      LiftsFromRows(AfterHeader(page.value[0].rows));
    }
  }

  /** `f"{s:^n}"`: `s` centred in `n` columns, the odd space on the right. */
  function Center(s: string, n: nat): (r: string)
    ensures |r| == if |s| < n then n else |s|
    ensures r[(if |s| < n then (n - |s|) / 2 else 0)..][..|s|] == s
    ensures forall i :: 0 <= i < |r| && !((if |s| < n then (n - |s|) / 2 else 0) <= i < (if |s| < n then (n - |s|) / 2 else 0) + |s|) ==> r[i] == ' '
  {
    if |s| >= n then s
    else
      var left := (n - |s|) / 2;
      var r := Repeat(' ', left) + s + Repeat(' ', n - |s| - left);
      assert r[left..][..|s|] == s;
      r
  }

  /** The five strings printed before the lifts. */
  function LiftHeading(): seq<string>
  {
    ["\n" + Repeat('=', 40), Center("SKI LIFT STATUS", 40), Repeat('=', 40),
     PadRight("Lift Name", 30) + " | " + "Status", Repeat('-', 40)]
  }

  /** The five strings printed before the trails. */
  function TrailHeading(): seq<string>
  {
    ["\n" + Repeat('=', 85), Center("TRAIL CONDITIONS", 85), Repeat('=', 85),
     PadRight("Trail Name", 25) + " | " + PadRight("Difficulty", 20) + " | " + PadRight("Status", 8) + " | " + "Conditions",
     Repeat('-', 85)]
  }

  /** One lift: name in 30 columns, then the icon and the status. */
  function LiftRow(l: Lift): string
  {
    PadRight(l.name, 30) + " | " + Icon(l.status) + " " + l.status
  }

  /** One trail: name in 25 columns, difficulty in 20, icon, status in 8,
      conditions. */
  function TrailRow(t: Trail): string
  {
    PadRight(t.name, 25) + " | " + PadRight(t.difficulty, 20) + " | " + Icon(t.status) + " "
      + PadRight(t.status, 8) + " | " + t.conditions
  }

  /** Where the icon of a lift row sits: after the padded name and " | ". */
  function LiftIconAt(l: Lift): nat
  {
    (if |l.name| < 30 then 30 else |l.name|) + 3
  }

  /** Where the icon of a trail row sits: after the padded name, the padded
      difficulty and two " | ". */
  function TrailIconAt(t: Trail): nat
  {
    (if |t.name| < 25 then 25 else |t.name|) + 3 + (if |t.difficulty| < 20 then 20 else |t.difficulty|) + 3
  }

  /** A lift row starts with the lift's name, and its icon is a check mark
      exactly when the status is "OPEN" and a cross otherwise. */
  lemma LiftRowIcon(l: Lift)
    ensures LiftIconAt(l) < |LiftRow(l)|
    ensures LiftRow(l)[..|l.name|] == l.name
    ensures LiftRow(l)[LiftIconAt(l)] == '✅' <==> l.status == "OPEN"
    ensures LiftRow(l)[LiftIconAt(l)] == '❌' <==> l.status != "OPEN"
  {
    var name := PadRight(l.name, 30);
    assert LiftRow(l) == name + (" | " + Icon(l.status) + " " + l.status);
    assert LiftRow(l)[LiftIconAt(l)] == Icon(l.status)[0];
  }

  /** A trail row starts with the trail's name, and its icon is a check mark
      exactly when the status is "OPEN" and a cross otherwise. */
  lemma TrailRowIcon(t: Trail)
    ensures TrailIconAt(t) < |TrailRow(t)|
    ensures TrailRow(t)[..|t.name|] == t.name
    ensures TrailRow(t)[TrailIconAt(t)] == '✅' <==> t.status == "OPEN"
    ensures TrailRow(t)[TrailIconAt(t)] == '❌' <==> t.status != "OPEN"
  {
    var name := PadRight(t.name, 25);
    var head := name + " | " + PadRight(t.difficulty, 20) + " | ";
    assert |head| == TrailIconAt(t);
    assert TrailRow(t) == head + (Icon(t.status) + " " + PadRight(t.status, 8) + " | " + t.conditions);
    assert TrailRow(t)[..|t.name|] == head[..|t.name|] == name[..|t.name|];
  }

  function LiftRows(lifts: seq<Lift>): (r: seq<string>)
    ensures |r| == |lifts| && forall i :: 0 <= i < |lifts| ==> r[i] == LiftRow(lifts[i])
  {
    seq(|lifts|, i requires 0 <= i < |lifts| => LiftRow(lifts[i]))
  }

  function TrailRows(trails: seq<Trail>): (r: seq<string>)
    ensures |r| == |trails| && forall i :: 0 <= i < |trails| ==> r[i] == TrailRow(trails[i])
  {
    seq(|trails|, i requires 0 <= i < |trails| => TrailRow(trails[i]))
  }

  /** `display_results`: the lift heading, one row per lift in order, the
      trail heading, one row per trail in order. */
  method DisplayResults(lifts: seq<Lift>, trails: seq<Trail>) returns (printed: seq<string>)
    ensures printed == LiftHeading() + LiftRows(lifts) + TrailHeading() + TrailRows(trails)
  {
    var liftHeading := LiftHeading();
    printed := liftHeading;
    var i := 0;
    while i < |lifts|
      invariant 0 <= i <= |lifts|
      invariant printed == liftHeading + LiftRows(lifts[..i])
    {
      var lift := lifts[i];
      var icon := if lift.status == "OPEN" then "✅" else "❌";
      printed := printed + [PadRight(lift.name, 30) + " | " + icon + " " + lift.status];
      i := i + 1;
    }
    assert lifts[..i] == lifts;
    ghost var before := printed;
    var trailHeading := TrailHeading();
    printed := printed + trailHeading;
    var j := 0;
    while j < |trails|
      invariant 0 <= j <= |trails|
      invariant printed == before + trailHeading + TrailRows(trails[..j])
    {
      var trail := trails[j];
      var icon := if trail.status == "OPEN" then "✅" else "❌";
      printed := printed + [PadRight(trail.name, 25) + " | " + PadRight(trail.difficulty, 20) + " | " + icon + " "
                            + PadRight(trail.status, 8) + " | " + trail.conditions];
      j := j + 1;
    }
    assert trails[..j] == trails;
  }

  /** The script's main block: an announcement, then the tables only when both
      lifts and trails were found and are not empty. */
  method ScriptMain(page: Option<seq<Table>>) returns (printed: seq<string>)
    ensures var (lifts, trails) := PageConditions(page);
      printed == ["Fetching Bristol Mountain Mountain Report..."]
        + (if !NoData(lifts, trails) then LiftHeading() + LiftRows(lifts.value) + TrailHeading() + TrailRows(trails.value)
           else [])
  {
    printed := ["Fetching Bristol Mountain Mountain Report..."];
    var lifts, trails := GetBristolConditions(page);
    if lifts.Some? && lifts.value != [] && trails.Some? && trails.value != [] {
      var shown := DisplayResults(lifts.value, trails.value);
      printed := printed + shown;
    }
  }

  /** The script prints its tables exactly when the page has at least two
      tables, a lift and a trail among them; otherwise only the announcement. */
  lemma ScriptShowsTablesWhenFound(page: Option<seq<Table>>)
    ensures var (lifts, trails) := PageConditions(page);
      !NoData(lifts, trails) <==>
        page.Some? && |page.value| >= 2 && Lifts(AfterHeader(page.value[0].rows)) != [] && Trails(page.value[1..]) != []
  {
  }
}
