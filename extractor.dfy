/**
 * The day-bucketed game extractor shared by `fetch_games` (sportslib/base.py)
 * and `fetch_nfl_games` (nfl/nfl.py). The page is given as the sequence of
 * elements `soup.find_all(['a', 'h1', 'h2', 'h3', 'p', 'div'])` visits, in
 * document order; the walk keeps a `processing` flag, a current day label and
 * an insertion-ordered map from day label to games.
 */
module Extractor {
  import opened Text

  datatype Tag = A | H1 | H2 | H3 | P | Div

  /** One visited element: its tag, `get_text(strip=True)` and `get_text()`. */
  datatype Element = Element(tag: Tag, text: string, raw: string)

  /** One entry of `games_by_day`: a day label and its games in document order. */
  datatype Bucket<G> = Bucket(day: string, games: seq<G>)

  /** What differs between the two copies of the walk: the sport's full name
      that starts it, the other leagues' names that stop it, and the game cap
      (30 in the shared base class, none in the NFL-only copy). */
  datatype Limits = Limits(fullName: string, stopList: seq<string>, cap: Option<nat>)

  /** The walk's state; `stopped` records that the loop has broken out. */
  datatype Walk<G> = Walk(processing: bool, currentDay: string, buckets: seq<Bucket<G>>, stopped: bool)

  /** The labels a day header may set. */
  const DayWords: seq<string> :=
    ["Today", "Tomorrow", "Monday", "Tuesday", "Wednesday", "Thursday", "Friday", "Saturday", "Sunday"]

  /** `re.match(r'^(Today|Tomorrow|Monday|...|Sunday)', text)`. */
  predicate StartsWithDayWord(text: string)
  {
    exists k :: 0 <= k < |DayWords| && DayWords[k] <= text
  }

  /** `text.split(',')[0]`. */
  function DayLabel(text: string): string
  {
    Split(text, ',')[0]
  }

  // ---------------------------------------------------------------------------
  // the insertion-ordered map from day to games

  function Days<G>(bs: seq<Bucket<G>>): (r: seq<string>)
    ensures |r| == |bs| && forall i :: 0 <= i < |bs| ==> r[i] == bs[i].day
  {
    seq(|bs|, i requires 0 <= i < |bs| => bs[i].day)
  }

  /** A dictionary's keys are distinct. */
  predicate DistinctDays<G>(bs: seq<Bucket<G>>)
  {
    forall i, j :: 0 <= i < j < |bs| ==> bs[i].day != bs[j].day
  }

  /** `sum(len(games) for games in games_by_day.values())`. */
  function TotalGames<G>(bs: seq<Bucket<G>>): nat
  {
    if bs == [] then 0 else TotalGames(bs[..|bs| - 1]) + |bs[|bs| - 1].games|
  }

  /** `games_by_day.get(day, [])`. */
  function GamesOn<G>(bs: seq<Bucket<G>>, day: string): seq<G>
  {
    if bs == [] then []
    else if bs[0].day == day then bs[0].games
    else GamesOn(bs[1..], day)
  }

  /** In a map with distinct keys, looking up an entry's day gives its games. */
  lemma {:induction false} GamesOnBucket<G>(bs: seq<Bucket<G>>, i: nat)
    requires DistinctDays(bs) && i < |bs|
    ensures GamesOn(bs, bs[i].day) == bs[i].games
    decreases i
  {
    if i > 0 {
      assert bs[0].day != bs[i].day;
      GamesOnBucket(bs[1..], i - 1);
    }
  }

  /** Appending `g` to the games of `day`, creating the entry at the end
      when `day` is new. */
  function AddGame<G>(bs: seq<Bucket<G>>, day: string, g: G): seq<Bucket<G>>
  {
    if bs == [] then [Bucket(day, [g])]
    else if bs[0].day == day then [bs[0].(games := bs[0].games + [g])] + bs[1..]
    else [bs[0]] + AddGame(bs[1..], day, g)
  }

  /** The days keep their order, a new day comes last, and they stay distinct. */
  lemma AddGameDays<G>(bs: seq<Bucket<G>>, day: string, g: G)
    requires DistinctDays(bs)
    ensures Days(AddGame(bs, day, g)) == if day in Days(bs) then Days(bs) else Days(bs) + [day]
    ensures DistinctDays(AddGame(bs, day, g))
  {
    var r := AddGame(bs, day, g);
    var ds := Days(r);
    AddGameDayList(bs, day, g);
    forall i, j | 0 <= i < j < |r| ensures r[i].day != r[j].day {
      assert ds[i] == r[i].day && ds[j] == r[j].day;
      if j < |bs| {
        assert Days(bs)[i] == bs[i].day && Days(bs)[j] == bs[j].day;
      } else {
        assert Days(bs)[i] == bs[i].day;
      }
    }
  }

  lemma {:induction false} AddGameDayList<G>(bs: seq<Bucket<G>>, day: string, g: G)
    ensures Days(AddGame(bs, day, g)) == if day in Days(bs) then Days(bs) else Days(bs) + [day]
    decreases |bs|
  {
    if bs != [] {
      var b := bs[0];
      var tail := bs[1..];
      assert bs == [b] + tail;
      DaysCons(b, tail);
      if b.day == day {
        var nb := b.(games := b.games + [g]);
        DaysCons(nb, tail);
      } else {
        var rest := AddGame(tail, day, g);
        AddGameDayList(tail, day, g);
        DaysCons(b, rest);
        assert day in Days(bs) <==> day in Days(tail);
        if day !in Days(tail) {
          assert [b.day] + (Days(tail) + [day]) == ([b.day] + Days(tail)) + [day];
        }
      }
    }
  }

  lemma DaysCons<G>(b: Bucket<G>, bs: seq<Bucket<G>>)
    ensures Days([b] + bs) == [b.day] + Days(bs)
  {
  }

  /** Every other entry is unchanged and `day`'s entry has `g` at the end. */
  lemma {:induction false} AddGameEntry<G>(bs: seq<Bucket<G>>, day: string, g: G, i: nat)
    requires DistinctDays(bs) && i < |bs|
    ensures |AddGame(bs, day, g)| > i
    ensures AddGame(bs, day, g)[i] == if bs[i].day == day then bs[i].(games := bs[i].games + [g]) else bs[i]
    decreases i
  {
    if bs[0].day == day {
      if i > 0 {
        assert bs[i].day != bs[0].day;
      }
    } else if i > 0 {
      AddGameEntry(bs[1..], day, g, i - 1);
    }
  }

  /** A new day's entry comes last and holds only `g`. */
  lemma {:induction false} AddGameNewEntry<G>(bs: seq<Bucket<G>>, day: string, g: G)
    requires DistinctDays(bs) && day !in Days(bs)
    ensures |AddGame(bs, day, g)| == |bs| + 1 && AddGame(bs, day, g)[|bs|] == Bucket(day, [g])
    decreases |bs|
  {
    if bs != [] {
      assert Days(bs)[0] == bs[0].day;
      assert day !in Days(bs[1..]) by {
        assert Days(bs) == [bs[0].day] + Days(bs[1..]);
      }
      AddGameNewEntry(bs[1..], day, g);
    }
  }

  /** Looking a day up after adding `g`: the added day has `g` at the end
      of its games, and every other day is unchanged. */
  lemma {:induction false} GamesOnOfAddGame<G>(bs: seq<Bucket<G>>, day: string, g: G, d: string)
    requires DistinctDays(bs)
    ensures GamesOn(AddGame(bs, day, g), d) == if d == day then GamesOn(bs, d) + [g] else GamesOn(bs, d)
    decreases |bs|
  {
    var r := AddGame(bs, day, g);
    if bs != [] {
      assert r[1..] == if bs[0].day == day then bs[1..] else AddGame(bs[1..], day, g);
      if bs[0].day != day {
        GamesOnOfAddGame(bs[1..], day, g, d);
      }
    }
  }

  /** A game of a new day opens a bucket at the end. */
  lemma AddGameNewDay<G>(bs: seq<Bucket<G>>, day: string, g: G)
    requires DistinctDays(bs) && day !in Days(bs)
    ensures AddGame(bs, day, g) == bs + [Bucket(day, [g])]
  {
    var r := AddGame(bs, day, g);
    AddGameNewEntry(bs, day, g);
    forall i | 0 <= i < |bs| ensures r[i] == bs[i] {
      AddGameEntry(bs, day, g, i);
      assert bs[i].day != day by { assert Days(bs)[i] == bs[i].day; }
    }
  }

  /** A game of the last day joins the last bucket. */
  lemma {:induction false} AddGameLastDay<G>(before: seq<Bucket<G>>, day: string, games: seq<G>, g: G)
    requires DistinctDays(before + [Bucket(day, games)])
    ensures AddGame(before + [Bucket(day, games)], day, g) == before + [Bucket(day, games + [g])]
    decreases |before|
  {
    var bs := before + [Bucket(day, games)];
    if before != [] {
      var rest := before[1..];
      assert bs[1..] == rest + [Bucket(day, games)];
      assert bs[0].day != day by { assert bs[|bs| - 1].day == day; }
      assert DistinctDays(bs[1..]) by {
        forall i, j | 0 <= i < j < |bs[1..]| ensures bs[1..][i].day != bs[1..][j].day {
          assert bs[i + 1].day != bs[j + 1].day;
        }
      }
      AddGameLastDay(rest, day, games, g);
      assert AddGame(bs, day, g) == [bs[0]] + (rest + [Bucket(day, games + [g])]);
      ConsSnoc(before[0], rest, Bucket(day, games + [g]));
      assert [before[0]] + rest == before;
    }
  }

  lemma ConsSnoc<T>(a: T, s: seq<T>, x: T)
    ensures [a] + (s + [x]) == ([a] + s) + [x]
  {
  }

  /** The walk's total grows by one with every game added. */
  lemma {:induction false} TotalGamesOfAddGame<G>(bs: seq<Bucket<G>>, day: string, g: G)
    requires DistinctDays(bs)
    ensures TotalGames(AddGame(bs, day, g)) == TotalGames(bs) + 1
    decreases |bs|
  {
    if day in Days(bs) {
      var k :| 0 <= k < |bs| && Days(bs)[k] == day;
      var r := AddGame(bs, day, g);
      AddGameDays(bs, day, g);
      assert |r| == |bs| by { assert |Days(r)| == |r|; }
      forall i | 0 <= i < |bs| ensures |r[i].games| == |bs[i].games| + (if i == k then 1 else 0) {
        AddGameEntry(bs, day, g, i);
      }
      TotalGamesOfOneChanged(bs, r, k);
    } else {
      AddGameNewDay(bs, day, g);
      assert (bs + [Bucket(day, [g])])[..|bs|] == bs;
    }
  }

  lemma TotalGamesSnoc<G>(bs: seq<Bucket<G>>, b: Bucket<G>)
    ensures TotalGames(bs + [b]) == TotalGames(bs) + |b.games|
  {
    assert (bs + [b])[..|bs|] == bs;
  }

  /** Two maps that differ only in entry `k`, which has one more game. */
  lemma {:induction false} TotalGamesOfOneChanged<G>(bs: seq<Bucket<G>>, r: seq<Bucket<G>>, k: nat)
    requires |r| == |bs| && k < |bs|
    requires |r[k].games| == |bs[k].games| + 1
    requires forall i :: 0 <= i < |bs| && i != k ==> |r[i].games| == |bs[i].games|
    ensures TotalGames(r) == TotalGames(bs) + 1
    decreases |bs|
  {
    var n := |bs| - 1;
    if k == n {
      TotalGamesOfSameSizes(bs[..n], r[..n]);
    } else {
      TotalGamesOfOneChanged(bs[..n], r[..n], k);
    }
  }

  lemma {:induction false} TotalGamesOfSameSizes<G>(bs: seq<Bucket<G>>, r: seq<Bucket<G>>)
    requires |r| == |bs|
    requires forall i :: 0 <= i < |bs| ==> |r[i].games| == |bs[i].games|
    ensures TotalGames(r) == TotalGames(bs)
    decreases |bs|
  {
    if bs != [] {
      TotalGamesOfSameSizes(bs[..|bs| - 1], r[..|r| - 1]);
    }
  }

  // ---------------------------------------------------------------------------
  // the walk

  function Start<G>(): Walk<G>
  {
    Walk(false, "Today", [], false)
  }

  /** One element of the walk, as the loop body handles it. */
  function Step<G>(lim: Limits, parse: string -> Option<G>, w: Walk<G>, e: Element): Walk<G>
  {
    if w.stopped then w
    else if Contains(e.text, lim.fullName) then w.(processing := true)
    else if w.processing && (ContainsAny(e.text, lim.stopList)
                             || (lim.cap.Some? && TotalGames(w.buckets) >= lim.cap.value)) then
      w.(stopped := true)
    else if !w.processing then w
    else if StartsWithDayWord(e.text) then
      if DayLabel(e.text) in DayWords then w.(currentDay := DayLabel(e.text)) else w
    else if e.tag == A && Contains(e.raw, "+-") then
      match parse(e.raw)
      case None => w
      case Some(g) => w.(buckets := AddGame(w.buckets, w.currentDay, g))
    else w
  }

  /** The invariant of the walk: the map's keys are distinct day words, each
      entry holds at least one game, nothing is collected before the sport's
      name is seen, the current day is a day word, and the cap holds. */
  predicate Good<G>(lim: Limits, w: Walk<G>)
  {
    && DistinctDays(w.buckets)
    && w.currentDay in DayWords
    && (forall i :: 0 <= i < |w.buckets| ==> w.buckets[i].day in DayWords && w.buckets[i].games != [])
    && (!w.processing ==> w.buckets == [])
    && (lim.cap.Some? ==> TotalGames(w.buckets) <= lim.cap.value)
  }

  lemma StepGood<G>(lim: Limits, parse: string -> Option<G>, w: Walk<G>, e: Element)
    requires Good(lim, w)
    ensures Good(lim, Step(lim, parse, w, e))
  {
    if w.stopped || Contains(e.text, lim.fullName) || !w.processing {
    } else if ContainsAny(e.text, lim.stopList) || (lim.cap.Some? && TotalGames(w.buckets) >= lim.cap.value) {
    } else if StartsWithDayWord(e.text) {
    } else if e.tag == A && Contains(e.raw, "+-") && parse(e.raw).Some? {
      AddGameGood(lim, w, parse(e.raw).value);
    }
  }

  lemma AddGameGood<G>(lim: Limits, w: Walk<G>, g: G)
    requires Good(lim, w) && w.processing
    requires lim.cap.Some? ==> TotalGames(w.buckets) < lim.cap.value
    ensures Good(lim, w.(buckets := AddGame(w.buckets, w.currentDay, g)))
  {
    var r := AddGame(w.buckets, w.currentDay, g);
    AddGameDays(w.buckets, w.currentDay, g);
    TotalGamesOfAddGame(w.buckets, w.currentDay, g);
    assert |Days(r)| == |r|;
    forall i | 0 <= i < |r|
      ensures r[i].day in DayWords && r[i].games != []
    {
      assert Days(r)[i] == r[i].day;
      if i < |w.buckets| {
        AddGameEntry(w.buckets, w.currentDay, g, i);
      } else {
        AddGameNewEntry(w.buckets, w.currentDay, g);
      }
    }
  }

  /** The state after the walk has visited `es`. */
  function Run<G>(lim: Limits, parse: string -> Option<G>, es: seq<Element>): (w: Walk<G>)
    ensures Good(lim, w)
    decreases |es|
  {
    if es == [] then Start()
    else
      var before := Run(lim, parse, es[..|es| - 1]);
      StepGood(lim, parse, before, es[|es| - 1]);
      Step(lim, parse, before, es[|es| - 1])
  }

  lemma RunStep<G>(lim: Limits, parse: string -> Option<G>, es: seq<Element>, i: nat)
    requires i < |es|
    ensures Run(lim, parse, es[..i + 1]) == Step(lim, parse, Run(lim, parse, es[..i]), es[i])
  {
    assert es[..i + 1][..i] == es[..i];
  }

  /** One more element, from a walk already known. */
  lemma RunAdvance<G>(lim: Limits, parse: string -> Option<G>, es: seq<Element>, i: nat, w: Walk<G>, next: Walk<G>)
    requires i < |es| && Run(lim, parse, es[..i]) == w && Step(lim, parse, w, es[i]) == next
    ensures Run(lim, parse, es[..i + 1]) == next
  {
    RunStep(lim, parse, es, i);
  }

  /** Once the walk has stopped, the rest of the page changes nothing. */
  lemma {:induction false} StoppedIsFinal<G>(lim: Limits, parse: string -> Option<G>, es: seq<Element>, k: nat)
    requires k <= |es| && Run(lim, parse, es[..k]).stopped
    ensures Run(lim, parse, es) == Run(lim, parse, es[..k])
    decreases |es|
  {
    if k < |es| {
      var init := es[..|es| - 1];
      assert init[..k] == es[..k];
      StoppedIsFinal(lim, parse, init, k);
    } else {
      assert es[..k] == es;
    }
  }

  /** The loop of `fetch_games` / `fetch_nfl_games` over the visited elements. */
  method ExtractGames<G>(lim: Limits, parse: string -> Option<G>, elements: seq<Element>)
    returns (gamesByDay: seq<Bucket<G>>)
    ensures gamesByDay == Run(lim, parse, elements).buckets
    ensures DistinctDays(gamesByDay)
    ensures forall i :: 0 <= i < |gamesByDay| ==> gamesByDay[i].day in DayWords && gamesByDay[i].games != []
    ensures lim.cap.Some? ==> TotalGames(gamesByDay) <= lim.cap.value
  {
    gamesByDay := [];
    var currentDay := "Today";
    var processing := false;
    var i := 0;
    while i < |elements|
      invariant 0 <= i <= |elements|
      invariant Run(lim, parse, elements[..i]) == Walk(processing, currentDay, gamesByDay, false)
    {
      var e := elements[i];
      RunStep(lim, parse, elements, i);
      if Contains(e.text, lim.fullName) {
        processing := true;
        i := i + 1;
        continue;
      }
      if processing {
        if ContainsAny(e.text, lim.stopList) || (lim.cap.Some? && TotalGames(gamesByDay) >= lim.cap.value) {
          StoppedIsFinal(lim, parse, elements, i + 1);
          return;
        }
      }
      if !processing {
        i := i + 1;
        continue;
      }
      if StartsWithDayWord(e.text) {
        var day := DayLabel(e.text);
        if day in DayWords {
          currentDay := day;
        }
        i := i + 1;
        continue;
      }
      if e.tag == A && Contains(e.raw, "+-") {
        var game := parse(e.raw);
        if game.Some? {
          gamesByDay := AddGame(gamesByDay, currentDay, game.value);
        }
      }
      i := i + 1;
    }
    assert elements[..i] == elements;
  }

  // ---------------------------------------------------------------------------
  // properties of the walk

  /** No game is collected before the sport's full name has been seen. */
  lemma {:induction false} NothingBeforeSport<G>(lim: Limits, parse: string -> Option<G>, es: seq<Element>)
    requires forall k :: 0 <= k < |es| ==> !Contains(es[k].text, lim.fullName)
    ensures !Run(lim, parse, es).processing && Run(lim, parse, es).buckets == []
    decreases |es|
  {
    if es != [] {
      NothingBeforeSport(lim, parse, es[..|es| - 1]);
    }
  }

  /** An element naming another league, met while the sport is being
      processed, ends the walk: nothing from it onward is collected. */
  lemma StopListEndsWalk<G>(lim: Limits, parse: string -> Option<G>, es: seq<Element>, k: nat)
    requires k < |es|
    requires Run(lim, parse, es[..k]).processing && !Run(lim, parse, es[..k]).stopped
    requires !Contains(es[k].text, lim.fullName) && ContainsAny(es[k].text, lim.stopList)
    ensures Run(lim, parse, es).buckets == Run(lim, parse, es[..k]).buckets
  {
    RunStep(lim, parse, es, k);
    StoppedIsFinal(lim, parse, es, k + 1);
  }

  /** Every collected game is the parse of the raw text of some anchor of
      the page whose raw text holds "+-". */
  ghost predicate FromAnchor<G>(parse: string -> Option<G>, es: seq<Element>, g: G)
  {
    exists k :: 0 <= k < |es| && es[k].tag == A && Contains(es[k].raw, "+-") && parse(es[k].raw) == Some(g)
  }

  /** All games of the map, day after day. */
  function AllGames<G>(bs: seq<Bucket<G>>): seq<G>
  {
    if bs == [] then [] else bs[0].games + AllGames(bs[1..])
  }

  lemma {:induction false} AllGamesOfAddGame<G>(bs: seq<Bucket<G>>, day: string, g: G)
    requires DistinctDays(bs)
    ensures forall x :: x in AllGames(AddGame(bs, day, g)) <==> x in AllGames(bs) || x == g
    decreases |bs|
  {
    var r := AddGame(bs, day, g);
    if bs == [] {
    } else if bs[0].day == day {
      assert r[1..] == bs[1..];
    } else {
      assert r[1..] == AddGame(bs[1..], day, g);
      AllGamesOfAddGame(bs[1..], day, g);
    }
  }

  /** A step adds at most the game parsed from the element it visits. */
  lemma StepGames<G>(lim: Limits, parse: string -> Option<G>, w: Walk<G>, e: Element, x: G)
    requires DistinctDays(w.buckets)
    requires x in AllGames(Step(lim, parse, w, e).buckets)
    ensures x in AllGames(w.buckets) || (e.tag == A && Contains(e.raw, "+-") && parse(e.raw) == Some(x))
  {
    if !w.stopped && !Contains(e.text, lim.fullName) && w.processing
      && !ContainsAny(e.text, lim.stopList) && !(lim.cap.Some? && TotalGames(w.buckets) >= lim.cap.value)
      && !StartsWithDayWord(e.text) && e.tag == A && Contains(e.raw, "+-") && parse(e.raw).Some?
    {
      AllGamesOfAddGame(w.buckets, w.currentDay, parse(e.raw).value);
    }
  }

  lemma {:induction false} GamesComeFromAnchors<G>(lim: Limits, parse: string -> Option<G>, es: seq<Element>)
    ensures forall x :: x in AllGames(Run(lim, parse, es).buckets) ==> FromAnchor(parse, es, x)
    decreases |es|
  {
    if es != [] {
      var n := |es| - 1;
      var init := es[..n];
      GamesComeFromAnchors(lim, parse, init);
      forall x | x in AllGames(Run(lim, parse, es).buckets)
        ensures FromAnchor(parse, es, x)
      {
        StepGames(lim, parse, Run(lim, parse, init), es[n], x);
        if x in AllGames(Run(lim, parse, init).buckets) {
          var k :| 0 <= k < |init| && init[k].tag == A && Contains(init[k].raw, "+-") && parse(init[k].raw) == Some(x);
          assert es[k] == init[k];
        } else {
          assert es[n].tag == A && Contains(es[n].raw, "+-") && parse(es[n].raw) == Some(x);
        }
      }
    }
  }

  // ---------------------------------------------------------------------------
  // what the walk collects, element by element
  //
  // A reference stated by position on the page rather than by the walk's
  // state: which elements lie inside the sport's section, which of them are
  // day headers and game boxes, and the latest header before each box.

  /** A game and the day label it is filed under. */
  datatype Dated<G> = Dated(day: string, game: G)

  /** Some element before position `n` names the sport. */
  ghost predicate Started(lim: Limits, es: seq<Element>, n: nat)
  {
    exists i :: 0 <= i < n && i < |es| && Contains(es[i].text, lim.fullName)
  }

  /** Some element before position `n`, after the sport's name, names a
      league of the stop list. */
  ghost predicate Halted(lim: Limits, es: seq<Element>, n: nat)
  {
    exists i :: 0 <= i < n && i < |es| && Started(lim, es, i) && IsStopHeading(lim, es[i])
  }

  /** Element `i` lies inside the sport's section: the sport has been named
      before it, no stop heading has come since, and it names neither the
      sport nor a league of the stop list. */
  ghost predicate Inside(lim: Limits, es: seq<Element>, i: nat)
    requires i < |es|
  {
    && Started(lim, es, i) && !Halted(lim, es, i)
    && !Contains(es[i].text, lim.fullName) && !ContainsAny(es[i].text, lim.stopList)
  }

  /** Element `i` is a day header of the section. */
  ghost predicate HeaderAt(lim: Limits, es: seq<Element>, i: nat)
    requires i < |es|
  {
    Inside(lim, es, i) && StartsWithDayWord(es[i].text) && DayLabel(es[i].text) in DayWords
  }

  /** Element `i` is an anchor of the section whose box parses. */
  ghost predicate GameAt<G>(lim: Limits, parse: string -> Option<G>, es: seq<Element>, i: nat)
    requires i < |es|
  {
    && Inside(lim, es, i) && !StartsWithDayWord(es[i].text)
    && es[i].tag == A && Contains(es[i].raw, "+-") && parse(es[i].raw).Some?
  }

  /** The label of the latest day header before position `n`; "Today"
      when there is none. */
  ghost function DayBefore(lim: Limits, es: seq<Element>, n: nat): string
    requires n <= |es|
  {
    if n == 0 then "Today"
    else if HeaderAt(lim, es, n - 1) then DayLabel(es[n - 1].text)
    else DayBefore(lim, es, n - 1)
  }

  /** The games of the section before position `n`, in page order, each
      with the latest day header before it. */
  ghost function DatedGames<G>(lim: Limits, parse: string -> Option<G>, es: seq<Element>, n: nat): seq<Dated<G>>
    requires n <= |es|
  {
    if n == 0 then []
    else
      DatedGames(lim, parse, es, n - 1)
      + if GameAt(lim, parse, es, n - 1) then [Dated(DayBefore(lim, es, n - 1), parse(es[n - 1].raw).value)] else []
  }

  /** The first `c` entries, or all of them when there are fewer. */
  function Take<T>(s: seq<T>, c: nat): seq<T>
  {
    if |s| > c then s[..c] else s
  }

  /** What the walk is meant to collect: every game of the section with
      its day, in page order, and only the first `cap` when there is a cap. */
  ghost function Expected<G>(lim: Limits, parse: string -> Option<G>, es: seq<Element>): seq<Dated<G>>
  {
    var all := DatedGames(lim, parse, es, |es|);
    if lim.cap.Some? then Take(all, lim.cap.value) else all
  }

  /** The games filed under `d`, in order. */
  function GamesFor<G>(ps: seq<Dated<G>>, d: string): seq<G>
  {
    if ps == [] then []
    else GamesFor(ps[..|ps| - 1], d) + if ps[|ps| - 1].day == d then [ps[|ps| - 1].game] else []
  }

  /** The days of `ps`, each once, in order of first appearance. */
  function DaysInOrder<G>(ps: seq<Dated<G>>): seq<string>
  {
    if ps == [] then []
    else
      var ds := DaysInOrder(ps[..|ps| - 1]);
      if ps[|ps| - 1].day in ds then ds else ds + [ps[|ps| - 1].day]
  }

  /** The map built by adding the games of `ps` one after the other. */
  function Filed<G>(ps: seq<Dated<G>>): (r: seq<Bucket<G>>)
    ensures DistinctDays(r)
  {
    if ps == [] then []
    else
      var before := Filed(ps[..|ps| - 1]);
      AddGameDays(before, ps[|ps| - 1].day, ps[|ps| - 1].game);
      AddGame(before, ps[|ps| - 1].day, ps[|ps| - 1].game)
  }

  /** Adding the games one by one files each under its day, in order, keys
      the map by first appearance, and counts every game. */
  lemma {:induction false} FiledContents<G>(ps: seq<Dated<G>>, d: string)
    ensures GamesOn(Filed(ps), d) == GamesFor(ps, d)
    ensures Days(Filed(ps)) == DaysInOrder(ps)
    ensures TotalGames(Filed(ps)) == |ps|
    decreases |ps|
  {
    if ps != [] {
      var init := ps[..|ps| - 1];
      var x := ps[|ps| - 1];
      FiledContents(init, d);
      GamesOnOfAddGame(Filed(init), x.day, x.game, d);
      AddGameDays(Filed(init), x.day, x.game);
      TotalGamesOfAddGame(Filed(init), x.day, x.game);
    }
  }

  lemma FiledSnoc<G>(ps: seq<Dated<G>>, x: Dated<G>)
    ensures Filed(ps + [x]) == AddGame(Filed(ps), x.day, x.game)
  {
    assert (ps + [x])[..|ps|] == ps;
  }

  lemma StartedStep(lim: Limits, es: seq<Element>, n: nat)
    requires n < |es|
    ensures Started(lim, es, n + 1) <==> Started(lim, es, n) || Contains(es[n].text, lim.fullName)
  {
    if Started(lim, es, n + 1) && !Contains(es[n].text, lim.fullName) {
      var i :| 0 <= i < n + 1 && i < |es| && Contains(es[i].text, lim.fullName);
      assert i < n;
    }
  }

  lemma StartedLater(lim: Limits, es: seq<Element>, i: nat, n: nat)
    requires i <= n && Started(lim, es, i)
    ensures Started(lim, es, n)
  {
  }

  lemma HaltedStep(lim: Limits, es: seq<Element>, n: nat)
    requires n < |es|
    ensures Halted(lim, es, n + 1) <==> Halted(lim, es, n) || (Started(lim, es, n) && IsStopHeading(lim, es[n]))
    ensures Halted(lim, es, n) ==> Started(lim, es, n)
  {
    if Halted(lim, es, n + 1) && !(Started(lim, es, n) && IsStopHeading(lim, es[n])) {
      var i :| 0 <= i < n + 1 && i < |es| && Started(lim, es, i) && IsStopHeading(lim, es[i]);
      assert i < n;
    }
    if Halted(lim, es, n) {
      var i :| 0 <= i < n && i < |es| && Started(lim, es, i) && IsStopHeading(lim, es[i]);
      StartedLater(lim, es, i, n);
    }
  }

  /** The walk with the cap taken away. */
  function Uncapped(lim: Limits): Limits
  {
    lim.(cap := None)
  }

  /** The walk's state after `n` elements, read off the reference. */
  ghost function RefWalk<G>(lim: Limits, parse: string -> Option<G>, es: seq<Element>, n: nat): Walk<G>
    requires n <= |es|
  {
    Walk(Started(lim, es, n), DayBefore(lim, es, n), Filed(DatedGames(lim, parse, es, n)), Halted(lim, es, n))
  }

  /** One uncapped step moves the reference on by one element. */
  lemma UncappedStep<G>(lim: Limits, parse: string -> Option<G>, es: seq<Element>, k: nat)
    requires k < |es|
    ensures Step(Uncapped(lim), parse, RefWalk(lim, parse, es, k), es[k]) == RefWalk(lim, parse, es, k + 1)
  {
    var e := es[k];
    StartedStep(lim, es, k);
    HaltedStep(lim, es, k);
    var ps := DatedGames(lim, parse, es, k);
    var w := RefWalk(lim, parse, es, k);
    if Inside(lim, es, k) {
      assert w.processing && !w.stopped;
      if StartsWithDayWord(e.text) {
        assert !GameAt(lim, parse, es, k);
        assert DatedGames(lim, parse, es, k + 1) == ps;
        assert DayBefore(lim, es, k + 1) == if DayLabel(e.text) in DayWords then DayLabel(e.text) else w.currentDay;
      } else {
        assert !HeaderAt(lim, es, k);
        assert DayBefore(lim, es, k + 1) == w.currentDay;
        if GameAt(lim, parse, es, k) {
          var x := Dated(DayBefore(lim, es, k), parse(e.raw).value);
          assert DatedGames(lim, parse, es, k + 1) == ps + [x];
          FiledSnoc(ps, x);
        } else {
          assert DatedGames(lim, parse, es, k + 1) == ps;
        }
      }
    } else {
      assert !HeaderAt(lim, es, k);
      assert DatedGames(lim, parse, es, k + 1) == ps;
    }
  }

  /** Without a cap, the walk's state after `n` elements is given by the
      reference: processing once the sport is named, the latest day header,
      the section's games filed in order, and stopped at the first stop
      heading. */
  lemma {:induction false} UncappedRun<G>(lim: Limits, parse: string -> Option<G>, es: seq<Element>, n: nat)
    requires n <= |es|
    ensures Run(Uncapped(lim), parse, es[..n]) == RefWalk(lim, parse, es, n)
    decreases n
  {
    if n == 0 {
      assert es[..0] == [];
    } else {
      UncappedRun(lim, parse, es, n - 1);
      UncappedRunStep(lim, parse, es, n - 1);
    }
  }

  /** The agreement carries over one more element. */
  lemma UncappedRunStep<G>(lim: Limits, parse: string -> Option<G>, es: seq<Element>, k: nat)
    requires k < |es| && Run(Uncapped(lim), parse, es[..k]) == RefWalk(lim, parse, es, k)
    ensures Run(Uncapped(lim), parse, es[..k + 1]) == RefWalk(lim, parse, es, k + 1)
  {
    UncappedStep(lim, parse, es, k);
    RunStep(Uncapped(lim), parse, es, k);
  }

  /** How a capped walk's state `w` after `n` elements relates to the
      reference: it is the uncapped state until it stops, it stops only at a
      stop heading or once the cap is reached, and it holds the first `cap`
      games of the section. */
  ghost predicate CapAgrees<G>(lim: Limits, parse: string -> Option<G>, es: seq<Element>, n: nat, w: Walk<G>)
    requires n <= |es| && lim.cap.Some?
  {
    && (!w.stopped ==> w == RefWalk(lim, parse, es, n))
    && (w.stopped ==> Halted(lim, es, n) || |DatedGames(lim, parse, es, n)| >= lim.cap.value)
    && w.buckets == Filed(Take(DatedGames(lim, parse, es, n), lim.cap.value))
  }

  lemma CappedStep<G>(lim: Limits, parse: string -> Option<G>, es: seq<Element>, k: nat, w: Walk<G>)
    requires k < |es| && lim.cap.Some? && Good(lim, w) && CapAgrees(lim, parse, es, k, w)
    ensures CapAgrees(lim, parse, es, k + 1, Step(lim, parse, w, es[k]))
  {
    var c := lim.cap.value;
    var e := es[k];
    var ps := DatedGames(lim, parse, es, k);
    var ps1 := DatedGames(lim, parse, es, k + 1);
    assert ps1[..|ps|] == ps;
    HaltedStep(lim, es, k);
    if w.stopped {
      if Halted(lim, es, k) {
        assert !Inside(lim, es, k);
        assert ps1 == ps;
      }
      assert Take(ps1, c) == Take(ps, c);
    } else {
      FiledContents(ps, "");
      UncappedStep(lim, parse, es, k);
      if !Contains(e.text, lim.fullName) && w.processing && TotalGames(w.buckets) >= c {
        assert Take(ps1, c) == ps;
      } else {
        StepWithoutCap(lim, parse, w, e);
        var w1 := Step(lim, parse, w, e);
        StepGood(lim, parse, w, e);
        FiledContents(ps1, "");
        assert w1.buckets == Filed(ps1);
        assert Take(ps1, c) == ps1;
      }
    }
  }

  /** The capped walk agrees with the uncapped one until it has reached
      its cap and meets one more element of the section; from then on it
      holds the first `cap` games. */
  lemma {:induction false} CappedRun<G>(lim: Limits, parse: string -> Option<G>, es: seq<Element>, n: nat)
    requires n <= |es| && lim.cap.Some?
    ensures CapAgrees(lim, parse, es, n, Run(lim, parse, es[..n]))
    decreases n
  {
    if n == 0 {
      assert es[..0] == [];
    } else {
      CappedRun(lim, parse, es, n - 1);
      CappedRunStep(lim, parse, es, n - 1);
    }
  }

  /** The agreement carries over one more element. */
  lemma CappedRunStep<G>(lim: Limits, parse: string -> Option<G>, es: seq<Element>, k: nat)
    requires k < |es| && lim.cap.Some? && CapAgrees(lim, parse, es, k, Run(lim, parse, es[..k]))
    ensures CapAgrees(lim, parse, es, k + 1, Run(lim, parse, es[..k + 1]))
  {
    RunStep(lim, parse, es, k);
    CappedStep(lim, parse, es, k, Run(lim, parse, es[..k]));
  }

  /** Below its cap, a step does what the uncapped step does. */
  lemma StepWithoutCap<G>(lim: Limits, parse: string -> Option<G>, w: Walk<G>, e: Element)
    requires w.stopped || Contains(e.text, lim.fullName) || !w.processing || lim.cap.None?
      || TotalGames(w.buckets) < lim.cap.value
    ensures Step(lim, parse, w, e) == Step(Uncapped(lim), parse, w, e)
  {
  }

  /** Each game of the sport's section is filed under the latest day header
      before it ("Today" before the first), in page order; a day is a key
      of the map exactly from its first game on; with a cap only the first
      `cap` games of the section are kept. */
  lemma WalkCollectsExpected<G>(lim: Limits, parse: string -> Option<G>, es: seq<Element>)
    ensures var bs := Run(lim, parse, es).buckets;
      && Days(bs) == DaysInOrder(Expected(lim, parse, es))
      && forall d :: GamesOn(bs, d) == GamesFor(Expected(lim, parse, es), d)
  {
    var n := |es|;
    assert es[..n] == es;
    if lim.cap.None? {
      UncappedRun(lim, parse, es, n);
      assert Uncapped(lim) == lim;
    } else {
      CappedRun(lim, parse, es, n);
    }
    forall d ensures GamesOn(Run(lim, parse, es).buckets, d) == GamesFor(Expected(lim, parse, es), d) {
      FiledContents(Expected(lim, parse, es), d);
    }
    FiledContents(Expected(lim, parse, es), "");
  }

  /** The reference's day: "Today" before any header of the section. */
  lemma {:induction false} DayBeforeFirstHeader(lim: Limits, es: seq<Element>, n: nat)
    requires n <= |es| && forall j :: 0 <= j < n ==> !HeaderAt(lim, es, j)
    ensures DayBefore(lim, es, n) == "Today"
    decreases n
  {
    if n > 0 {
      DayBeforeFirstHeader(lim, es, n - 1);
    }
  }

  /** The reference's day: the label of the latest header before `n`. */
  lemma {:induction false} DayBeforeIsLatestHeader(lim: Limits, es: seq<Element>, n: nat, i: nat)
    requires i < n <= |es| && HeaderAt(lim, es, i)
    requires forall j :: i < j < n ==> !HeaderAt(lim, es, j)
    ensures DayBefore(lim, es, n) == DayLabel(es[i].text)
    decreases n
  {
    if n - 1 > i {
      DayBeforeIsLatestHeader(lim, es, n - 1, i);
    }
  }

  /** Every parsing box of the section is among the reference's games,
      with the latest day header before it. */
  lemma {:induction false} EveryBoxCounted<G>(lim: Limits, parse: string -> Option<G>, es: seq<Element>, n: nat, i: nat)
    requires i < n <= |es| && GameAt(lim, parse, es, i)
    ensures Dated(DayBefore(lim, es, i), parse(es[i].raw).value) in DatedGames(lim, parse, es, n)
    decreases n
  {
    if n - 1 > i {
      EveryBoxCounted(lim, parse, es, n - 1, i);
    }
  }

  // ---------------------------------------------------------------------------
  // walking a laid-out page

  /** The kinds of element the walk meets on a schedule page. */
  predicate IsLeagueHeading(lim: Limits, e: Element)
  {
    Contains(e.text, lim.fullName)
  }

  predicate IsStopHeading(lim: Limits, e: Element)
  {
    !Contains(e.text, lim.fullName) && ContainsAny(e.text, lim.stopList)
  }

  /** Neither a league heading, a day header nor an anchor. */
  predicate IsQuietElement(lim: Limits, e: Element)
  {
    && !Contains(e.text, lim.fullName) && !ContainsAny(e.text, lim.stopList)
    && !StartsWithDayWord(e.text) && e.tag != A
  }

  predicate IsDayHeader(lim: Limits, e: Element, day: string)
  {
    && !Contains(e.text, lim.fullName) && !ContainsAny(e.text, lim.stopList)
    && StartsWithDayWord(e.text) && DayLabel(e.text) == day && day in DayWords
  }

  /** An anchor holding a game box that parses to `g`, whose text names no
      league and does not start with a day word. */
  ghost predicate IsGameBox<G>(lim: Limits, parse: string -> Option<G>, e: Element, g: G)
  {
    && e.tag == A
    && !Contains(e.text, lim.fullName) && !ContainsAny(e.text, lim.stopList)
    && !StartsWithDayWord(e.text)
    && Contains(e.raw, "+-") && parse(e.raw) == Some(g)
  }

  // One element more of a walk already known, by kind of element, while
  // the walk is under its cap (or has none).

  /** The walk has not reached its cap. */
  predicate UnderCap<G>(lim: Limits, w: Walk<G>)
  {
    lim.cap.None? || TotalGames(w.buckets) < lim.cap.value
  }

  lemma AdvanceLeague<G>(lim: Limits, parse: string -> Option<G>, es: seq<Element>, i: nat, w: Walk<G>)
    requires i < |es| && Run(lim, parse, es[..i]) == w && !w.stopped && IsLeagueHeading(lim, es[i])
    ensures Run(lim, parse, es[..i + 1]) == w.(processing := true)
  {
    RunStep(lim, parse, es, i);
  }

  lemma AdvanceQuiet<G>(lim: Limits, parse: string -> Option<G>, es: seq<Element>, i: nat, w: Walk<G>)
    requires i < |es| && Run(lim, parse, es[..i]) == w && UnderCap(lim, w)
    requires w.processing && !w.stopped && IsQuietElement(lim, es[i])
    ensures Run(lim, parse, es[..i + 1]) == w
  {
    RunStep(lim, parse, es, i);
  }

  lemma AdvanceHeader<G>(lim: Limits, parse: string -> Option<G>, es: seq<Element>, i: nat, w: Walk<G>, day: string)
    requires i < |es| && Run(lim, parse, es[..i]) == w && UnderCap(lim, w)
    requires w.processing && !w.stopped && IsDayHeader(lim, es[i], day)
    ensures Run(lim, parse, es[..i + 1]) == w.(currentDay := day)
  {
    RunStep(lim, parse, es, i);
  }

  /** A game box of a new day opens that day's bucket at the end. */
  lemma AdvanceNewDay<G>(lim: Limits, parse: string -> Option<G>, es: seq<Element>, i: nat, w: Walk<G>, g: G)
    requires i < |es| && Run(lim, parse, es[..i]) == w && UnderCap(lim, w)
    requires w.processing && !w.stopped && IsGameBox(lim, parse, es[i], g)
    requires w.currentDay !in Days(w.buckets)
    ensures Run(lim, parse, es[..i + 1]) == w.(buckets := w.buckets + [Bucket(w.currentDay, [g])])
  {
    RunStep(lim, parse, es, i);
    AddGameNewDay(w.buckets, w.currentDay, g);
  }

  /** A further game box of the last day joins that day's bucket. */
  lemma AdvanceSameDay<G>(lim: Limits, parse: string -> Option<G>, es: seq<Element>, i: nat, w: Walk<G>, g: G,
                              before: seq<Bucket<G>>, games: seq<G>)
    requires i < |es| && Run(lim, parse, es[..i]) == w && UnderCap(lim, w)
    requires w.processing && !w.stopped && IsGameBox(lim, parse, es[i], g)
    requires w.buckets == before + [Bucket(w.currentDay, games)]
    ensures Run(lim, parse, es[..i + 1]) == w.(buckets := before + [Bucket(w.currentDay, games + [g])])
  {
    RunStep(lim, parse, es, i);
    AddGameLastDay(before, w.currentDay, games, g);
  }

  lemma AdvanceStop<G>(lim: Limits, parse: string -> Option<G>, es: seq<Element>, i: nat, w: Walk<G>)
    requires i < |es| && Run(lim, parse, es[..i]) == w
    requires w.processing && !w.stopped && IsStopHeading(lim, es[i])
    ensures Run(lim, parse, es[..i + 1]) == w.(stopped := true)
  {
    RunStep(lim, parse, es, i);
  }

  lemma TwoGames<G>(g1: G, g2: G)
    ensures [g1] + [g2] == [g1, g2]
  {
  }

  /** A page laid out as: the league's heading `e0`, a quiet line `e1`,
      then three days with two, two and one game boxes, then a heading
      `e10` of a league on the stop list and some element after it. */
  function ThreeDayLayout(e0: Element, e1: Element, e2: Element, b1: Element, b2: Element, e5: Element,
                          b3: Element, b4: Element, e8: Element, b5: Element, e10: Element, after: Element): seq<Element>
  {
    [e0, e1, e2, b1, b2, e5, b3, b4, e8, b5, e10, after]
  }

  /** Such a page is read as three buckets in page order, and whatever
      follows the stop heading is not read. */
  lemma ThreeDayPage<G>(lim: Limits, parse: string -> Option<G>,
                        e0: Element, e1: Element, e2: Element, b1: Element, b2: Element, e5: Element,
                        b3: Element, b4: Element, e8: Element, b5: Element, e10: Element, after: Element,
                        d0: string, d1: string, d2: string, g1: G, g2: G, g3: G, g4: G, g5: G)
    requires (lim.cap.None? || lim.cap.value > 5) && d0 != d1 && d1 != d2 && d0 != d2
    requires IsLeagueHeading(lim, e0) && IsQuietElement(lim, e1)
    requires IsDayHeader(lim, e2, d0) && IsGameBox(lim, parse, b1, g1) && IsGameBox(lim, parse, b2, g2)
    requires IsDayHeader(lim, e5, d1) && IsGameBox(lim, parse, b3, g3) && IsGameBox(lim, parse, b4, g4)
    requires IsDayHeader(lim, e8, d2) && IsGameBox(lim, parse, b5, g5)
    requires IsStopHeading(lim, e10)
    ensures Run(lim, parse, ThreeDayLayout(e0, e1, e2, b1, b2, e5, b3, b4, e8, b5, e10, after)).buckets ==
      [Bucket(d0, [g1, g2]), Bucket(d1, [g3, g4]), Bucket(d2, [g5])]
  {
    var es := ThreeDayLayout(e0, e1, e2, b1, b2, e5, b3, b4, e8, b5, e10, after);
    LayoutPositions(e0, e1, e2, b1, b2, e5, b3, b4, e8, b5, e10, after);
    var w := FirstDayOfPage(lim, parse, es, d0, g1, g2);
    w := SecondDayOfPage(lim, parse, es, w, d0, d1, g1, g2, g3, g4);
    w := ThirdDayOfPage(lim, parse, es, w, d0, d1, d2, g1, g2, g3, g4, g5);
    AdvanceStop(lim, parse, es, 10, w);
    StoppedIsFinal(lim, parse, es, 11);
  }

  lemma LayoutPositions(e0: Element, e1: Element, e2: Element, b1: Element, b2: Element, e5: Element,
                        b3: Element, b4: Element, e8: Element, b5: Element, e10: Element, after: Element)
    ensures var es := ThreeDayLayout(e0, e1, e2, b1, b2, e5, b3, b4, e8, b5, e10, after);
      && |es| == 12 && es[0] == e0 && es[1] == e1 && es[2] == e2 && es[3] == b1 && es[4] == b2
      && es[5] == e5 && es[6] == b3 && es[7] == b4 && es[8] == e8 && es[9] == b5 && es[10] == e10
  {
  }

  lemma FirstDayOfPage<G>(lim: Limits, parse: string -> Option<G>, es: seq<Element>, d0: string, g1: G, g2: G)
    returns (w: Walk<G>)
    requires (lim.cap.None? || lim.cap.value > 5) && |es| >= 5 && IsLeagueHeading(lim, es[0]) && IsQuietElement(lim, es[1])
    requires IsDayHeader(lim, es[2], d0) && IsGameBox(lim, parse, es[3], g1) && IsGameBox(lim, parse, es[4], g2)
    ensures w == Walk(true, d0, [Bucket(d0, [g1, g2])], false)
    ensures Run(lim, parse, es[..5]) == w
  {
    var w0: Walk<G> := Start();
    assert es[..0] == [];
    AdvanceLeague(lim, parse, es, 0, w0);
    var w1 := w0.(processing := true);
    AdvanceQuiet(lim, parse, es, 1, w1);
    AdvanceHeader(lim, parse, es, 2, w1, d0);
    var w3 := w1.(currentDay := d0);
    AdvanceNewDay(lim, parse, es, 3, w3, g1);
    var w4 := w3.(buckets := [Bucket(d0, [g1])]);
    TotalGamesSnoc([], Bucket(d0, [g1]));
    AdvanceSameDay(lim, parse, es, 4, w4, g2, [], [g1]);
    TwoGames(g1, g2);
    w := w3.(buckets := [Bucket(d0, [g1, g2])]);
  }

  lemma SecondDayOfPage<G>(lim: Limits, parse: string -> Option<G>, es: seq<Element>, w5: Walk<G>,
                               d0: string, d1: string, g1: G, g2: G, g3: G, g4: G) returns (w: Walk<G>)
    requires (lim.cap.None? || lim.cap.value > 5) && |es| >= 8 && d0 != d1
    requires IsDayHeader(lim, es[5], d1) && IsGameBox(lim, parse, es[6], g3) && IsGameBox(lim, parse, es[7], g4)
    requires w5 == Walk(true, d0, [Bucket(d0, [g1, g2])], false)
    requires Run(lim, parse, es[..5]) == w5
    ensures w == Walk(true, d1, [Bucket(d0, [g1, g2]), Bucket(d1, [g3, g4])], false)
    ensures Run(lim, parse, es[..8]) == w
  {
    var first := [Bucket(d0, [g1, g2])];
    TotalGamesSnoc([], Bucket(d0, [g1, g2]));
    AdvanceHeader(lim, parse, es, 5, w5, d1);
    var w6 := w5.(currentDay := d1);
    assert Days(first) == [d0];
    AdvanceNewDay(lim, parse, es, 6, w6, g3);
    var w7 := w6.(buckets := first + [Bucket(d1, [g3])]);
    TotalGamesSnoc(first, Bucket(d1, [g3]));
    AdvanceSameDay(lim, parse, es, 7, w7, g4, first, [g3]);
    TwoGames(g3, g4);
    w := w6.(buckets := first + [Bucket(d1, [g3, g4])]);
  }

  lemma ThirdDayOfPage<G>(lim: Limits, parse: string -> Option<G>, es: seq<Element>, w8: Walk<G>,
                              d0: string, d1: string, d2: string, g1: G, g2: G, g3: G, g4: G, g5: G)
    returns (w: Walk<G>)
    requires (lim.cap.None? || lim.cap.value > 5) && |es| >= 10 && d0 != d2 && d1 != d2 && d0 != d1
    requires IsDayHeader(lim, es[8], d2) && IsGameBox(lim, parse, es[9], g5)
    requires w8 == Walk(true, d1, [Bucket(d0, [g1, g2]), Bucket(d1, [g3, g4])], false)
    requires Run(lim, parse, es[..8]) == w8
    ensures w == Walk(true, d2, [Bucket(d0, [g1, g2]), Bucket(d1, [g3, g4]), Bucket(d2, [g5])], false)
    ensures Run(lim, parse, es[..10]) == w
  {
    TotalGamesSnoc([], Bucket(d0, [g1, g2]));
    TotalGamesSnoc([Bucket(d0, [g1, g2])], Bucket(d1, [g3, g4]));
    assert [Bucket(d0, [g1, g2])] + [Bucket(d1, [g3, g4])] == w8.buckets;
    AdvanceHeader(lim, parse, es, 8, w8, d2);
    var w9 := w8.(currentDay := d2);
    assert Days(w9.buckets) == [d0, d1];
    AdvanceNewDay(lim, parse, es, 9, w9, g5);
    w := w9.(buckets := w9.buckets + [Bucket(d2, [g5])]);
  }
}
