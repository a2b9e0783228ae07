/**
 * Field-size handling of sportslib/base.py: `_split_text_to_chunks`, which
 * groups lines greedily so that each chunk stays within a length budget, and
 * the cut of an over-long field value to 1024 characters.
 */
module Chunks {
  import opened Text

  /** The largest field value a message embed accepts. */
  const FieldLimit: nat := 1024

  /** `value[:1021] + "..."` when `value` is longer than 1024 characters. */
  function Truncate(value: string): (r: string)
    ensures |r| <= FieldLimit
    ensures |value| <= FieldLimit ==> r == value
    ensures |value| > FieldLimit ==> |r| == FieldLimit && r[..1021] == value[..1021] && r[1021..] == "..."
  {
    if |value| > FieldLimit then value[..1021] + "..." else value
  }

  /** Cutting twice is cutting once. */
  lemma TruncateIdempotent(value: string)
    ensures Truncate(Truncate(value)) == Truncate(value)
  {
  }

  // ---------------------------------------------------------------------------
  // greedy chunking

  /** The budget a line takes: its length plus its newline. */
  function Cost(lines: seq<string>): int
  {
    if lines == [] then 0 else Cost(lines[..|lines| - 1]) + |lines[|lines| - 1]| + 1
  }

  /** `chunks` (as line groups), `current_chunk` and `current_length`. */
  datatype Chunking = Chunking(done: seq<seq<string>>, current: seq<string>, length: int)

  /** The loop state after the lines `lines` have been visited. */
  function Greedy(lines: seq<string>, maxLength: int): Chunking
    decreases |lines|
  {
    if lines == [] then Chunking([], [], 0)
    else
      var st := Greedy(lines[..|lines| - 1], maxLength);
      var line := lines[|lines| - 1];
      var lineLength := |line| + 1;
      if st.length + lineLength > maxLength then Chunking(st.done + [st.current], [line], lineLength)
      else Chunking(st.done, st.current + [line], st.length + lineLength)
  }

  lemma GreedyStep(lines: seq<string>, maxLength: int, i: nat)
    requires i < |lines|
    ensures var st := Greedy(lines[..i], maxLength);
      var lineLength := |lines[i]| + 1;
      Greedy(lines[..i + 1], maxLength) ==
        if st.length + lineLength > maxLength then Chunking(st.done + [st.current], [lines[i]], lineLength)
        else Chunking(st.done, st.current + [lines[i]], st.length + lineLength)
  {
    assert lines[..i + 1][..i] == lines[..i];
  }

  /** The line groups `_split_text_to_chunks` emits: the finished groups and
      the last one when it is not empty. */
  function Groups(lines: seq<string>, maxLength: int): seq<seq<string>>
  {
    var st := Greedy(lines, maxLength);
    if st.current != [] then st.done + [st.current] else st.done
  }

  function JoinLines(groups: seq<seq<string>>): (r: seq<string>)
    ensures |r| == |groups|
    ensures forall k :: 0 <= k < |groups| ==> r[k] == Join(groups[k], "\n")
  {
    seq(|groups|, k requires 0 <= k < |groups| => Join(groups[k], "\n"))
  }

  /** The chunks of `text`, each the newline-join of one group. */
  function ChunksOf(text: string, maxLength: int): seq<string>
  {
    JoinLines(Groups(Split(text, '\n'), maxLength))
  }

  /** `_split_text_to_chunks`. */
  method SplitTextToChunks(text: string, maxLength: int) returns (chunks: seq<string>)
    ensures chunks == ChunksOf(text, maxLength)
  {
    var lines := Split(text, '\n');
    chunks := [];
    var currentChunk: seq<string> := [];
    var currentLength := 0;
    var i := 0;
    while i < |lines|
      invariant 0 <= i <= |lines|
      invariant Greedy(lines[..i], maxLength) == Chunking(Greedy(lines[..i], maxLength).done, currentChunk, currentLength)
      invariant chunks == JoinLines(Greedy(lines[..i], maxLength).done)
    {
      GreedyStep(lines, maxLength, i);
      var lineLength := |lines[i]| + 1;
      if currentLength + lineLength > maxLength {
        chunks := chunks + [Join(currentChunk, "\n")];
        currentChunk := [lines[i]];
        currentLength := lineLength;
      } else {
        currentChunk := currentChunk + [lines[i]];
        currentLength := currentLength + lineLength;
      }
      i := i + 1;
    }
    assert lines[..i] == lines;
    if currentChunk != [] {
      chunks := chunks + [Join(currentChunk, "\n")];
    }
  }

  // ---------------------------------------------------------------------------
  // what the greedy grouping guarantees

  function Flatten(groups: seq<seq<string>>): seq<string>
  {
    if groups == [] then [] else Flatten(groups[..|groups| - 1]) + groups[|groups| - 1]
  }

  /** All groups of a loop state: the finished ones and the open one. */
  function AllGroups(st: Chunking): seq<seq<string>>
  {
    st.done + [st.current]
  }

  /** The invariant of the greedy loop, over all groups including the open
      one: they hold exactly the lines seen, in order; `length` is the budget
      of the open group; every group but the first is non-empty; the first
      group is empty exactly when the first line alone is over budget; a
      group of two or more lines keeps to the budget; and a group is never
      closed early. */
  predicate GreedyInvariant(lines: seq<string>, maxLength: int, st: Chunking)
  {
    var gs := AllGroups(st);
    && Flatten(gs) == lines
    && st.length == Cost(st.current)
    && NonEmptyAfterFirst(gs)
    && (lines != [] ==> (gs[0] == [] <==> |lines[0]| + 1 > maxLength))
    && WithinBudget(gs, maxLength)
    && Maximal(gs, maxLength)
  }

  predicate NonEmptyAfterFirst(gs: seq<seq<string>>)
  {
    forall k :: 1 <= k < |gs| ==> gs[k] != []
  }

  /** A group of two or more lines keeps to the budget. */
  predicate WithinBudget(gs: seq<seq<string>>, maxLength: int)
  {
    forall k :: 0 <= k < |gs| && |gs[k]| >= 2 ==> Cost(gs[k]) <= maxLength
  }

  /** The first line of each group did not fit into the group before it. */
  predicate Maximal(gs: seq<seq<string>>, maxLength: int)
  {
    forall k :: 0 <= k < |gs| - 1 && gs[k + 1] != [] ==> Cost(gs[k]) + |gs[k + 1][0]| + 1 > maxLength
  }

  lemma SnocKeepsShape(gs: seq<seq<string>>, g: seq<string>, maxLength: int)
    requires |gs| > 0 && g != []
    requires NonEmptyAfterFirst(gs) && WithinBudget(gs, maxLength) && Maximal(gs, maxLength)
    requires |g| >= 2 ==> Cost(g) <= maxLength
    requires Cost(gs[|gs| - 1]) + |g[0]| + 1 > maxLength
    ensures NonEmptyAfterFirst(gs + [g]) && WithinBudget(gs + [g], maxLength) && Maximal(gs + [g], maxLength)
  {
    var gs' := gs + [g];
    assert forall k :: 0 <= k < |gs| ==> gs'[k] == gs[k];
  }

  lemma ReplaceLastKeepsShape(gs: seq<seq<string>>, g: seq<string>, maxLength: int)
    requires |gs| > 0 && (|gs| > 1 ==> g != [])
    requires gs[|gs| - 1] != [] ==> g != [] && g[0] == gs[|gs| - 1][0]
    requires NonEmptyAfterFirst(gs) && WithinBudget(gs, maxLength) && Maximal(gs, maxLength)
    requires |g| >= 2 ==> Cost(g) <= maxLength
    ensures NonEmptyAfterFirst(gs[..|gs| - 1] + [g]) && WithinBudget(gs[..|gs| - 1] + [g], maxLength)
      && Maximal(gs[..|gs| - 1] + [g], maxLength)
  {
    var n := |gs| - 1;
    var gs' := gs[..n] + [g];
    assert forall k :: 0 <= k < n ==> gs'[k] == gs[k];
    assert gs'[n] == g;
  }

  lemma CostOfSingle(line: string)
    ensures Cost([line]) == |line| + 1
  {
    assert [line][..0] == [];
  }

  lemma FlattenSnoc(groups: seq<seq<string>>, g: seq<string>)
    ensures Flatten(groups + [g]) == Flatten(groups) + g
  {
    assert (groups + [g])[..|groups|] == groups;
  }

  lemma {:induction false} GreedyKeepsInvariant(lines: seq<string>, maxLength: int)
    ensures GreedyInvariant(lines, maxLength, Greedy(lines, maxLength))
    decreases |lines|
  {
    if lines == [] {
      GreedyInvariantAtStart(maxLength);
    } else {
      GreedyKeepsInvariant(lines[..|lines| - 1], maxLength);
      GreedyStepKeepsInvariant(lines, maxLength);
    }
  }

  lemma GreedyInvariantAtStart(maxLength: int)
    ensures GreedyInvariant([], maxLength, Chunking([], [], 0))
  {
    assert Flatten([[]]) == Flatten([]) + [] by { FlattenSnoc([], []); }
  }

  lemma GreedyStepKeepsInvariant(lines: seq<string>, maxLength: int)
    requires lines != []
    requires GreedyInvariant(lines[..|lines| - 1], maxLength, Greedy(lines[..|lines| - 1], maxLength))
    ensures GreedyInvariant(lines, maxLength, Greedy(lines, maxLength))
  {
    var init := lines[..|lines| - 1];
    var line := lines[|lines| - 1];
    var st := Greedy(init, maxLength);
    if st.length + |line| + 1 > maxLength {
      assert Greedy(lines, maxLength) == Chunking(st.done + [st.current], [line], |line| + 1);
      CloseKeepsInvariant(lines, maxLength, st);
    } else {
      assert Greedy(lines, maxLength) == Chunking(st.done, st.current + [line], st.length + |line| + 1);
      ExtendKeepsInvariant(lines, maxLength, st);
    }
  }

  /** The step that closes the open group and opens one with the new line. */
  lemma CloseKeepsInvariant(lines: seq<string>, maxLength: int, st: Chunking)
    requires lines != [] && GreedyInvariant(lines[..|lines| - 1], maxLength, st)
    requires st.length + |lines[|lines| - 1]| + 1 > maxLength
    ensures var line := lines[|lines| - 1];
      GreedyInvariant(lines, maxLength, Chunking(st.done + [st.current], [line], |line| + 1))
  {
    var init := lines[..|lines| - 1];
    var line := lines[|lines| - 1];
    assert lines == init + [line];
    var gs := AllGroups(st);
    var st' := Chunking(st.done + [st.current], [line], |line| + 1);
    var gs' := AllGroups(st');
    assert gs' == gs + [[line]];
    CostOfSingle(line);
    FlattenSnoc(gs, [line]);
    SnocKeepsShape(gs, [line], maxLength);
    if init == [] {
      assert gs[0] == [] by { FlattenEmpty(gs); }
    } else {
      assert init[0] == lines[0];
    }
  }

  lemma {:induction false} FlattenEmpty(gs: seq<seq<string>>)
    requires Flatten(gs) == []
    ensures forall k :: 0 <= k < |gs| ==> gs[k] == []
    decreases |gs|
  {
    if gs != [] {
      FlattenEmpty(gs[..|gs| - 1]);
      forall k | 0 <= k < |gs| ensures gs[k] == [] {
        if k < |gs| - 1 {
          assert gs[..|gs| - 1][k] == gs[k];
        }
      }
    }
  }

  /** The step that appends the new line to the open group. */
  lemma ExtendKeepsInvariant(lines: seq<string>, maxLength: int, st: Chunking)
    requires lines != [] && GreedyInvariant(lines[..|lines| - 1], maxLength, st)
    requires st.length + |lines[|lines| - 1]| + 1 <= maxLength
    ensures var line := lines[|lines| - 1];
      GreedyInvariant(lines, maxLength, Chunking(st.done, st.current + [line], st.length + |line| + 1))
  {
    var init := lines[..|lines| - 1];
    var line := lines[|lines| - 1];
    assert lines == init + [line];
    var gs := AllGroups(st);
    var cur := st.current + [line];
    var st' := Chunking(st.done, cur, st.length + |line| + 1);
    var gs' := AllGroups(st');
    assert cur[..|st.current|] == st.current;
    assert Cost(cur) == Cost(st.current) + |line| + 1;
    FlattenSnoc(st.done, st.current);
    FlattenSnoc(st.done, cur);
    assert gs[..|gs| - 1] == st.done;
    assert gs' == gs[..|gs| - 1] + [cur];
    ReplaceLastKeepsShape(gs, cur, maxLength);
    assert Flatten(gs') == lines;
    ExtendFirstGroup(lines, maxLength, st);
  }

  lemma ExtendFirstGroup(lines: seq<string>, maxLength: int, st: Chunking)
    requires lines != []
    requires var init := lines[..|lines| - 1]; var gs := AllGroups(st);
      && Flatten(gs) == init && st.length == Cost(st.current) && NonEmptyAfterFirst(gs)
      && (init != [] ==> (gs[0] == [] <==> |init[0]| + 1 > maxLength))
    requires st.length + |lines[|lines| - 1]| + 1 <= maxLength
    ensures var cur := st.current + [lines[|lines| - 1]];
      AllGroups(Chunking(st.done, cur, 0))[0] == [] <==> |lines[0]| + 1 > maxLength
  {
    var init := lines[..|lines| - 1];
    var line := lines[|lines| - 1];
    var gs := AllGroups(st);
    var cur := st.current + [line];
    var gs' := AllGroups(Chunking(st.done, cur, 0));
    FlattenSnoc(st.done, st.current);
    if init == [] {
      FlattenEmpty(gs);
      assert |gs| == 1;
      assert cur == [line];
    } else {
      assert init[0] == lines[0];
      if st.done == [] {
        assert Flatten(st.done) == [];
        assert st.current == init;
      }
    }
  }

  /** The emitted groups are all groups of the final state, or none for no lines. */
  lemma GroupsOfGreedy(lines: seq<string>, maxLength: int)
    ensures GreedyInvariant(lines, maxLength, Greedy(lines, maxLength))
    ensures Groups(lines, maxLength) == if lines == [] then [] else AllGroups(Greedy(lines, maxLength))
  {
    GreedyKeepsInvariant(lines, maxLength);
    var st := Greedy(lines, maxLength);
    if st.done == [] {
      FlattenSnoc([], st.current);
    }
  }

  /** The chunks' line groups, read in order, give back every line of
      `text.split('\n')`: no line is broken, dropped or reordered. */
  lemma GroupsFlatten(lines: seq<string>, maxLength: int)
    ensures Flatten(Groups(lines, maxLength)) == lines
  {
    GroupsOfGreedy(lines, maxLength);
  }

  /** Every group of two or more lines keeps to the budget; only a single
      over-long line can exceed it. */
  lemma GroupsWithinBudget(lines: seq<string>, maxLength: int)
    ensures forall k :: 0 <= k < |Groups(lines, maxLength)| && |Groups(lines, maxLength)[k]| >= 2 ==>
      Cost(Groups(lines, maxLength)[k]) <= maxLength
  {
    GroupsOfGreedy(lines, maxLength);
  }

  /** An empty chunk is emitted exactly when the first line alone is over
      budget, and then only as the first chunk. */
  lemma EmptyChunkOnlyFirst(lines: seq<string>, maxLength: int)
    ensures forall k :: 1 <= k < |Groups(lines, maxLength)| ==> Groups(lines, maxLength)[k] != []
    ensures lines != [] ==>
      (|Groups(lines, maxLength)| > 0 && (Groups(lines, maxLength)[0] == [] <==> |lines[0]| + 1 > maxLength))
  {
    GroupsOfGreedy(lines, maxLength);
  }

  /** No chunk could have taken the first line of the next one: the greedy
      grouping never closes a chunk early. */
  lemma GroupsMaximal(lines: seq<string>, maxLength: int)
    ensures forall k :: 0 <= k < |Groups(lines, maxLength)| - 1 && Groups(lines, maxLength)[k + 1] != [] ==>
      Cost(Groups(lines, maxLength)[k]) + |Groups(lines, maxLength)[k + 1][0]| + 1 > maxLength
  {
    GroupsOfGreedy(lines, maxLength);
  }
}
