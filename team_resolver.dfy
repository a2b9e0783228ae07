/**
 * `find_team_slug` of sportslib/base.py: a lookup table from lower-cased
 * keys to teams, filled team by team (a later team overwrites an earlier
 * one's key), an exact lookup of the lower-cased input, and a fuzzy match
 * as fallback. The fuzzy matcher (difflib's `get_close_matches`, cut-off
 * 0.6, one result) is a parameter that answers one of the table's keys or
 * nothing.
 */
module TeamResolver {
  import opened Text

  /** One entry of the team list: display name and URL slug. */
  datatype TeamRef = TeamRef(name: string, slug: string)

  /** A fuzzy matcher that only ever answers one of the keys it is offered. */
  ghost predicate OracleSound(closeMatch: (string, set<string>) -> Option<string>)
  {
    forall query, keys :: closeMatch(query, keys).Some? ==> closeMatch(query, keys).value in keys
  }

  function LowerAll(ws: seq<string>): (r: seq<string>)
    ensures |r| == |ws| && forall i :: 0 <= i < |ws| ==> r[i] == Lower(ws[i])
  {
    seq(|ws|, i requires 0 <= i < |ws| => Lower(ws[i]))
  }

  /** The keys one team is written under, in the order they are written:
      lower-cased name, slug and space-free name, then each word of the name. */
  function TeamKeys(t: TeamRef): seq<string>
  {
    [Lower(t.name), Lower(t.slug), Lower(RemoveChar(t.name, ' '))] + LowerAll(Words(t.name))
  }

  /** Writing `t` under each of `keys`, one after the other. */
  function PutAll(m: map<string, TeamRef>, keys: seq<string>, t: TeamRef): map<string, TeamRef>
  {
    if keys == [] then m
    else PutAll(m, keys[..|keys| - 1], t)[keys[|keys| - 1] := t]
  }

  /** After the writes, the keys are the old ones and the written ones, and
      every written key leads to `t`. */
  lemma {:induction false} PutAllContents(m: map<string, TeamRef>, keys: seq<string>, t: TeamRef)
    ensures var r := PutAll(m, keys, t);
      && (forall k :: k in r <==> k in m || k in keys)
      && (forall k :: k in r ==> r[k] == if k in keys then t else m[k])
    decreases |keys|
  {
    if keys != [] {
      var init := keys[..|keys| - 1];
      PutAllContents(m, init, t);
      assert keys == init + [keys[|keys| - 1]];
    }
  }

  /** `searchable` once the teams `teams` have been written. */
  function SearchTable(teams: seq<TeamRef>): map<string, TeamRef>
  {
    if teams == [] then map[]
    else PutAll(SearchTable(teams[..|teams| - 1]), TeamKeys(teams[|teams| - 1]), teams[|teams| - 1])
  }

  /** An independent reading of the table: the last team that has `key`
      among its keys. */
  function LastOwner(teams: seq<TeamRef>, key: string): Option<TeamRef>
  {
    if teams == [] then None
    else if key in TeamKeys(teams[|teams| - 1]) then Some(teams[|teams| - 1])
    else LastOwner(teams[..|teams| - 1], key)
  }

  /** The table holds exactly the keys some team has, and each key leads to
      the last team that has it. */
  lemma {:induction false} SearchTableIsLastOwner(teams: seq<TeamRef>)
    ensures forall key :: key in SearchTable(teams) <==> LastOwner(teams, key).Some?
    ensures forall key :: key in SearchTable(teams) ==> SearchTable(teams)[key] == LastOwner(teams, key).value
    decreases |teams|
  {
    if teams != [] {
      var n := |teams| - 1;
      SearchTableIsLastOwner(teams[..n]);
      PutAllContents(SearchTable(teams[..n]), TeamKeys(teams[n]), teams[n]);
    }
  }

  /** Every entry of the table is a team of the list. */
  lemma {:induction false} SearchTableValues(teams: seq<TeamRef>)
    ensures forall key :: key in SearchTable(teams) ==> SearchTable(teams)[key] in teams
    decreases |teams|
  {
    if teams != [] {
      var init := teams[..|teams| - 1];
      SearchTableValues(init);
      PutAllContents(SearchTable(init), TeamKeys(teams[|teams| - 1]), teams[|teams| - 1]);
      assert forall t :: t in init ==> t in teams;
    }
  }

  /** Every key of every team is in the table. */
  lemma {:induction false} KeysInTable(teams: seq<TeamRef>, i: nat)
    requires i < |teams|
    ensures forall key :: key in TeamKeys(teams[i]) ==> key in SearchTable(teams)
    decreases |teams|
  {
    var n := |teams| - 1;
    var before := SearchTable(teams[..n]);
    var keys := TeamKeys(teams[n]);
    PutAllContents(before, keys, teams[n]);
    assert SearchTable(teams) == PutAll(before, keys, teams[n]);
    if i < n {
      KeysInTable(teams[..n], i);
      assert teams[..n][i] == teams[i];
    }
    forall key | key in TeamKeys(teams[i]) ensures key in SearchTable(teams) {
      if i < n {
        assert key in before;
      } else {
        assert key in keys;
      }
    }
  }

  lemma PutAllStep(m: map<string, TeamRef>, keys: seq<string>, t: TeamRef, j: nat)
    requires j < |keys|
    ensures PutAll(m, keys[..j + 1], t) == PutAll(m, keys[..j], t)[keys[j] := t]
  {
    assert keys[..j + 1][..j] == keys[..j];
  }

  lemma SearchTableStep(teams: seq<TeamRef>, i: nat)
    requires i < |teams|
    ensures SearchTable(teams[..i + 1]) == PutAll(SearchTable(teams[..i]), TeamKeys(teams[i]), teams[i])
  {
    assert teams[..i + 1][..i] == teams[..i];
  }

  /** The writes of one team into `searchable`: its name, slug and
      space-free name, then each word of its name. */
  method WriteTeam(searchable: map<string, TeamRef>, team: TeamRef) returns (after: map<string, TeamRef>)
    ensures after == PutAll(searchable, TeamKeys(team), team)
  {
    var keys := TeamKeys(team);
    after := searchable[Lower(team.name) := team];
    after := after[Lower(team.slug) := team];
    after := after[Lower(RemoveChar(team.name, ' ')) := team];
    assert after == PutAll(searchable, keys[..3], team) by {
      PutAllStep(searchable, keys, team, 0);
      PutAllStep(searchable, keys, team, 1);
      PutAllStep(searchable, keys, team, 2);
      assert keys[..0] == [];
    }
    var words := Words(team.name);
    var j := 0;
    while j < |words|
      invariant 0 <= j <= |words|
      invariant after == PutAll(searchable, keys[..3 + j], team)
    {
      PutAllStep(searchable, keys, team, 3 + j);
      after := after[Lower(words[j]) := team];
      j := j + 1;
    }
    assert keys[..3 + j] == keys;
  }

  /** The loop of `find_team_slug` that fills `searchable`. */
  method BuildTable(teams: seq<TeamRef>) returns (searchable: map<string, TeamRef>)
    ensures searchable == SearchTable(teams)
  {
    searchable := map[];
    var i := 0;
    while i < |teams|
      invariant 0 <= i <= |teams|
      invariant searchable == SearchTable(teams[..i])
    {
      searchable := WriteTeam(searchable, teams[i]);
      SearchTableStep(teams, i);
      i := i + 1;
    }
    assert teams[..i] == teams;
  }

  /** `find_team_slug`: the team of the exact key when the lower-cased input
      is one, otherwise the team of the key the fuzzy matcher answers, or
      nothing. */
  method FindTeamSlug(teamInput: string, teams: seq<TeamRef>, closeMatch: (string, set<string>) -> Option<string>)
    returns (r: Option<TeamRef>)
    requires OracleSound(closeMatch)
    ensures var table := SearchTable(teams); var key := Lower(teamInput);
      && (key in table ==> r == Some(table[key]))
      && (key !in table ==> r == match closeMatch(key, table.Keys)
                                 case None => None
                                 case Some(k) => Some(table[k]))
    ensures r.Some? ==> r.value in teams
    ensures teams == [] ==> r == None
  {
    SearchTableValues(teams);
    var searchable := BuildTable(teams);
    var key := Lower(teamInput);
    if key in searchable {
      return Some(searchable[key]);
    }
    var matches := closeMatch(key, searchable.Keys);
    if matches.Some? {
      r := Some(searchable[matches.value]);
    } else {
      r := None;
    }
  }
}
