/**
 * The team-list cache of `fetch_team_list` (sportslib/base.py): a stored
 * dictionary from "<slug>_<year>" to a team list and the time it was stored.
 * An entry younger than 90 days is answered without fetching; otherwise the
 * team page is fetched, and a non-empty list is stored with the current time.
 * The clock and the fetch are parameters: `now` in seconds, and the list
 * the team page gave (nothing on an HTTP error or an exception).
 */
module TeamCache {
  import opened Text
  import opened TeamResolver

  /** One stored team list; `cachedAt` is absent when the record has no time. */
  datatype CacheEntry = CacheEntry(teams: seq<TeamRef>, cachedAt: Option<int>)

  /** 90 days, in seconds. */
  const MaxAge: int := 90 * 24 * 60 * 60

  /** `f"{slug}_{year}"`. */
  function CacheKey(slug: string, year: int): string
  {
    slug + "_" + IntToString(year)
  }

  /** An entry is fresh while its age is under 90 days; a missing time
      counts as 0. */
  predicate IsFresh(e: CacheEntry, now: int)
  {
    now - (if e.cachedAt.Some? then e.cachedAt.value else 0) < MaxAge
  }

  /** One call of `fetch_team_list` on the stored dictionary `entries`: the
      answer and the dictionary afterwards. */
  function CacheStep(entries: map<string, CacheEntry>, key: string, now: int, fetched: Option<seq<TeamRef>>)
    : (Option<seq<TeamRef>>, map<string, CacheEntry>)
  {
    if key in entries && IsFresh(entries[key], now) then (Some(entries[key].teams), entries)
    else if fetched.Some? && fetched.value != [] then (fetched, entries[key := CacheEntry(fetched.value, Some(now))])
    else (None, entries)
  }

  /** A fresh entry is answered as stored, whatever a fetch would give, and
      the dictionary is left as it is. */
  lemma FreshEntryAnswered(entries: map<string, CacheEntry>, key: string, now: int, fetched: Option<seq<TeamRef>>)
    requires key in entries && IsFresh(entries[key], now)
    ensures CacheStep(entries, key, now, fetched) == (Some(entries[key].teams), entries)
  {
  }

  /** Only the requested key can change, and it changes only to a non-empty
      list stamped with the current time. */
  lemma OnlyKeyChanges(entries: map<string, CacheEntry>, key: string, now: int, fetched: Option<seq<TeamRef>>)
    ensures var after := CacheStep(entries, key, now, fetched).1;
      && (forall k :: k != key ==> (k in after <==> k in entries))
      && (forall k :: k != key && k in entries ==> after[k] == entries[k])
      && (after != entries ==> key in after && after[key].teams != [] && after[key].cachedAt == Some(now))
  {
  }

  /** An empty or failed fetch answers nothing and stores nothing. */
  lemma EmptyFetchStoresNothing(entries: map<string, CacheEntry>, key: string, now: int, fetched: Option<seq<TeamRef>>)
    requires !(key in entries && IsFresh(entries[key], now))
    requires fetched.None? || fetched.value == []
    ensures CacheStep(entries, key, now, fetched) == (None, entries)
  {
  }

  /** A list stored at time `t` is answered, with no fetch, by every call
      made less than 90 days later. */
  lemma StoredListAnsweredLater(entries: map<string, CacheEntry>, key: string, t: int,
                                teams: seq<TeamRef>, later: int, fetched: Option<seq<TeamRef>>)
    requires !(key in entries && IsFresh(entries[key], t))
    requires teams != [] && t <= later < t + MaxAge
    ensures var stored := CacheStep(entries, key, t, Some(teams)).1;
      CacheStep(stored, key, later, fetched) == (Some(teams), stored)
  {
  }

  /** Keys of different sports or years are different, so one sport's or
      year's entry never answers for another (slugs have no '_'). */
  lemma CacheKeyInjective(slug1: string, year1: int, slug2: string, year2: int)
    requires '_' !in slug1 && '_' !in slug2
    requires CacheKey(slug1, year1) == CacheKey(slug2, year2)
    ensures slug1 == slug2 && year1 == year2
  {
    var k1 := CacheKey(slug1, year1);
    var k2 := CacheKey(slug2, year2);
    assert forall i :: 0 <= i < |slug1| ==> k1[i] != '_';
    assert forall i :: 0 <= i < |slug2| ==> k2[i] != '_';
    assert k1[|slug1|] == '_' && k2[|slug2|] == '_';
    assert |slug1| == |slug2|;
    assert slug1 == k1[..|slug1|] == slug2;
    assert IntToString(year1) == k1[|slug1| + 1..] == IntToString(year2);
    IntToStringInjective(year1, year2);
  }

  /** The stored dictionary of team lists. */
  class TeamListCache {
    var entries: map<string, CacheEntry>

    constructor ()
      ensures entries == map[]
    {
      entries := map[];
    }

    /** `fetch_team_list` for the sport `slug` and season `year`. */
    method FetchTeamList(slug: string, year: int, now: int, fetched: Option<seq<TeamRef>>)
      returns (r: Option<seq<TeamRef>>)
      modifies this
      ensures (r, entries) == CacheStep(old(entries), CacheKey(slug, year), now, fetched)
    {
      var cacheKey := CacheKey(slug, year);
      if cacheKey in entries {
        var cachedAt := if entries[cacheKey].cachedAt.Some? then entries[cacheKey].cachedAt.value else 0;
        if now - cachedAt < MaxAge {
          return Some(entries[cacheKey].teams);
        }
      }
      if fetched.None? {
        return None;
      }
      var teams := fetched.value;
      if teams != [] {
        entries := entries[cacheKey := CacheEntry(teams, Some(now))];
        r := Some(teams);
      } else {
        r := None;
      }
    }
  }
}
