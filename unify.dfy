/** The season-name unification of `to_strm`: one cleaned name per zero-padded season number,
    taken from the first episode that carries that number, so that every episode of a display
    season lands in the same season folder whatever its listing called the season. */
module Unify {
  import opened PyStr
  import opened EpisodePass
  import opened CleanName

  /** `str(ep['season_number']).zfill(2)`. */
  function SeasonKey(e: Episode): string {
    ZFill(e.seasonNumber, 2)
  }

  /** `unified_season_names` once the loop has seen `eps`: a number seen before keeps its name. */
  function UnifiedNames(eps: seq<Episode>): map<string, string> {
    if eps == [] then map[] else NameSeason(UnifiedNames(eps[..|eps| - 1]), eps[|eps| - 1])
  }

  /** One pass of the loop body: a number not seen yet is given the episode's cleaned name. */
  function NameSeason(names: map<string, string>, e: Episode): map<string, string> {
    if SeasonKey(e) in names then names else names[SeasonKey(e) := Clean(e.seasonName)]
  }

  /** The names after one more episode of a list, read off a prefix of it. */
  lemma UnifiedNamesPrefix(eps: seq<Episode>, i: nat)
    requires i < |eps|
    ensures var names := UnifiedNames(eps[..i]); var k := SeasonKey(eps[i]);
      UnifiedNames(eps[..i + 1]) == if k in names then names else names[k := Clean(eps[i].seasonName)]
  {
    assert eps[..i + 1][..i] == eps[..i];
  }

  /** The loop: each episode's number is looked up and, when new, given its cleaned name. */
  method UnifySeasonNames(eps: seq<Episode>) returns (names: map<string, string>)
    ensures names == UnifiedNames(eps)
  {
    names := map[];
    for i := 0 to |eps|
      invariant names == UnifiedNames(eps[..i])
    {
      UnifiedNamesPrefix(eps, i);
      var key := SeasonKey(eps[i]);
      if key !in names {
        names := names[key := Clean(eps[i].seasonName)];
      }
    }
    assert eps[..|eps|] == eps;
  }

  /** Exactly the season numbers of the episodes get a name. */
  lemma {:induction false} UnifiedNamesKeys(eps: seq<Episode>, k: string)
    ensures k in UnifiedNames(eps) <==> exists e :: e in eps && SeasonKey(e) == k
  {
    if eps != [] {
      var init := eps[..|eps| - 1];
      assert eps == init + [eps[|eps| - 1]];
      UnifiedNamesKeys(init, k);
    }
  }

  /** The name of a season number is the cleaned name of the first episode carrying it. */
  lemma {:induction false} UnifiedNamesFirst(eps: seq<Episode>, i: nat)
    requires i < |eps|
    requires forall j :: 0 <= j < i ==> SeasonKey(eps[j]) != SeasonKey(eps[i])
    ensures SeasonKey(eps[i]) in UnifiedNames(eps)
    ensures UnifiedNames(eps)[SeasonKey(eps[i])] == Clean(eps[i].seasonName)
  {
    var init := eps[..|eps| - 1];
    if i == |eps| - 1 {
      assert init == eps[..i];
      NotSeenBefore(eps, i);
      NewLastNamed(eps);
    } else {
      assert init[i] == eps[i];
      forall j | 0 <= j < i ensures SeasonKey(init[j]) != SeasonKey(init[i]) {
        assert init[j] == eps[j];
      }
      UnifiedNamesFirst(init, i);
      EarlierNameKept(eps, SeasonKey(eps[i]));
    }
  }

  /** The last episode names its number when no earlier episode did. */
  lemma NewLastNamed(eps: seq<Episode>)
    requires eps != []
    requires SeasonKey(eps[|eps| - 1]) !in UnifiedNames(eps[..|eps| - 1])
    ensures SeasonKey(eps[|eps| - 1]) in UnifiedNames(eps)
    ensures UnifiedNames(eps)[SeasonKey(eps[|eps| - 1])] == Clean(eps[|eps| - 1].seasonName)
  {
  }

  /** A name given before the last episode survives it. */
  lemma EarlierNameKept(eps: seq<Episode>, k: string)
    requires eps != [] && k in UnifiedNames(eps[..|eps| - 1])
    ensures k in UnifiedNames(eps)
    ensures UnifiedNames(eps)[k] == UnifiedNames(eps[..|eps| - 1])[k]
  {
    NameKept(UnifiedNames(eps[..|eps| - 1]), eps[|eps| - 1], k);
  }

  /** A name already given is not changed by a later episode. */
  lemma NameKept(names: map<string, string>, e: Episode, k: string)
    requires k in names
    ensures k in NameSeason(names, e) && NameSeason(names, e)[k] == names[k]
  {
    if SeasonKey(e) !in names {
      assert SeasonKey(e) != k;
    }
  }

  /** A number no earlier episode carries has no name yet when its episode is reached. */
  lemma NotSeenBefore(eps: seq<Episode>, i: nat)
    requires i < |eps|
    requires forall j :: 0 <= j < i ==> SeasonKey(eps[j]) != SeasonKey(eps[i])
    ensures SeasonKey(eps[i]) !in UnifiedNames(eps[..i])
  {
    var init := eps[..i];
    var k := SeasonKey(eps[i]);
    forall e | e in init ensures SeasonKey(e) != k {
      var j :| 0 <= j < |init| && init[j] == e;
      assert eps[j] == e;
    }
    UnifiedNamesKeys(init, k);
  }


  /** Every unified name is clean: no `(...)` group, no edge whitespace, single spaces only. */
  lemma {:induction false} UnifiedNamesClean(eps: seq<Episode>, k: string)
    requires k in UnifiedNames(eps)
    ensures var n := UnifiedNames(eps)[k]; NoGroup(n) && NoEdgeSpace(n) && SingleSpaced(n)
  {
    var init := eps[..|eps| - 1];
    var e := eps[|eps| - 1];
    if k in UnifiedNames(init) {
      UnifiedNamesClean(init, k);
    } else {
      CleanShape(e.seasonName);
    }
  }

  /** `unified_season_names.get(season_number, ep.get('season_name', episode_title))`; the
      records always carry `season_name`, so the inner default never applies. */
  function SeasonNameFor(names: map<string, string>, e: Episode): string {
    if SeasonKey(e) in names then names[SeasonKey(e)] else e.seasonName
  }

  /** Episodes of one season number get one season name, the unified one: the fallback of the
      lookup is never taken for an episode of the list the names were built from. */
  lemma SharedSeasonName(eps: seq<Episode>, i: nat, j: nat)
    requires i < |eps| && j < |eps| && SeasonKey(eps[i]) == SeasonKey(eps[j])
    ensures SeasonKey(eps[i]) in UnifiedNames(eps)
    ensures SeasonNameFor(UnifiedNames(eps), eps[i]) == UnifiedNames(eps)[SeasonKey(eps[i])]
    ensures SeasonNameFor(UnifiedNames(eps), eps[i]) == SeasonNameFor(UnifiedNames(eps), eps[j])
  {
    UnifiedNamesKeys(eps, SeasonKey(eps[i]));
  }
}
