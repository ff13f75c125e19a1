/** What the three counters of the episode pass guarantee about the records it produces:
    contiguous numbering of episodes, of specials and of each display season, and the
    independence of the result from seasons whose listing could not be fetched. */
module Numbering {
  import opened PyStr
  import opened Wrappers
  import opened SeasonPass
  import opened EpisodeLines
  import opened EpisodePass
  import Lists

  /** A special's id is `S` and its listed number; an episode's id is its absolute number. */
  predicate IsSpecial(e: Episode) {
    |e.episodeId| > 0 && e.episodeId[0] == 'S'
  }

  predicate IsNormal(e: Episode) {
    !IsSpecial(e)
  }

  /** The episodes (not specials) of display season `n`. */
  function InSeason(n: string): Episode -> bool {
    e => IsNormal(e) && e.seasonNumber == n
  }

  function Normals(eps: seq<Episode>): seq<Episode> {
    Lists.Filter(IsNormal, eps)
  }

  function Specials(eps: seq<Episode>): seq<Episode> {
    Lists.Filter(IsSpecial, eps)
  }

  function SeasonEpisodes(eps: seq<Episode>, n: string): seq<Episode> {
    Lists.Filter(InSeason(n), eps)
  }

  /** The ids of `xs` are the decimal texts of `start + 1`, `start + 2`, ... */
  predicate IdsFrom(xs: seq<Episode>, start: nat) {
    forall i :: 0 <= i < |xs| ==> xs[i].episodeId == NatToString(start + i + 1)
  }

  /** The in-season numbers of `xs` are `start + 1`, `start + 2`, ... */
  predicate CountedFrom(xs: seq<Episode>, start: nat) {
    forall i :: 0 <= i < |xs| ==> xs[i].seasonEpisodeNumber == start + i + 1
  }

  /** `eps` is what the pass appends while the counters go from `c` to `d`: each counter grows by
      the number of records it numbered, and those records carry the consecutive values. */
  ghost predicate Numbered(c: Counters, d: Counters, eps: seq<Episode>) {
    && d.absolute == c.absolute + |Normals(eps)| && IdsFrom(Normals(eps), c.absolute)
    && d.specials == c.specials + |Specials(eps)| && CountedFrom(Specials(eps), c.specials)
    && forall n :: Count(d.perSeason, n) == Count(c.perSeason, n) + |SeasonEpisodes(eps, n)|
         && CountedFrom(SeasonEpisodes(eps, n), Count(c.perSeason, n))
  }

  lemma IdsFromAppend(a: seq<Episode>, b: seq<Episode>, start: nat)
    requires IdsFrom(a, start) && IdsFrom(b, start + |a|)
    ensures IdsFrom(a + b, start)
  {
    forall i | 0 <= i < |a + b|
      ensures (a + b)[i].episodeId == NatToString(start + i + 1)
    {
      if i >= |a| {
        assert (a + b)[i] == b[i - |a|];
      }
    }
  }

  lemma CountedFromAppend(a: seq<Episode>, b: seq<Episode>, start: nat)
    requires CountedFrom(a, start) && CountedFrom(b, start + |a|)
    ensures CountedFrom(a + b, start)
  {
    forall i | 0 <= i < |a + b|
      ensures (a + b)[i].seasonEpisodeNumber == start + i + 1
    {
      if i >= |a| {
        assert (a + b)[i] == b[i - |a|];
      }
    }
  }

  /** Two stretches of the pass, one after the other, number their concatenation. */
  lemma NumberedAppend(c: Counters, d: Counters, e: Counters, a: seq<Episode>, b: seq<Episode>)
    requires Numbered(c, d, a) && Numbered(d, e, b)
    ensures Numbered(c, e, a + b)
  {
    Lists.FilterAppend(IsNormal, a, b);
    Lists.FilterAppend(IsSpecial, a, b);
    IdsFromAppend(Normals(a), Normals(b), c.absolute);
    CountedFromAppend(Specials(a), Specials(b), c.specials);
    forall n
      ensures Count(e.perSeason, n) == Count(c.perSeason, n) + |SeasonEpisodes(a + b, n)|
      ensures CountedFrom(SeasonEpisodes(a + b, n), Count(c.perSeason, n))
    {
      Lists.FilterAppend(InSeason(n), a, b);
      CountedFromAppend(SeasonEpisodes(a, n), SeasonEpisodes(b, n), Count(c.perSeason, n));
    }
  }

  /** Nothing appended, no counter moved. */
  lemma NumberedNothing(c: Counters, d: Counters)
    requires c.absolute == d.absolute && c.specials == d.specials
    requires forall n :: Count(c.perSeason, n) == Count(d.perSeason, n)
    ensures Numbered(c, d, [])
  {
  }

  /** An absolute number's text is digits, so it never looks like a special's id. */
  lemma NormalIdNotSpecial(a: nat)
    ensures NatToString(a)[0] != 'S'
  {
    assert IsDigit(NatToString(a)[0]);
  }

  /** One record of the pass is numbered by the counters of its step. */
  lemma StepNumbered(c: Counters, seasonId: string, info: SeasonInfo, l: Listed)
    ensures var (d, e) := EpisodeStep(c, seasonId, info, l);
      Numbered(c, d, [e]) && IsSpecial(e) == l.special
  {
    var (d, e) := EpisodeStep(c, seasonId, info, l);
    StepTotalsCounted(c, seasonId, info, l);
    forall n
      ensures Count(d.perSeason, n) == Count(c.perSeason, n) + |SeasonEpisodes([e], n)|
      ensures CountedFrom(SeasonEpisodes([e], n), Count(c.perSeason, n))
    {
      StepSeasonCounted(c, seasonId, info, l, n);
    }
  }

  /** One record of the pass moves the episode or the specials counter by the record it adds. */
  lemma StepTotalsCounted(c: Counters, seasonId: string, info: SeasonInfo, l: Listed)
    ensures var (d, e) := EpisodeStep(c, seasonId, info, l);
      && d.absolute == c.absolute + |Normals([e])| && IdsFrom(Normals([e]), c.absolute)
      && d.specials == c.specials + |Specials([e])| && CountedFrom(Specials([e]), c.specials)
      && IsSpecial(e) == l.special
  {
    var (d, e) := EpisodeStep(c, seasonId, info, l);
    Lists.FilterSnoc(IsNormal, [], e);
    Lists.FilterSnoc(IsSpecial, [], e);
    assert [] + [e] == [e];
    if !l.special {
      NormalIdNotSpecial(d.absolute);
    }
  }

  /** One record of the pass moves the count of display season `n` by the record it adds there. */
  lemma StepSeasonCounted(c: Counters, seasonId: string, info: SeasonInfo, l: Listed, n: string)
    ensures var (d, e) := EpisodeStep(c, seasonId, info, l);
      && Count(d.perSeason, n) == Count(c.perSeason, n) + |SeasonEpisodes([e], n)|
      && CountedFrom(SeasonEpisodes([e], n), Count(c.perSeason, n))
  {
    var (d, e) := EpisodeStep(c, seasonId, info, l);
    Lists.FilterSnoc(InSeason(n), [], e);
    assert [] + [e] == [e];
    if !l.special {
      NormalIdNotSpecial(d.absolute);
    }
  }

  /** Numbering one season's parsed lines keeps the counter discipline. */
  lemma {:induction false} NumberNumbered(c: Counters, seasonId: string, info: SeasonInfo, ls: seq<Listed>)
    ensures var (d, eps) := Number(c, seasonId, info, ls); Numbered(c, d, eps)
  {
    if ls == [] {
      NumberedNothing(c, c);
    } else {
      var (c1, eps) := Number(c, seasonId, info, ls[..|ls| - 1]);
      NumberNumbered(c, seasonId, info, ls[..|ls| - 1]);
      StepNumbered(c1, seasonId, info, ls[|ls| - 1]);
      var (c2, e) := EpisodeStep(c1, seasonId, info, ls[|ls| - 1]);
      NumberedAppend(c, c1, c2, eps, [e]);
    }
  }

  /** Lines 191-193 only add a 0 entry: every count reads the same before and after. */
  lemma SeasonStartCounts(c: Counters, info: SeasonInfo)
    ensures var d := SeasonStart(c, info);
      d.absolute == c.absolute && d.specials == c.specials
      && forall n :: Count(d.perSeason, n) == Count(c.perSeason, n)
  {
  }

  /** One season keeps the counter discipline, fetched or not. */
  lemma ProcessSeasonNumbered(c: Counters, seasonId: string, info: SeasonInfo, listing: Option<seq<Listed>>)
    ensures var (d, eps) := ProcessSeason(c, seasonId, info, listing); Numbered(c, d, eps)
  {
    var c0 := SeasonStart(c, info);
    SeasonStartCounts(c, info);
    NumberedNothing(c, c0);
    if listing.Some? {
      var ls := listing.value;
      NumberNumbered(c0, seasonId, info, ls);
      var (d, eps) := Number(c0, seasonId, info, ls);
      NumberedAppend(c, c0, d, [], eps);
      assert [] + eps == eps;
    }
  }

  /** All seasons together keep the counter discipline. */
  lemma {:induction false} ProcessSeasonsNumbered(c: Counters, seasons: seq<(string, SeasonInfo)>,
                                                  listings: seq<Option<seq<Listed>>>)
    requires |listings| == |seasons|
    ensures var (d, eps) := ProcessSeasons(c, seasons, listings); Numbered(c, d, eps)
  {
    if seasons == [] {
      NumberedNothing(c, c);
    } else {
      var n := |seasons| - 1;
      ProcessSeasonsNumbered(c, seasons[..n], listings[..n]);
      var (c1, eps) := ProcessSeasons(c, seasons[..n], listings[..n]);
      ProcessSeasonNumbered(c1, seasons[n].0, seasons[n].1, listings[n]);
      var (c2, more) := ProcessSeason(c1, seasons[n].0, seasons[n].1, listings[n]);
      NumberedAppend(c, c1, c2, eps, more);
    }
  }

  /** The episodes are numbered `"1"`, `"2"`, ... in output order, the specials 1, 2, ..., and
      the episodes of each display season 1, 2, ..., across every season id sharing the number. */
  ghost predicate Contiguous(eps: seq<Episode>) {
    && (forall i :: 0 <= i < |Normals(eps)| ==> Normals(eps)[i].episodeId == NatToString(i + 1))
    && (forall i :: 0 <= i < |Specials(eps)| ==> Specials(eps)[i].seasonEpisodeNumber == i + 1)
    && (forall n, i :: 0 <= i < |SeasonEpisodes(eps, n)| ==> SeasonEpisodes(eps, n)[i].seasonEpisodeNumber == i + 1)
  }

  /** Lines 183-295 from zero counters number every record contiguously. */
  lemma ContiguousNumbering(seasons: seq<(string, SeasonInfo)>, listings: seq<Option<seq<Listed>>>)
    requires |listings| == |seasons|
    ensures Contiguous(ProcessSeasons(Start, seasons, listings).1)
  {
    ProcessSeasonsNumbered(Start, seasons, listings);
  }

  /** No two episodes of the pass share an id. */
  lemma DistinctEpisodeIds(seasons: seq<(string, SeasonInfo)>, listings: seq<Option<seq<Listed>>>, i: nat, j: nat)
    requires |listings| == |seasons|
    requires var xs := Normals(ProcessSeasons(Start, seasons, listings).1); i < j < |xs|
    ensures var xs := Normals(ProcessSeasons(Start, seasons, listings).1); xs[i].episodeId != xs[j].episodeId
  {
    ContiguousNumbering(seasons, listings);
    var xs := Normals(ProcessSeasons(Start, seasons, listings).1);
    if xs[i].episodeId == xs[j].episodeId {
      NatToStringInjective(i + 1, j + 1);
    }
  }

  /** The number of episodes equals the final absolute counter, and likewise for specials. */
  lemma CountersCount(seasons: seq<(string, SeasonInfo)>, listings: seq<Option<seq<Listed>>>)
    requires |listings| == |seasons|
    ensures var (d, eps) := ProcessSeasons(Start, seasons, listings);
      d.absolute == |Normals(eps)| && d.specials == |Specials(eps)| && |eps| == d.absolute + d.specials
  {
    ProcessSeasonsNumbered(Start, seasons, listings);
    var eps := ProcessSeasons(Start, seasons, listings).1;
    FilterSplit(eps);
  }

  /** Every record is either an episode or a special. */
  lemma {:induction false} FilterSplit(eps: seq<Episode>)
    ensures |Normals(eps)| + |Specials(eps)| == |eps|
  {
    if eps != [] {
      var n := |eps| - 1;
      FilterSplit(eps[..n]);
      assert eps == eps[..n] + [eps[n]];
      Lists.FilterSnoc(IsNormal, eps[..n], eps[n]);
      Lists.FilterSnoc(IsSpecial, eps[..n], eps[n]);
    }
  }

  /** Two counter states that read the same everywhere: they differ at most in 0 entries. */
  ghost predicate SameCounts(c: Counters, d: Counters) {
    c.absolute == d.absolute && c.specials == d.specials
    && forall n :: Count(c.perSeason, n) == Count(d.perSeason, n)
  }

  lemma StepSameCounts(c: Counters, d: Counters, seasonId: string, info: SeasonInfo, l: Listed)
    requires SameCounts(c, d)
    ensures EpisodeStep(c, seasonId, info, l).1 == EpisodeStep(d, seasonId, info, l).1
    ensures SameCounts(EpisodeStep(c, seasonId, info, l).0, EpisodeStep(d, seasonId, info, l).0)
  {
  }

  /** The pass only reads counts, so states that read the same produce the same records. */
  lemma {:induction false} NumberSameCounts(c: Counters, d: Counters, seasonId: string, info: SeasonInfo, ls: seq<Listed>)
    requires SameCounts(c, d)
    ensures Number(c, seasonId, info, ls).1 == Number(d, seasonId, info, ls).1
    ensures SameCounts(Number(c, seasonId, info, ls).0, Number(d, seasonId, info, ls).0)
  {
    if ls != [] {
      var n := |ls| - 1;
      NumberSameCounts(c, d, seasonId, info, ls[..n]);
      StepSameCounts(Number(c, seasonId, info, ls[..n]).0, Number(d, seasonId, info, ls[..n]).0, seasonId, info, ls[n]);
    }
  }

  lemma ProcessSeasonSameCounts(c: Counters, d: Counters, seasonId: string, info: SeasonInfo,
                                listing: Option<seq<Listed>>)
    requires SameCounts(c, d)
    ensures ProcessSeason(c, seasonId, info, listing).1 == ProcessSeason(d, seasonId, info, listing).1
    ensures SameCounts(ProcessSeason(c, seasonId, info, listing).0, ProcessSeason(d, seasonId, info, listing).0)
  {
    SeasonStartCounts(c, info);
    SeasonStartCounts(d, info);
    if listing.Some? {
      NumberSameCounts(SeasonStart(c, info), SeasonStart(d, info), seasonId, info, listing.value);
    }
  }

  lemma {:induction false} ProcessSeasonsSameCounts(c: Counters, d: Counters, seasons: seq<(string, SeasonInfo)>,
                                                    listings: seq<Option<seq<Listed>>>)
    requires |listings| == |seasons| && SameCounts(c, d)
    ensures ProcessSeasons(c, seasons, listings).1 == ProcessSeasons(d, seasons, listings).1
    ensures SameCounts(ProcessSeasons(c, seasons, listings).0, ProcessSeasons(d, seasons, listings).0)
  {
    if seasons != [] {
      var n := |seasons| - 1;
      ProcessSeasonsSameCounts(c, d, seasons[..n], listings[..n]);
      ProcessSeasonSameCounts(ProcessSeasons(c, seasons[..n], listings[..n]).0,
                              ProcessSeasons(d, seasons[..n], listings[..n]).0,
                              seasons[n].0, seasons[n].1, listings[n]);
    }
  }

  lemma ProcessSeasonsLast(c: Counters, seasons: seq<(string, SeasonInfo)>, listings: seq<Option<seq<Listed>>>)
    requires |listings| == |seasons| > 0
    ensures var n := |seasons| - 1;
      var init := ProcessSeasons(c, seasons[..n], listings[..n]);
      var last := ProcessSeason(init.0, seasons[n].0, seasons[n].1, listings[n]);
      ProcessSeasons(c, seasons, listings) == (last.0, init.1 + last.1)
  {
  }

  /** The seasons run one after the other: a split of the list splits the pass. */
  lemma {:induction false} ProcessSeasonsAppend(c: Counters, a: seq<(string, SeasonInfo)>, b: seq<(string, SeasonInfo)>,
                                                la: seq<Option<seq<Listed>>>, lb: seq<Option<seq<Listed>>>)
    requires |la| == |a| && |lb| == |b|
    ensures var first := ProcessSeasons(c, a, la);
      var second := ProcessSeasons(first.0, b, lb);
      ProcessSeasons(c, a + b, la + lb) == (second.0, first.1 + second.1)
    decreases |b|
  {
    if b == [] {
      assert a + b == a && la + lb == la;
      var first := ProcessSeasons(c, a, la);
      assert first.1 + [] == first.1;
    } else {
      var n := |b| - 1;
      ProcessSeasonsAppend(c, a, b[..n], la, lb[..n]);
      AppendStep(c, a, b, la, lb);
    }
  }

  /** The inductive step of `ProcessSeasonsAppend`: the last season of `b` is the last of `a + b`. */
  lemma AppendStep(c: Counters, a: seq<(string, SeasonInfo)>, b: seq<(string, SeasonInfo)>,
                   la: seq<Option<seq<Listed>>>, lb: seq<Option<seq<Listed>>>)
    requires |la| == |a| && |lb| == |b| > 0
    requires var n := |b| - 1;
      var first := ProcessSeasons(c, a, la);
      var mid := ProcessSeasons(first.0, b[..n], lb[..n]);
      ProcessSeasons(c, a + b[..n], la + lb[..n]) == (mid.0, first.1 + mid.1)
    ensures var first := ProcessSeasons(c, a, la);
      var second := ProcessSeasons(first.0, b, lb);
      ProcessSeasons(c, a + b, la + lb) == (second.0, first.1 + second.1)
  {
    var n := |b| - 1;
    var first := ProcessSeasons(c, a, la);
    var mid := ProcessSeasons(first.0, b[..n], lb[..n]);
    ProcessSeasonsLast(first.0, b, lb);
    LastOfAppend(c, a, b, la, lb);
    var last := ProcessSeason(mid.0, b[n].0, b[n].1, lb[n]);
    assert (first.1 + mid.1) + last.1 == first.1 + (mid.1 + last.1);
  }

  /** The last season of `a + b` is the last of `b`, after `a` and the rest of `b`. */
  lemma LastOfAppend(c: Counters, a: seq<(string, SeasonInfo)>, b: seq<(string, SeasonInfo)>,
                     la: seq<Option<seq<Listed>>>, lb: seq<Option<seq<Listed>>>)
    requires |la| == |a| && |lb| == |b| > 0
    ensures var n := |b| - 1;
      var init := ProcessSeasons(c, a + b[..n], la + lb[..n]);
      var last := ProcessSeason(init.0, b[n].0, b[n].1, lb[n]);
      ProcessSeasons(c, a + b, la + lb) == (last.0, init.1 + last.1)
  {
    var n := |b| - 1;
    ProcessSeasonsLast(c, a + b, la + lb);
    assert (a + b)[..|a| + n] == a + b[..n];
    assert (la + lb)[..|a| + n] == la + lb[..n];
    assert (a + b)[|a| + n] == b[n];
    assert (la + lb)[|a| + n] == lb[n];
  }

  /** Lines 209-306: a season whose fetch failed adds no episode and leaves every count as it
      was (its number may gain a 0 entry). */
  lemma FailedSeason(c: Counters, seasonId: string, info: SeasonInfo)
    ensures ProcessSeason(c, seasonId, info, None).1 == []
    ensures SameCounts(ProcessSeason(c, seasonId, info, None).0, c)
  {
    SeasonStartCounts(c, info);
  }

  /** The later seasons still run, and exactly as if the failed season were not listed at all. */
  lemma SkipFailedSeason(c: Counters, a: seq<(string, SeasonInfo)>, failed: (string, SeasonInfo), b: seq<(string, SeasonInfo)>,
                         la: seq<Option<seq<Listed>>>, lb: seq<Option<seq<Listed>>>)
    requires |la| == |a| && |lb| == |b|
    ensures ProcessSeasons(c, a + [failed] + b, la + [None] + lb).1 == ProcessSeasons(c, a + b, la + lb).1
  {
    var first := ProcessSeasons(c, a, la);
    var none: seq<Option<seq<Listed>>> := [None];
    ProcessSeasonsAppend(c, a, [failed], la, none);
    var skipped := ProcessSeason(first.0, failed.0, failed.1, None);
    assert ProcessSeasons(first.0, [failed], none) == (skipped.0, []) by {
      ProcessSeasonsLast(first.0, [failed], none);
      var init := ProcessSeasons(first.0, [failed][..0], none[..0]);
      assert [failed][..0] == [] && none[..0] == [];
      assert init == (first.0, []);
      assert [failed][0] == failed && none[0] == None;
      assert skipped.1 == [];
      assert init.1 + skipped.1 == [];
    }
    FailedSeason(first.0, failed.0, failed.1);
    ProcessSeasonsAppend(c, a + [failed], b, la + none, lb);
    ProcessSeasonsAppend(c, a, b, la, lb);
    ProcessSeasonsSameCounts(skipped.0, first.0, b, lb);
    assert first.1 + [] == first.1;
  }
}
