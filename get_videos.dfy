/** The episode pass as the source runs it: loops over the seasons and over the lines of each
    listing, with the counters as mutable locals, proved equal to the functions of `EpisodePass`
    and therefore numbering its records contiguously. */
module GetVideosPass {
  import opened PyStr
  import opened Wrappers
  import opened Settings
  import opened Series
  import opened SeasonPass
  import opened EpisodeLines
  import opened EpisodePass
  import opened Numbering
  import PyDict
  import Lists

  /** A special after `ls` takes the next specials number and leaves the other counters alone. */
  lemma NumberSpecial(c: Counters, seasonId: string, info: SeasonInfo, ls: seq<Listed>, l: Listed,
                      specials: nat, absolute: nat, counts: map<string, nat>, added: seq<Episode>)
    requires l.special
    requires (Counters(specials, absolute, counts), added) == Number(c, seasonId, info, ls)
    ensures (Counters(specials + 1, absolute, counts),
             added + [Episode("specials", "00", "S" + l.number, "S" + l.number, specials + 1, l.title, "Specials", "")])
      == Number(c, seasonId, info, ls + [l])
  {
    assert (ls + [l])[..|ls|] == ls;
  }

  /** An episode after `ls` takes the next absolute number and the next number of its season. */
  lemma NumberEpisode(c: Counters, seasonId: string, info: SeasonInfo, ls: seq<Listed>, l: Listed,
                      specials: nat, absolute: nat, counts: map<string, nat>, added: seq<Episode>)
    requires !l.special && info.number in counts
    requires (Counters(specials, absolute, counts), added) == Number(c, seasonId, info, ls)
    ensures var k := counts[info.number] + 1;
      (Counters(specials, absolute + 1, counts[info.number := k]),
       added + [Episode(seasonId, info.number, NatToString(absolute + 1), NatToString(absolute + 1), k, l.title, info.name, "")])
      == Number(c, seasonId, info, ls + [l])
  {
    assert (ls + [l])[..|ls|] == ls;
  }

  /** A season's records, as the outer loop body computes them. */
  lemma ListingStep(c: Counters, seasonId: string, info: SeasonInfo, output: Option<string>,
                    parse: string -> Option<Listed>, next: Counters, added: seq<Episode>)
    requires output.Some? ==>
      (next, added) == Number(SeasonStart(c, info), seasonId, info, Lists.FilterMap(parse, Split(output.value, '\n')))
    requires output.None? ==> (next, added) == (SeasonStart(c, info), [])
    ensures ProcessSeason(c, seasonId, info, Listing(output, parse)) == (next, added)
  {
  }

  /** One season, as the outer loop body handles it. */
  lemma SeasonsStep(c: Counters, seasons: seq<(string, SeasonInfo)>, listings: seq<Option<seq<Listed>>>, s: nat,
                    eps: seq<Episode>, next: Counters, added: seq<Episode>)
    requires |listings| == |seasons| && s < |seasons|
    requires ProcessSeasons(c, seasons[..s], listings[..s]).1 == eps
    requires ProcessSeason(ProcessSeasons(c, seasons[..s], listings[..s]).0, seasons[s].0, seasons[s].1, listings[s])
      == (next, added)
    ensures ProcessSeasons(c, seasons[..s + 1], listings[..s + 1]) == (next, eps + added)
  {
    assert seasons[..s + 1][..s] == seasons[..s];
    assert listings[..s + 1][..s] == listings[..s];
  }

  /** Lines 266-295: one parsed line numbered onto the counters of the lines `ls` before it. */
  method NumberLine(ghost c: Counters, seasonId: string, info: SeasonInfo, ghost ls: seq<Listed>, entry: Option<Listed>,
                    specials: nat, absolute: nat, counts: map<string, nat>, added: seq<Episode>)
    returns (specials': nat, absolute': nat, counts': map<string, nat>, added': seq<Episode>)
    requires info.number in counts
    requires (Counters(specials, absolute, counts), added) == Number(c, seasonId, info, ls)
    ensures info.number in counts'
    ensures (Counters(specials', absolute', counts'), added')
      == Number(c, seasonId, info, ls + (if entry.Some? then [entry.value] else []))
  {
    specials', absolute', counts', added' := specials, absolute, counts, added;
    if entry.Some? {
      var l := entry.value;
      if l.special {
        NumberSpecial(c, seasonId, info, ls, l, specials, absolute, counts, added);
        specials' := specials + 1;
        added' := added + [Episode("specials", "00", "S" + l.number, "S" + l.number, specials', l.title, "Specials", "")];
      } else {
        NumberEpisode(c, seasonId, info, ls, l, specials, absolute, counts, added);
        counts' := counts[info.number := counts[info.number] + 1];
        absolute' := absolute + 1;
        added' := added + [Episode(seasonId, info.number, NatToString(absolute'), NatToString(absolute'),
                                   counts'[info.number], l.title, info.name, "")];
      }
    } else {
      assert ls + [] == ls;
    }
  }

  /** Lines 226-298: one season's listing, line by line, with the three counters as local
      variables and the episodes appended to in place. `parse` is the per-line classification
      and extraction of lines 228-264, `EpisodeEntry` in the pass. */
  method NumberLines(c: Counters, seasonId: string, info: SeasonInfo, lines: seq<string>, parse: string -> Option<Listed>)
    returns (next: Counters, added: seq<Episode>)
    requires info.number in c.perSeason
    ensures (next, added) == Number(c, seasonId, info, Lists.FilterMap(parse, lines))
  {
    var specials := c.specials;
    var absolute := c.absolute;
    var counts := c.perSeason;
    added := [];
    var j := 0;
    ghost var ls: seq<Listed> := [];
    while j < |lines|
      invariant 0 <= j <= |lines| && info.number in counts
      invariant ls == Lists.FilterMap(parse, lines[..j])
      invariant (Counters(specials, absolute, counts), added) == Number(c, seasonId, info, ls)
    {
      var entry := parse(lines[j]);
      Lists.FilterMapPrefix(parse, lines, j);
      specials, absolute, counts, added := NumberLine(c, seasonId, info, ls, entry, specials, absolute, counts, added);
      ls := Lists.FilterMap(parse, lines[..j + 1]);
      j := j + 1;
    }
    assert lines[..|lines|] == lines;
    next := Counters(specials, absolute, counts);
  }

  /** Lines 187-306: one season, its counters started, its listing fetched and numbered. */
  method FetchSeason(cfg: Config, seriesId: string, seasonId: string, info: SeasonInfo, c: Counters,
                     fetch: seq<string> -> Option<string>, parse: string -> Option<Listed>)
    returns (next: Counters, added: seq<Episode>)
    ensures (next, added)
      == ProcessSeason(c, seasonId, info, Listing(fetch(EpisodesCommand(cfg, seriesId, seasonId)), parse))
  {
    next := c;
    if info.number !in next.perSeason {
      next := next.(perSeason := next.perSeason[info.number := 0]);
    }
    assert next == SeasonStart(c, info);
    var command := new CommandLine(["node", cfg.toolPath, "--service", "crunchy", "--series", seriesId,
                                    "-s", seasonId, "--locale", LocaleFor(cfg.subtitleLanguage)]);
    SetProxy(cfg, command);
    var output := fetch(command.args);
    added := [];
    if output.Some? {
      next, added := NumberLines(next, seasonId, info, Split(output.value, '\n'), parse);
    }
    ListingStep(c, seasonId, info, output, parse, next, added);
  }

  /** Lines 183-307: every season of `seasons_map` in dict order, its listing fetched and
      numbered with the counters carried from one season to the next. */
  method FetchSeasons(cfg: Config, seriesId: string, seasons: PyDict.Dict<string, SeasonInfo>,
                      fetch: seq<string> -> Option<string>, parse: string -> Option<Listed>)
    returns (episodes: seq<Episode>)
    requires seasons.Valid()
    ensures var items := PyDict.Items(seasons);
      episodes == ProcessSeasons(Start, items, Listings(Outputs(cfg, seriesId, items, fetch), parse)).1
  {
    ghost var items := PyDict.Items(seasons);
    ghost var listings := Listings(Outputs(cfg, seriesId, items, fetch), parse);
    episodes := [];
    var counters := Start;
    var s := 0;
    assert items[..0] == [] && listings[..0] == [];
    while s < |seasons.keys|
      invariant 0 <= s <= |seasons.keys| == |items|
      invariant (counters, episodes) == ProcessSeasons(Start, items[..s], listings[..s])
    {
      var seasonId := seasons.keys[s];
      var info := seasons.values[seasonId];
      assert items[s] == (seasonId, info);
      var added;
      counters, added := FetchSeason(cfg, seriesId, seasonId, info, counters, fetch, parse);
      SeasonsStep(Start, items, listings, s, episodes, counters, added);
      episodes := episodes + added;
      s := s + 1;
    }
    assert items[..|items|] == items;
    assert listings[..|listings|] == listings;
  }

  /** Lines 61-309: nothing when authentication fails; otherwise the season listing of lines
      72-179, then the episode pass over its seasons. */
  method GetVideos(cfg: Config, ch: Channel, authOk: bool,
                   listSeasons: seq<string> -> string, fetch: seq<string> -> Option<string>)
    returns (episodes: seq<Episode>)
    requires CanList(ch, authOk)
    ensures episodes == Videos(cfg, ch, authOk, listSeasons, fetch)
    ensures Contiguous(episodes)
  {
    if !authOk {
      assert Normals([]) == [] && Specials([]) == [];
      forall n ensures SeasonEpisodes([], n) == [] { }
      return [];
    }
    var seriesId := SeriesId(ch.channelUrl).value;
    var command := new CommandLine(["node", cfg.toolPath, "--service", "crunchy", "--series", seriesId,
                                    "--locale", LocaleFor(cfg.subtitleLanguage)]);
    SetProxy(cfg, command);
    var seasons := CollectSeasons(listSeasons(command.args));
    ghost var items := PyDict.Items(seasons);
    assert items == SeasonItems(cfg, seriesId, listSeasons);
    episodes := FetchSeasons(cfg, seriesId, seasons, fetch, EpisodeEntry);
    ContiguousNumbering(items, Listings(Outputs(cfg, seriesId, items, fetch), EpisodeEntry));
  }
}
