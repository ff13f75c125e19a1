/** `get_videos`: the season listing, then one listing per season, turned into the episode
    records with their three counters threaded across all seasons. */
module EpisodePass {
  import opened PyStr
  import opened Wrappers
  import opened Settings
  import opened Series
  import opened SeasonPass
  import opened EpisodeLines
  import PyDict
  import Lists

  /** One element of `episodes`. */
  datatype Episode = Episode(
    seasonId: string,
    seasonNumber: string,
    episodeId: string,
    episodeNumber: string,
    seasonEpisodeNumber: nat,
    title: string,
    seasonName: string,
    description: string)

  /** `specials_count`, `absolute_episode_number` and `season_episode_counts`. */
  datatype Counters = Counters(specials: nat, absolute: nat, perSeason: map<string, nat>)

  const Start: Counters := Counters(0, 0, map[])

  /** The count of a season number, 0 when it has none yet. */
  function Count(m: map<string, nat>, n: string): nat {
    if n in m then m[n] else 0
  }

  /** Numbering one parsed line of season `seasonId` (lines 266-295): a special takes the next
      specials number only; an episode takes the next absolute number and the next number of
      its display season. */
  function EpisodeStep(c: Counters, seasonId: string, info: SeasonInfo, l: Listed): (r: (Counters, Episode))
    ensures var (c1, e) := r;
      && e.title == l.title && e.description == ""
      && (l.special ==>
        && c1.specials == c.specials + 1 && c1.absolute == c.absolute && c1.perSeason == c.perSeason
        && e.seasonEpisodeNumber == c1.specials
        && e.seasonId == "specials" && e.seasonNumber == "00" && e.seasonName == "Specials"
        && e.episodeId == "S" + l.number && e.episodeNumber == e.episodeId)
      && (!l.special ==>
        && c1.specials == c.specials && c1.absolute == c.absolute + 1
        && Count(c1.perSeason, info.number) == Count(c.perSeason, info.number) + 1
        && (forall n :: n != info.number ==> Count(c1.perSeason, n) == Count(c.perSeason, n))
        && e.seasonEpisodeNumber == Count(c1.perSeason, info.number)
        && e.seasonId == seasonId && e.seasonNumber == info.number && e.seasonName == info.name
        && e.episodeId == NatToString(c1.absolute) && e.episodeNumber == e.episodeId)
  {
    if l.special then
      var k := c.specials + 1;
      (c.(specials := k), Episode("specials", "00", "S" + l.number, "S" + l.number, k, l.title, "Specials", ""))
    else
      var k := Count(c.perSeason, info.number) + 1;
      var a := c.absolute + 1;
      (c.(absolute := a, perSeason := c.perSeason[info.number := k]),
       Episode(seasonId, info.number, NatToString(a), NatToString(a), k, l.title, info.name, ""))
  }

  /** Numbering the parsed lines of one season in order. */
  function Number(c: Counters, seasonId: string, info: SeasonInfo, ls: seq<Listed>): (r: (Counters, seq<Episode>))
    ensures |r.1| == |ls|
  {
    if ls == [] then (c, [])
    else
      var (c1, eps) := Number(c, seasonId, info, ls[..|ls| - 1]);
      var (c2, e) := EpisodeStep(c1, seasonId, info, ls[|ls| - 1]);
      (c2, eps + [e])
  }

  /** One raw line of a season listing: stripped, then parsed. */
  function EpisodeEntry(line: string): Option<Listed> {
    ParseEpisodeLine(Strip(line))
  }

  /** Lines 191-193: a season number seen for the first time starts at 0. */
  function SeasonStart(c: Counters, info: SeasonInfo): Counters {
    if info.number in c.perSeason then c else c.(perSeason := c.perSeason[info.number := 0])
  }

  /** One season: its parsed listing, when the fetch produced one, numbered from the running
      counters; a failed fetch contributes nothing. */
  function ProcessSeason(c: Counters, seasonId: string, info: SeasonInfo, listing: Option<seq<Listed>>): (Counters, seq<Episode>) {
    var c0 := SeasonStart(c, info);
    match listing
    case None => (c0, [])
    case Some(ls) => Number(c0, seasonId, info, ls)
  }

  /** All seasons in dict order, the counters threaded from one to the next. */
  function ProcessSeasons(c: Counters, seasons: seq<(string, SeasonInfo)>, listings: seq<Option<seq<Listed>>>): (Counters, seq<Episode>)
    requires |listings| == |seasons|
  {
    if seasons == [] then (c, [])
    else
      var n := |seasons| - 1;
      var (c1, eps) := ProcessSeasons(c, seasons[..n], listings[..n]);
      var (c2, more) := ProcessSeason(c1, seasons[n].0, seasons[n].1, listings[n]);
      (c2, eps + more)
  }

  /** A season's output split into lines, each parsed with `parse` (`EpisodeEntry` in the pass). */
  function Listing(output: Option<string>, parse: string -> Option<Listed>): Option<seq<Listed>> {
    match output
    case None => None
    case Some(text) => Some(Lists.FilterMap(parse, Split(text, '\n')))
  }

  function Listings(outputs: seq<Option<string>>, parse: string -> Option<Listed>): (r: seq<Option<seq<Listed>>>)
    ensures |r| == |outputs|
    ensures forall i :: 0 <= i < |r| ==> r[i] == Listing(outputs[i], parse)
  {
    seq(|outputs|, i requires 0 <= i < |outputs| => Listing(outputs[i], parse))
  }

  /** The command that lists a series' seasons (lines 74-80). */
  function SeasonsCommand(cfg: Config, seriesId: string): (cmd: seq<string>)
    ensures |cmd| >= 8 && cmd[4..6] == ["--series", seriesId]
  {
    ["node", cfg.toolPath, "--service", "crunchy", "--series", seriesId, "--locale", LocaleFor(cfg.subtitleLanguage)]
      + ProxyArgs(cfg)
  }

  /** The command that lists one season's episodes (lines 198-206). */
  function EpisodesCommand(cfg: Config, seriesId: string, seasonId: string): (cmd: seq<string>)
    ensures |cmd| >= 10 && cmd[4..8] == ["--series", seriesId, "-s", seasonId]
  {
    ["node", cfg.toolPath, "--service", "crunchy", "--series", seriesId, "-s", seasonId,
     "--locale", LocaleFor(cfg.subtitleLanguage)]
      + ProxyArgs(cfg)
  }

  /** The per-season command is the season-list command with `-s` and the season id put right
      after the series id; so two seasons of one series are fetched by different commands. */
  lemma EpisodesCommandAddsSeason(cfg: Config, seriesId: string, seasonId: string, otherId: string)
    ensures var seasons := SeasonsCommand(cfg, seriesId);
      EpisodesCommand(cfg, seriesId, seasonId) == seasons[..6] + ["-s", seasonId] + seasons[6..]
    ensures seasonId != otherId ==> EpisodesCommand(cfg, seriesId, seasonId) != EpisodesCommand(cfg, seriesId, otherId)
  {
    var cmd := EpisodesCommand(cfg, seriesId, otherId);
    assert cmd[7] == cmd[4..8][3];
  }

  /** What each season's fetch returned, in dict order. */
  function Outputs(cfg: Config, seriesId: string, seasons: seq<(string, SeasonInfo)>,
                   fetch: seq<string> -> Option<string>): (r: seq<Option<string>>)
    ensures |r| == |seasons|
    ensures forall i :: 0 <= i < |r| ==> r[i] == fetch(EpisodesCommand(cfg, seriesId, seasons[i].0))
  {
    seq(|seasons|, i requires 0 <= i < |seasons| => fetch(EpisodesCommand(cfg, seriesId, seasons[i].0)))
  }

  /** The inputs on which `get_videos` returns: once authentication succeeds, `get_series_id`
      must return and give an id, since with a `None` in the command list the `' '.join` of the
      command for the log line (line 83) raises TypeError. A failed authentication returns
      before the URL is looked at. */
  predicate CanList(ch: Channel, authOk: bool) {
    authOk ==> SeriesIdDefined(ch.channelUrl) && SeriesId(ch.channelUrl).Some?
  }

  /** The seasons of the series, in dict order. */
  function SeasonItems(cfg: Config, seriesId: string, listSeasons: seq<string> -> string): seq<(string, SeasonInfo)> {
    var seasons := SeasonsOf(listSeasons(SeasonsCommand(cfg, seriesId)));
    SeasonsValid(listSeasons(SeasonsCommand(cfg, seriesId)));
    PyDict.Items(seasons)
  }

  /** `get_videos`: nothing when authentication fails, otherwise every season's episodes. */
  function Videos(cfg: Config, ch: Channel, authOk: bool,
                  listSeasons: seq<string> -> string, fetch: seq<string> -> Option<string>): seq<Episode>
    requires CanList(ch, authOk)
  {
    if !authOk then []
    else
      var seriesId := SeriesId(ch.channelUrl).value;
      var items := SeasonItems(cfg, seriesId, listSeasons);
      ProcessSeasons(Start, items, Listings(Outputs(cfg, seriesId, items, fetch), EpisodeEntry)).1
  }
}
