/** `to_strm(method)`: for each channel entry, its episode records become `.strm` placeholder
    files, one per episode, under a folder per display season; a placeholder holds the server
    URL from which `download` later materialises the episode. `sanitize` comes from a module
    that is not part of this model and is a parameter. */
module ToStrm {
  import opened PyStr
  import opened Wrappers
  import opened Settings
  import opened Series
  import opened EpisodePass
  import opened GetVideosPass
  import opened Unify
  import opened Mutation
  import opened Files
  import opened Materialize

  const Platform: string := "crunchyroll"

  /** `str(ep['season_episode_number']).zfill(2)`. */
  function EpisodeNumberText(n: nat): string {
    ZFill(NatToString(n), 2)
  }

  /** The episode number in a file name is at least two digits long and reads back as the
      number within its season. */
  lemma EpisodeNumberTextValue(n: nat)
    ensures |EpisodeNumberText(n)| >= 2 && IsDigits(EpisodeNumberText(n))
    ensures DigitsValue(EpisodeNumberText(n)) == n
  {
    NatToStringValue(n);
    ZFillDigitsValue(NatToString(n), 2);
  }

  /** The `data` dict of one episode, before the rules: its season number padded, the unified
      season name, its number within the season padded, its title and its reference. */
  function EpisodeFields(seriesId: string, names: map<string, string>, e: Episode): (d: Fields)
    ensures d.Keys == FieldNames
  {
    NewFields(SeasonKey(e), SeasonNameFor(names, e), EpisodeNumberText(e.seasonEpisodeNumber), e.title,
              seriesId + "_" + e.episodeId)
  }

  /** `f"S{season_number}E{episode_number} - {episode_title}"`. */
  function VideoName(seasonNumber: string, episodeNumber: string, title: string): string {
    "S" + seasonNumber + "E" + episodeNumber + " - " + title
  }

  /** `"http://{host}:{port}/crunchyroll/{method}/{url}"`. */
  function FileContent(cfg: Config, method_: string, url: string): string {
    "http://" + cfg.host + ":" + cfg.port + "/" + Platform + "/" + method_ + "/" + url
  }

  /** `"{media_folder}/{sanitize(channel_folder)}/S{season_number} - {sanitize(season_name)}"`. */
  function SeasonFolder(cfg: Config, sanitize: string -> string, channelFolder: string,
                        seasonNumber: string, seasonName: string): string {
    cfg.mediaFolder + "/" + sanitize(channelFolder) + "/S" + seasonNumber + " - " + sanitize(seasonName)
  }

  /** The placeholder described by a (mutated) dict. */
  function PlaceholderOf(cfg: Config, method_: string, sanitize: string -> string, ch: Channel, d: Fields): Placeholder
    requires FieldNames <= d.Keys
  {
    var folder := SeasonFolder(cfg, sanitize, ch.channelFolder, d["season_number"], d["season"]);
    Placeholder(folder + "/" + sanitize(VideoName(d["season_number"], d["episode_number"], d["episode"])) + ".strm",
                FileContent(cfg, method_, d["url"]))
  }

  /** The placeholder of one episode: its dict, mutated by the channel's rules. */
  function EpisodePlaceholder(cfg: Config, method_: string, sanitize: string -> string, ch: Channel,
                              seriesId: string, names: map<string, string>, e: Episode): Placeholder {
    PlaceholderOf(cfg, method_, sanitize, ch, Mutate(EpisodeFields(seriesId, names, e), RulesFor(cfg, ch.entry)))
  }

  /** The placeholders of a channel's episodes, in episode order. */
  function ChannelPlaceholders(cfg: Config, method_: string, sanitize: string -> string, ch: Channel,
                               seriesId: string, eps: seq<Episode>): (ps: seq<Placeholder>)
    ensures |ps| == |eps|
  {
    var names := UnifiedNames(eps);
    seq(|eps|, i requires 0 <= i < |eps| => EpisodePlaceholder(cfg, method_, sanitize, ch, seriesId, names, eps[i]))
  }

  /** What one channel entry leads to: the placeholders it writes, in order, and the reference
      of the episode whose download is started in the background, if any. */
  datatype Sync = Sync(writes: seq<Placeholder>, preload: Option<string>)

  /** The outcome for a channel whose listing gave `eps`: nothing for an empty listing. */
  function SyncOf(cfg: Config, method_: string, sanitize: string -> string, ch: Channel,
                  seriesId: Option<string>, eps: seq<Episode>): Sync
    requires eps != [] ==> seriesId.Some?
  {
    if eps == [] then Sync([], None)
    else
      Sync(ChannelPlaceholders(cfg, method_, sanitize, ch, seriesId.value, eps),
           if cfg.preloadLastEpisode then Some(seriesId.value + "_" + eps[|eps| - 1].episodeId) else None)
  }

  /** One channel entry, its episodes listed by `get_videos`. */
  function ChannelSync(cfg: Config, method_: string, sanitize: string -> string, entry: string, authOk: bool,
                       listSeasons: seq<string> -> string, fetch: seq<string> -> Option<string>): Sync
    requires CanList(NewChannel(entry), authOk)
  {
    var ch := NewChannel(entry);
    var seriesId := if authOk then SeriesId(ch.channelUrl) else None;
    SyncOf(cfg, method_, sanitize, ch, seriesId, Videos(cfg, ch, authOk, listSeasons, fetch))
  }

  /** One episode's dict built, mutated rule by rule, and turned into its placeholder. */
  method MakePlaceholder(cfg: Config, method_: string, sanitize: string -> string, ch: Channel,
                         seriesId: string, names: map<string, string>, e: Episode)
    returns (p: Placeholder)
    ensures p == EpisodePlaceholder(cfg, method_, sanitize, ch, seriesId, names, e)
  {
    var seasonNumber := ZFill(e.seasonNumber, 2);
    var episodeNumber := ZFill(NatToString(e.seasonEpisodeNumber), 2);
    var seasonName := if seasonNumber in names then names[seasonNumber] else e.seasonName;
    var data := NewFields(seasonNumber, seasonName, episodeNumber, e.title, seriesId + "_" + e.episodeId);
    data := MutateFields(data, RulesFor(cfg, ch.entry));
    var videoName := VideoName(data["season_number"], data["episode_number"], data["episode"]);
    var content := FileContent(cfg, method_, data["url"]);
    var folder := SeasonFolder(cfg, sanitize, ch.channelFolder, data["season_number"], data["season"]);
    p := Placeholder(folder + "/" + sanitize(videoName) + ".strm", content);
  }

  /** The episode loop of one channel: each placeholder written unless its file exists. */
  method WritePlaceholders(cfg: Config, method_: string, sanitize: string -> string, ch: Channel,
                           seriesId: string, names: map<string, string>, episodes: seq<Episode>, fs: FileSystem)
    requires names == UnifiedNames(episodes)
    modifies fs
    ensures fs.files == WriteAll(old(fs.files), ChannelPlaceholders(cfg, method_, sanitize, ch, seriesId, episodes))
  {
    ghost var ps := ChannelPlaceholders(cfg, method_, sanitize, ch, seriesId, episodes);
    ghost var files0 := fs.files;
    for i := 0 to |episodes|
      invariant fs.files == WriteAll(files0, ps[..i])
    {
      var p := MakePlaceholder(cfg, method_, sanitize, ch, seriesId, names, episodes[i]);
      ChannelPlaceholderAt(cfg, method_, sanitize, ch, seriesId, episodes, i);
      WriteAllSnoc(files0, ps, i);
      WritePlaceholder(fs, p);
    }
    assert ps[..|episodes|] == ps;
  }

  /** The placeholder a channel writes for its `i`-th episode. */
  lemma ChannelPlaceholderAt(cfg: Config, method_: string, sanitize: string -> string, ch: Channel,
                             seriesId: string, eps: seq<Episode>, i: nat)
    requires i < |eps|
    ensures ChannelPlaceholders(cfg, method_, sanitize, ch, seriesId, eps)[i]
      == EpisodePlaceholder(cfg, method_, sanitize, ch, seriesId, UnifiedNames(eps), eps[i])
  {
  }

  /** A channel's outcome read off its listed episodes; only an authenticated channel lists any. */
  lemma ChannelSyncOf(cfg: Config, method_: string, sanitize: string -> string, entry: string, authOk: bool,
                      listSeasons: seq<string> -> string, fetch: seq<string> -> Option<string>, eps: seq<Episode>)
    requires CanList(NewChannel(entry), authOk)
    requires eps == Videos(cfg, NewChannel(entry), authOk, listSeasons, fetch)
    ensures eps != [] ==> authOk
    ensures var ch := NewChannel(entry);
      ChannelSync(cfg, method_, sanitize, entry, authOk, listSeasons, fetch)
        == SyncOf(cfg, method_, sanitize, ch, if authOk then SeriesId(ch.channelUrl) else None, eps)
  {
  }

  /** The body of the channel loop: list the episodes, skip a channel without any, unify the
      season names, write the placeholders, and name the last episode for preloading when that
      is configured. */
  method SyncChannel(cfg: Config, method_: string, sanitize: string -> string, entry: string, authOk: bool,
                     listSeasons: seq<string> -> string, fetch: seq<string> -> Option<string>, fs: FileSystem)
    returns (preload: Option<string>)
    requires CanList(NewChannel(entry), authOk)
    modifies fs
    ensures var s := ChannelSync(cfg, method_, sanitize, entry, authOk, listSeasons, fetch);
      fs.files == WriteAll(old(fs.files), s.writes) && preload == s.preload
  {
    var ch := NewChannel(entry);
    var episodes := GetVideos(cfg, ch, authOk, listSeasons, fetch);
    ChannelSyncOf(cfg, method_, sanitize, entry, authOk, listSeasons, fetch, episodes);
    if |episodes| == 0 {
      return None;
    }
    var seriesId := SeriesId(ch.channelUrl).value;
    var names := UnifySeasonNames(episodes);
    WritePlaceholders(cfg, method_, sanitize, ch, seriesId, names, episodes, fs);
    preload := None;
    if cfg.preloadLastEpisode {
      preload := Some(seriesId + "_" + episodes[|episodes| - 1].episodeId);
    }
  }

  /** Every channel entry can be listed with its authentication result. */
  predicate Listable(channels: seq<string>, auth: seq<bool>) {
    |auth| == |channels| && forall i :: 0 <= i < |channels| ==> CanList(NewChannel(channels[i]), auth[i])
  }

  lemma ListablePrefix(channels: seq<string>, auth: seq<bool>, n: nat)
    requires Listable(channels, auth) && n <= |channels|
    ensures Listable(channels[..n], auth[..n])
  {
  }

  /** The placeholders the channels write, channel after channel. */
  function RunWrites(cfg: Config, method_: string, sanitize: string -> string, channels: seq<string>, auth: seq<bool>,
                     listSeasons: seq<string> -> string, fetch: seq<string> -> Option<string>): seq<Placeholder>
    requires Listable(channels, auth)
    decreases |channels|
  {
    if channels == [] then []
    else
      var n := |channels| - 1;
      ListablePrefix(channels, auth, n);
      RunWrites(cfg, method_, sanitize, channels[..n], auth[..n], listSeasons, fetch)
        + ChannelSync(cfg, method_, sanitize, channels[n], auth[n], listSeasons, fetch).writes
  }

  /** The references preloaded, channel after channel. */
  function RunPreloads(cfg: Config, method_: string, sanitize: string -> string, channels: seq<string>, auth: seq<bool>,
                       listSeasons: seq<string> -> string, fetch: seq<string> -> Option<string>): seq<string>
    requires Listable(channels, auth)
    decreases |channels|
  {
    if channels == [] then []
    else
      var n := |channels| - 1;
      ListablePrefix(channels, auth, n);
      var p := ChannelSync(cfg, method_, sanitize, channels[n], auth[n], listSeasons, fetch).preload;
      RunPreloads(cfg, method_, sanitize, channels[..n], auth[..n], listSeasons, fetch)
        + (if p.Some? then [p.value] else [])
  }

  /** One more channel adds its placeholders and its preload. */
  lemma RunSnoc(cfg: Config, method_: string, sanitize: string -> string, channels: seq<string>, auth: seq<bool>,
                listSeasons: seq<string> -> string, fetch: seq<string> -> Option<string>, i: nat)
    requires Listable(channels, auth) && i < |channels|
    ensures Listable(channels[..i], auth[..i]) && Listable(channels[..i + 1], auth[..i + 1])
    ensures var s := ChannelSync(cfg, method_, sanitize, channels[i], auth[i], listSeasons, fetch);
      && RunWrites(cfg, method_, sanitize, channels[..i + 1], auth[..i + 1], listSeasons, fetch)
        == RunWrites(cfg, method_, sanitize, channels[..i], auth[..i], listSeasons, fetch) + s.writes
      && RunPreloads(cfg, method_, sanitize, channels[..i + 1], auth[..i + 1], listSeasons, fetch)
        == RunPreloads(cfg, method_, sanitize, channels[..i], auth[..i], listSeasons, fetch)
           + (if s.preload.Some? then [s.preload.value] else [])
  {
    ListablePrefix(channels, auth, i);
    ListablePrefix(channels, auth, i + 1);
    assert channels[..i + 1][..i] == channels[..i] && auth[..i + 1][..i] == auth[..i];
  }

  /** `to_strm(method)` over the channel list, with one authentication result per channel. */
  method Run(cfg: Config, method_: string, sanitize: string -> string, channels: seq<string>, auth: seq<bool>,
             listSeasons: seq<string> -> string, fetch: seq<string> -> Option<string>, fs: FileSystem)
    returns (preloads: seq<string>)
    requires Listable(channels, auth)
    modifies fs
    ensures fs.files == WriteAll(old(fs.files), RunWrites(cfg, method_, sanitize, channels, auth, listSeasons, fetch))
    ensures preloads == RunPreloads(cfg, method_, sanitize, channels, auth, listSeasons, fetch)
  {
    preloads := [];
    ghost var files0 := fs.files;
    ListablePrefix(channels, auth, 0);
    for i := 0 to |channels|
      invariant Listable(channels[..i], auth[..i])
      invariant fs.files == WriteAll(files0, RunWrites(cfg, method_, sanitize, channels[..i], auth[..i], listSeasons, fetch))
      invariant preloads == RunPreloads(cfg, method_, sanitize, channels[..i], auth[..i], listSeasons, fetch)
    {
      ghost var before := RunWrites(cfg, method_, sanitize, channels[..i], auth[..i], listSeasons, fetch);
      ghost var s := ChannelSync(cfg, method_, sanitize, channels[i], auth[i], listSeasons, fetch);
      var preload := SyncChannel(cfg, method_, sanitize, channels[i], auth[i], listSeasons, fetch, fs);
      WriteAllAppend(files0, before, s.writes);
      RunSnoc(cfg, method_, sanitize, channels, auth, listSeasons, fetch, i);
      if preload.Some? {
        preloads := preloads + [preload.value];
      }
    }
    assert channels[..|channels|] == channels && auth[..|auth|] == auth;
  }

  /** A second run over the same catalog leaves the output folder as the first run left it. */
  lemma RunIdempotent(cfg: Config, method_: string, sanitize: string -> string, channels: seq<string>, auth: seq<bool>,
                      listSeasons: seq<string> -> string, fetch: seq<string> -> Option<string>, files: map<string, string>)
    requires Listable(channels, auth)
    ensures var ws := RunWrites(cfg, method_, sanitize, channels, auth, listSeasons, fetch);
      WriteAll(WriteAll(files, ws), ws) == WriteAll(files, ws)
  {
    WriteAllIdempotent(files, RunWrites(cfg, method_, sanitize, channels, auth, listSeasons, fetch));
  }

  /** A run never changes a file that already exists. */
  lemma RunKeepsFiles(cfg: Config, method_: string, sanitize: string -> string, channels: seq<string>, auth: seq<bool>,
                      listSeasons: seq<string> -> string, fetch: seq<string> -> Option<string>,
                      files: map<string, string>, path: string)
    requires Listable(channels, auth) && path in files
    ensures var after := WriteAll(files, RunWrites(cfg, method_, sanitize, channels, auth, listSeasons, fetch));
      path in after && after[path] == files[path]
  {
    WriteAllKeeps(files, RunWrites(cfg, method_, sanitize, channels, auth, listSeasons, fetch), path);
  }

  /** The rules leave alone every field that none of them names. */
  lemma RulesKeepNameFields(d: Fields, rules: seq<Rule>)
    requires FieldNames <= d.Keys
    requires forall r :: r in rules ==> r.field !in {"season_number", "season", "episode_number", "episode"}
    ensures var m := Mutate(d, rules);
      && m["season_number"] == d["season_number"] && m["season"] == d["season"]
      && m["episode_number"] == d["episode_number"] && m["episode"] == d["episode"]
  {
    forall f | f in {"season_number", "season", "episode_number", "episode"}
      ensures Mutate(d, rules)[f] == d[f]
    {
      forall j | 0 <= j < |rules| ensures rules[j].field != f {
        assert rules[j] in rules;
      }
      MutateUnnamed(d, rules, f);
    }
  }

  /** Without a rule on the fields of the file name, an episode's placeholder sits in the folder
      of its padded season number and season name, and is named after its padded season and
      episode numbers and its title. */
  lemma EpisodePlaceholderPath(cfg: Config, method_: string, sanitize: string -> string, ch: Channel,
                               seriesId: string, names: map<string, string>, e: Episode)
    requires forall r :: r in RulesFor(cfg, ch.entry) ==>
      r.field !in {"season_number", "season", "episode_number", "episode"}
    ensures EpisodePlaceholder(cfg, method_, sanitize, ch, seriesId, names, e).path
      == SeasonFolder(cfg, sanitize, ch.channelFolder, SeasonKey(e), SeasonNameFor(names, e)) + "/"
         + sanitize(VideoName(SeasonKey(e), EpisodeNumberText(e.seasonEpisodeNumber), e.title)) + ".strm"
  {
    RulesKeepNameFields(EpisodeFields(seriesId, names, e), RulesFor(cfg, ch.entry));
  }

  /** In a channel, that season name is the unified one, so episodes sharing a season number
      share a folder. */
  lemma PlaceholderPath(cfg: Config, method_: string, sanitize: string -> string, ch: Channel,
                        seriesId: string, eps: seq<Episode>, i: nat)
    requires i < |eps|
    requires forall r :: r in RulesFor(cfg, ch.entry) ==>
      r.field !in {"season_number", "season", "episode_number", "episode"}
    ensures var e := eps[i]; var k := SeasonKey(e);
      && k in UnifiedNames(eps)
      && ChannelPlaceholders(cfg, method_, sanitize, ch, seriesId, eps)[i].path
        == SeasonFolder(cfg, sanitize, ch.channelFolder, k, UnifiedNames(eps)[k]) + "/"
           + sanitize(VideoName(k, EpisodeNumberText(e.seasonEpisodeNumber), e.title)) + ".strm"
  {
    SharedSeasonName(eps, i, i);
    EpisodePlaceholderPath(cfg, method_, sanitize, ch, seriesId, UnifiedNames(eps), eps[i]);
  }

  /** Without a rule on `url`, a placeholder holds the server URL of the reference
      `series_id + "_" + episode_id`. */
  lemma PlaceholderUrl(cfg: Config, method_: string, sanitize: string -> string, ch: Channel,
                       seriesId: string, eps: seq<Episode>, i: nat)
    requires i < |eps|
    requires forall r :: r in RulesFor(cfg, ch.entry) ==> r.field != "url"
    ensures ChannelPlaceholders(cfg, method_, sanitize, ch, seriesId, eps)[i].content
      == FileContent(cfg, method_, seriesId + "_" + eps[i].episodeId)
  {
    var rules := RulesFor(cfg, ch.entry);
    var d := EpisodeFields(seriesId, UnifiedNames(eps), eps[i]);
    forall j | 0 <= j < |rules| ensures rules[j].field != "url" {
      assert rules[j] in rules;
    }
    MutateUnnamed(d, rules, "url");
  }

  /** The reference in a placeholder is one `download` splits back into the series id and the
      episode id, whenever the series id holds no `_`. */
  lemma PlaceholderReference(cfg: Config, method_: string, sanitize: string -> string, ch: Channel,
                             seriesId: string, eps: seq<Episode>, i: nat)
    requires i < |eps| && '_' !in seriesId
    requires forall r :: r in RulesFor(cfg, ch.entry) ==> r.field != "url"
    ensures exists ref ::
      && ChannelPlaceholders(cfg, method_, sanitize, ch, seriesId, eps)[i].content == FileContent(cfg, method_, ref)
      && SplitReference(ref) == Some((seriesId, eps[i].episodeId))
  {
    PlaceholderUrl(cfg, method_, sanitize, ch, seriesId, eps, i);
    SplitReferenceJoin(seriesId, eps[i].episodeId);
  }

  /** The preloaded reference is the one the channel's last placeholder points at. */
  lemma PreloadIsLastPlaceholder(cfg: Config, method_: string, sanitize: string -> string, ch: Channel,
                                 seriesId: string, eps: seq<Episode>)
    requires eps != [] && cfg.preloadLastEpisode
    requires forall r :: r in RulesFor(cfg, ch.entry) ==> r.field != "url"
    ensures var s := SyncOf(cfg, method_, sanitize, ch, Some(seriesId), eps);
      s.preload.Some? && |s.writes| == |eps| && s.writes[|eps| - 1].content == FileContent(cfg, method_, s.preload.value)
  {
    PlaceholderUrl(cfg, method_, sanitize, ch, seriesId, eps, |eps| - 1);
  }
}
