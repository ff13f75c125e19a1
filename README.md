# Crunchyroll catalog synchronisation, modelled in Dafny

This project models the catalog-synchronisation core of the Crunchyroll plugin
(`plugins/crunchyroll/crunchyroll.py`) and proves properties of that model. The plugin
mirrors a Crunchyroll series as a tree of `.strm` placeholder files. Each placeholder holds a
URL on the local server. When a player opens that URL, the server downloads the episode once
and serves it from a cache folder.

The model follows the data flow of the plugin:

- **Channel and series id** (`Series`): the fields `Crunchyroll(channel)` derives from a channel
  entry; `get_series_id`; and `set_proxy`, which appends to a command line in place (a
  `CommandLine` class with a `seq` field).
- **Season pass** (`SeasonPass`): the season listing printed by the downloader becomes
  `seasons_map`. This is an insertion-ordered dict (`PyDict`): a repeated id takes the last
  line's value but keeps its first position.
- **Episode pass** (`EpisodeLines`, `EpisodePass`, `GetVideosPass`, `Numbering`): each listed
  line is classified and its number and title are read. The lines are then numbered with the
  three counters the source threads through all seasons:
  - `specials_count`;
  - `absolute_episode_number`;
  - `season_episode_counts`.

  `GetVideosPass` holds the loops as methods. They are proved equal to the functions of
  `EpisodePass`, and `Numbering` proves what those functions guarantee.
- **Season-name unification** (`CleanName`, `Unify`): the two regular-expression substitutions
  are written as string functions. Unification keeps the first name seen per zero-padded
  season number.
- **Mutation rules** (`Mutation`): a channel's `mutate_values` rules are applied in order to
  the per-episode field dict.
- **Placeholders** (`Files`, `ToStrm`): the output folder is a map from path to content inside a
  `FileSystem` class. A placeholder is written only when its path is absent. `to_strm` is a
  loop over channels and, inside it, a loop over episodes.
- **Materialisation** (`Materialize`): `download` and `direct`. The reference is split, the
  cache folder is scanned, the downloader command is built, and the exit code and the rescan
  decide the outcome.

The model replaces the outside world with inputs:

- Every subprocess is a function parameter:
  - the season listing (`listSeasons`, from command to text);
  - the per-season listing (`fetch`, from command to text, or `None` for a timeout or error);
  - the downloader (`tool`, from command to exit code and the cache listing afterwards).
- Authentication is one boolean per channel.
- `sanitize` is a function parameter.
- The configuration is an immutable `Config` value.
- `abort(code)` and `None` are values of `Materialize.Outcome`.
- The preload thread is modelled by the reference it would download, which `ToStrm.Run`
  returns.

Where the code and the plugin's own description differ, the model follows the code:

- The season pass cuts a season title only at `(Season:`. Other parenthesised text is removed
  later, by the unification in `to_strm`.
- The episode title drops the text up to a second `]` wherever that `]` stands. This is not
  limited to a date group right after the number (`EpisodeLines.RestAfterSecondBracket`).
- Mutation rules run one after another on the same dict, so a rule sees what earlier rules
  wrote (`Mutation.MutateChainExample`).

## Model

| member | source | states |
|---|---|---|
| Settings.LocaleFor | plugins/crunchyroll/crunchyroll.py:352-361 | a supported subtitle tag passes through, `ja-JP` becomes `und`, anything else `en-US` |
| Settings.DubFor | plugins/crunchyroll/crunchyroll.py:570-579 | a supported audio tag gives its own entry of the dub table (`ja-JP` gives `jpn`), an unsupported one `jpn`; distinct supported tags give distinct dub codes |
| Settings.SubtitleArg | plugins/crunchyroll/crunchyroll.py:590 | the `--dlsubs` value is never empty: the configured language when one is set, `all` otherwise |
| Series.LastSegment | plugins/crunchyroll/crunchyroll.py:22 | the folder name is a suffix of the channel without `/`, preceded by `/` unless it is the whole text |
| Series.NewChannel | plugins/crunchyroll/crunchyroll.py:18-22 | the channel is the entry with the site prefix removed, the URL is prefix plus channel, the folder its last segment |
| Series.NewChannelFromUrl | plugins/crunchyroll/crunchyroll.py:20-21 | a full URL and its bare path give the same channel, URL and folder |
| Series.FirstSeriesIdLike | plugins/crunchyroll/crunchyroll.py:53-56 | the position found is the first segment starting with `G` and longer than 5 |
| Series.SeriesId | plugins/crunchyroll/crunchyroll.py:42-59 | with a `series` segment, the segment after the first one; else the first id-like segment; `None` exactly when neither exists |
| Series.SeriesIdAfterSeriesSegment | plugins/crunchyroll/crunchyroll.py:45-50 | a URL with `series/<id>` and no earlier `series` segment yields `<id>` |
| Series.ProxyArgs | plugins/crunchyroll/crunchyroll.py:315-319 | `--proxy <url>` exactly when a proxy is on and its URL is not empty, otherwise nothing |
| Series.SetProxy | plugins/crunchyroll/crunchyroll.py:315-319 | the command list is extended in place by exactly the proxy arguments |
| SeasonPass.SeasonIdOf | plugins/crunchyroll/crunchyroll.py:159 | on a season line the id is the text between `[S:` and the first `]`, holding no `]` |
| SeasonPass.SeasonNameOf | plugins/crunchyroll/crunchyroll.py:161-163 | the name has no edge whitespace and contains no `(Season:` |
| SeasonPass.SeasonNumberOf | plugins/crunchyroll/crunchyroll.py:166-169 | the number has no edge whitespace and is `"1"` when the line has no `(Season:` |
| SeasonPass.ParseSeasonLine | plugins/crunchyroll/crunchyroll.py:155-174 | a line yields an entry exactly when it starts with `[S:` and holds `]`, with the id, name and number above |
| SeasonPass.TagAfter | plugins/crunchyroll/crunchyroll.py:163 | `find('(Season:')` stops at the tag that follows any prefix not holding one of its own |
| SeasonPass.SeasonLineFields | plugins/crunchyroll/crunchyroll.py:155-174 | a line printed as `[S:<id>] <title> (Season: <n>)` reads back id, title and number, whenever the id has no `]`, neither id nor title holds `(Season:`, the title is non-empty without edge whitespace and the number has no `)` or edge whitespace |
| SeasonPass.SeasonLineExample | plugins/crunchyroll/crunchyroll.py:155-174 | `[S:ABC123] Some Title (Season: 3)` gives id `ABC123`, number `3`, name `Some Title` |
| SeasonPass.CollectSeasons | plugins/crunchyroll/crunchyroll.py:155-177 | the line loop fills the dict exactly as inserting every parsed season line in order does, and the dict is well formed |
| SeasonPass.CollectStep | plugins/crunchyroll/crunchyroll.py:155-174 | one iteration sets the id of a season line and leaves the dict alone for any other line |
| SeasonPass.SeasonIds | plugins/crunchyroll/crunchyroll.py:155-174 | the dict's ids are exactly the ids of the listing's season lines |
| SeasonPass.SeasonLastWins | plugins/crunchyroll/crunchyroll.py:171-174 | a repeated id holds the number and name of its last season line |
| SeasonPass.SeasonOrder | plugins/crunchyroll/crunchyroll.py:171-174 | the dict iterates ids in the order of their first season line |
| PyDict.Dict.Set | plugins/crunchyroll/crunchyroll.py:171 | `d[k] = v`: the value is replaced; a new key goes last, an existing key keeps its place |
| PyDict.Items | plugins/crunchyroll/crunchyroll.py:187 | `items()` lists each key with its value, in key order |
| PyDict.InsertAllKeys | plugins/crunchyroll/crunchyroll.py:171-174 | the dict built by insertions holds exactly the inserted keys, each listed once |
| PyDict.InsertAllLastWins | plugins/crunchyroll/crunchyroll.py:171-174 | a key maps to the value of its last insertion |
| PyDict.InsertAllOrder | plugins/crunchyroll/crunchyroll.py:171-174 | keys are listed in the order of their first insertion |
| EpisodeLines.SeasonPrefixNotListed | plugins/crunchyroll/crunchyroll.py:233-234 | a line starting with `[S:` is neither an episode nor a special |
| EpisodeLines.NumberOf | plugins/crunchyroll/crunchyroll.py:239-240 | the number is the text between the two-character prefix and the first `]` |
| EpisodeLines.EpisodeTitle | plugins/crunchyroll/crunchyroll.py:249-264 | the title has no edge whitespace and is the stripped text when no ` - Season` occurs |
| EpisodeLines.ParseEpisodeLine | plugins/crunchyroll/crunchyroll.py:233-264 | a line yields an entry exactly when it starts with `[E`, or `[S` but not `[S:`, and holds `]`; the kind, number and title follow |
| EpisodeLines.TitleAfterSeason | plugins/crunchyroll/crunchyroll.py:252-261 | `<show> - Season <k> - <title>` gives the stripped `<title>` whenever ` - <title>` holds no ` - Season` of its own; the title may hold further ` - ` |
| EpisodeLines.MarkerIsLastWithDash | plugins/crunchyroll/crunchyroll.py:254 | `rfind(' - Season')` stops at the marker before `<k> - <title>` when ` - <title>` holds no marker |
| EpisodeLines.TitleBeforeSeason | plugins/crunchyroll/crunchyroll.py:252-264 | with nothing after the last ` - Season`, the title is the stripped text before it |
| EpisodeLines.RestAfterSecondBracket | plugins/crunchyroll/crunchyroll.py:244-246 | the title text starts after a second `]` wherever it stands |
| EpisodeLines.RestAfterOnlyBracket | plugins/crunchyroll/crunchyroll.py:244-246 | with a single bracket group the title text is all that follows it |
| EpisodeLines.ListedLineFields | plugins/crunchyroll/crunchyroll.py:233-246 | `[E<n>]...` and `[S<n>]...` lines read back their kind, number and title text |
| EpisodeLines.DatedLine | plugins/crunchyroll/crunchyroll.py:233-249 | after `[<date>]` the title is read from the rest of the line |
| EpisodeLines.EpisodeWithSeason | plugins/crunchyroll/crunchyroll.py:233-264 | `[E<n>] [<date>] <show> - Season <k> - <title>` is episode `<n>` titled `<title>`, for any title without edge whitespace whose ` - <title>` holds no ` - Season` |
| EpisodeLines.SpecialWithDate | plugins/crunchyroll/crunchyroll.py:233-249 | `[S<n>] [<date>] <title>` is special `<n>` titled `<title>`, for any title without edge whitespace or ` - Season` |
| EpisodeLines.EpisodeLineExample | plugins/crunchyroll/crunchyroll.py:233-264 | `[E5] [2020-01-01] Show - Season 3 - Real Title` is episode `5` titled `Real Title` |
| EpisodeLines.SpecialLineExample | plugins/crunchyroll/crunchyroll.py:233-249 | `[S2] [2020-01-01] X` is special `2` titled `X` |
| EpisodePass.EpisodeStep | plugins/crunchyroll/crunchyroll.py:266-295 | a special takes the next specials number, season `00`, name `Specials`, id `S<n>`; an episode takes the next absolute number as its id and the next number of its season; no other counter moves |
| EpisodePass.SeasonsCommand | plugins/crunchyroll/crunchyroll.py:73-80 | the season-list command passes the series id right after `--series` |
| EpisodePass.EpisodesCommand | plugins/crunchyroll/crunchyroll.py:198-206 | the per-season command passes the series id after `--series` and the season id after `-s` |
| EpisodePass.EpisodesCommandAddsSeason | plugins/crunchyroll/crunchyroll.py:198-206 | the per-season command is the season-list command with `-s <season id>` inserted after the series id, so different seasons are fetched by different commands |
| EpisodePass.Outputs | plugins/crunchyroll/crunchyroll.py:183-216 | one output per season, in dict order, each the fetch of the command for the series and that season's id |
| Numbering.StepNumbered | plugins/crunchyroll/crunchyroll.py:266-295 | one record is numbered by the counters of its own step |
| Numbering.NumberNumbered | plugins/crunchyroll/crunchyroll.py:227-295 | a season's lines keep the counter discipline: ids, in-season numbers and specials numbers continue the counters |
| Numbering.SeasonStartCounts | plugins/crunchyroll/crunchyroll.py:191-193 | starting a season number at 0 changes no count |
| Numbering.ProcessSeasonNumbered | plugins/crunchyroll/crunchyroll.py:187-306 | one season, fetched or not, keeps the counter discipline |
| Numbering.ProcessSeasonsNumbered | plugins/crunchyroll/crunchyroll.py:183-306 | all seasons together keep the counter discipline |
| Numbering.ContiguousNumbering | plugins/crunchyroll/crunchyroll.py:183-295 | episode ids are `1..n` in output order, specials are numbered `1..k`, and each season number's episodes are numbered `1..m` across all its season ids |
| Numbering.DistinctEpisodeIds | plugins/crunchyroll/crunchyroll.py:281-290 | no two episodes share an id |
| Numbering.CountersCount | plugins/crunchyroll/crunchyroll.py:183-295 | the final absolute and specials counters equal the numbers of episodes and specials |
| Numbering.FailedSeason | plugins/crunchyroll/crunchyroll.py:303-306 | a season whose fetch failed adds nothing and leaves every count as it was |
| Numbering.SkipFailedSeason | plugins/crunchyroll/crunchyroll.py:209-306 | the later seasons run exactly as if the failed season were not listed |
| Numbering.ProcessSeasonsAppend | plugins/crunchyroll/crunchyroll.py:187 | running two lists of seasons one after the other is running their concatenation |
| GetVideosPass.NumberSpecial | plugins/crunchyroll/crunchyroll.py:266-278 | a special after some lines moves only the specials counter |
| GetVideosPass.NumberEpisode | plugins/crunchyroll/crunchyroll.py:279-295 | an episode after some lines moves the absolute counter and its season's counter by one |
| GetVideosPass.NumberLine | plugins/crunchyroll/crunchyroll.py:228-295 | one line updates the local counters and the records as numbering one more parsed line does |
| GetVideosPass.NumberLines | plugins/crunchyroll/crunchyroll.py:226-298 | the line loop with its counters gives the numbering of the season's parsed lines |
| GetVideosPass.FetchSeason | plugins/crunchyroll/crunchyroll.py:187-306 | one season: its counter started, its listing fetched and numbered, or nothing on a failed fetch |
| GetVideosPass.FetchSeasons | plugins/crunchyroll/crunchyroll.py:183-307 | the season loop over the dict's items gives the numbering of all seasons |
| GetVideosPass.GetVideos | plugins/crunchyroll/crunchyroll.py:61-309 | nothing when authentication fails; otherwise the records of every season, numbered contiguously |
| CleanName.LeadingSpaces | plugins/crunchyroll/crunchyroll.py:424 | the greedy `\s*` takes a whitespace run that ends at a non-space or at the end |
| CleanName.GroupMatch | plugins/crunchyroll/crunchyroll.py:424 | a match is non-empty; an unclosed `(` gives no match |
| CleanName.SubGroups | plugins/crunchyroll/crunchyroll.py:424 | every character of the result is a space or comes from the input |
| CleanName.CollapseSpaces | plugins/crunchyroll/crunchyroll.py:426 | every character of the result is a space or a non-space character of the input, and the first one is kept |
| CleanName.SubGroupsKeepsPlain | plugins/crunchyroll/crunchyroll.py:424 | text with no `(` that does not end in whitespace is copied unchanged ahead of the rest |
| CleanName.GroupAtFront | plugins/crunchyroll/crunchyroll.py:424 | ` (<y>) ` before text not starting with whitespace is one match and becomes one space |
| CleanName.SubGroupsDropsGroup | plugins/crunchyroll/crunchyroll.py:424 | `<x> (<y>) <z>` becomes `<x> ` followed by the substitution of `<z>` |
| CleanName.CollapseSpacesKeepsText | plugins/crunchyroll/crunchyroll.py:426 | the second substitution keeps every non-whitespace character, in order |
| CleanName.SubGroupsNoGroup | plugins/crunchyroll/crunchyroll.py:424 | after the first substitution no `(...)` group is left |
| CleanName.CollapseSpacesSingle | plugins/crunchyroll/crunchyroll.py:426 | after the second substitution all whitespace is single plain spaces |
| CleanName.CleanShape | plugins/crunchyroll/crunchyroll.py:424-426 | a cleaned name has no `(...)` group, no edge whitespace and no two adjacent whitespace characters |
| CleanName.SubGroupsNoMatch | plugins/crunchyroll/crunchyroll.py:424 | text without a group is left unchanged by the first substitution |
| CleanName.CollapseSpacesSingleNoop | plugins/crunchyroll/crunchyroll.py:426 | single-spaced text is left unchanged by the second substitution |
| CleanName.CleanIdempotent | plugins/crunchyroll/crunchyroll.py:424-426 | cleaning a cleaned name changes nothing |
| CleanName.SubGroupsNameExample | plugins/crunchyroll/crunchyroll.py:424 | `A (1-2) B` becomes `A B`: the group and its spaces become one space |
| CleanName.CleanExample | plugins/crunchyroll/crunchyroll.py:424-426 | `A (1-2) B` cleans to `A B` |
| Unify.UnifiedNamesPrefix | plugins/crunchyroll/crunchyroll.py:419-427 | one more episode adds its cleaned name only when its padded season number is new |
| Unify.UnifySeasonNames | plugins/crunchyroll/crunchyroll.py:418-427 | the loop builds the first-seen-wins name map |
| Unify.UnifiedNamesKeys | plugins/crunchyroll/crunchyroll.py:419-427 | exactly the padded season numbers of the episodes get a name |
| Unify.UnifiedNamesFirst | plugins/crunchyroll/crunchyroll.py:419-427 | a number's name is the cleaned name of the first episode carrying it |
| Unify.UnifiedNamesClean | plugins/crunchyroll/crunchyroll.py:419-427 | every unified name is clean as `CleanShape` states |
| Unify.SharedSeasonName | plugins/crunchyroll/crunchyroll.py:432-438 | episodes with the same padded number get the same unified name; the lookup's fallback is never taken |
| Mutation.NewFields | plugins/crunchyroll/crunchyroll.py:441-448 | the field dict holds exactly the six field names |
| Mutation.Mutate | plugins/crunchyroll/crunchyroll.py:451-456 | the rules never add or remove a field |
| Mutation.MutateFields | plugins/crunchyroll/crunchyroll.py:451-456 | the rule loop, updating the dict in place, gives the rules applied in order |
| Mutation.ApplyRuleChanges | plugins/crunchyroll/crunchyroll.py:455-456 | a rule changes the dict exactly when its field exists, holds its value and the replacement differs |
| Mutation.MutateUnnamed | plugins/crunchyroll/crunchyroll.py:451-456 | a field no rule names keeps its value |
| Mutation.MutateChanged | plugins/crunchyroll/crunchyroll.py:451-456 | a changed field holds the replacement of a rule that named it and matched when its turn came |
| Mutation.MutateChainExample | plugins/crunchyroll/crunchyroll.py:451-456 | rules `A→B` then `B→C` on one field give `C` |
| Files.FileSystem.WriteFile | plugins/crunchyroll/crunchyroll.py:494 | the path now holds the content and nothing else changes |
| Files.WritePlaceholder | plugins/crunchyroll/crunchyroll.py:493-494 | the file is written only when its path is absent |
| Files.WriteAllKeeps | plugins/crunchyroll/crunchyroll.py:493-494 | an existing file is never rewritten |
| Files.WriteAllPaths | plugins/crunchyroll/crunchyroll.py:493-494 | afterwards exactly the old files and the placeholders' paths exist |
| Files.WriteAllFirst | plugins/crunchyroll/crunchyroll.py:493-494 | a new path holds the content of the first placeholder written to it |
| Files.WriteAllAppend | plugins/crunchyroll/crunchyroll.py:493-494 | writing two lists in turn is writing their concatenation |
| Files.WriteAllPresent | plugins/crunchyroll/crunchyroll.py:493-494 | placeholders whose paths all exist change nothing |
| Files.WriteAllIdempotent | plugins/crunchyroll/crunchyroll.py:493-494 | writing the same placeholders again changes nothing |
| ToStrm.EpisodeNumberTextValue | plugins/crunchyroll/crunchyroll.py:433 | the padded episode number has at least two digits and reads back as the number |
| ToStrm.EpisodeFields | plugins/crunchyroll/crunchyroll.py:432-448 | an episode's dict holds exactly the six field names |
| ToStrm.ChannelPlaceholders | plugins/crunchyroll/crunchyroll.py:431-491 | one placeholder per episode, in episode order |
| ToStrm.MakePlaceholder | plugins/crunchyroll/crunchyroll.py:432-491 | one episode's dict is built, mutated rule by rule and turned into its placeholder |
| ToStrm.WritePlaceholders | plugins/crunchyroll/crunchyroll.py:431-497 | the episode loop writes the channel's placeholders in order, each only if absent |
| ToStrm.ChannelSyncOf | plugins/crunchyroll/crunchyroll.py:404-413 | only an authenticated channel lists episodes, and its outcome is read off them |
| ToStrm.SyncChannel | plugins/crunchyroll/crunchyroll.py:390-519 | one channel: nothing for an empty listing; otherwise its placeholders written and, when configured, its last episode's reference to preload |
| ToStrm.Run | plugins/crunchyroll/crunchyroll.py:389-523 | the channel loop writes every channel's placeholders in turn and collects the preload references |
| ToStrm.RunIdempotent | plugins/crunchyroll/crunchyroll.py:389-494 | a second run over the same catalog leaves the output folder as the first left it |
| ToStrm.RunKeepsFiles | plugins/crunchyroll/crunchyroll.py:493-494 | a run never changes a file that already exists |
| ToStrm.RulesKeepNameFields | plugins/crunchyroll/crunchyroll.py:451-462 | rules that name none of the four name fields leave them as built |
| ToStrm.EpisodePlaceholderPath | plugins/crunchyroll/crunchyroll.py:459-491 | without such rules a placeholder is `<media>/<channel>/S<nn> - <season name>/<SnnEmm - title>.strm`, each part sanitised |
| ToStrm.PlaceholderPath | plugins/crunchyroll/crunchyroll.py:432-491 | in a channel that season name is the unified one, so episodes sharing a number share a folder |
| ToStrm.PlaceholderUrl | plugins/crunchyroll/crunchyroll.py:446-475 | without a `url` rule a placeholder holds the server URL of `series_id + "_" + episode_id` |
| ToStrm.PlaceholderReference | plugins/crunchyroll/crunchyroll.py:446 | a placeholder's reference splits back into the series id and the episode id |
| ToStrm.PreloadIsLastPlaceholder | plugins/crunchyroll/crunchyroll.py:500-504 | the preloaded reference is the one the channel's last placeholder points at |
| Materialize.SplitReference | plugins/crunchyroll/crunchyroll.py:551-557 | a reference without `_` is invalid; otherwise it is the part before the first `_`, `_`, and the rest |
| Materialize.SplitReferenceJoin | plugins/crunchyroll/crunchyroll.py:552 | `series_id + "_" + episode_id` splits back into both parts when the series id has no `_` |
| Materialize.FirstCached | plugins/crunchyroll/crunchyroll.py:561-564 | the file found is the first listed media file whose name contains the reference |
| Materialize.ScanCache | plugins/crunchyroll/crunchyroll.py:560-564 | the scan loop stops at that first match and returns its path, or nothing |
| Materialize.DownloadCommand | plugins/crunchyroll/crunchyroll.py:583-598 | the download command is the 19 fixed arguments followed by the proxy arguments |
| Materialize.Download | plugins/crunchyroll/crunchyroll.py:545-651 | split, scan, command built in place, run, rescan: the outcome and the command run are those of the decision flow |
| Materialize.Direct | plugins/crunchyroll/crunchyroll.py:528-543 | `direct` is `download` with the file sent back |
| Materialize.MalformedReference | plugins/crunchyroll/crunchyroll.py:551-557 | a reference without `_`, and only that, gives 400 (or `None`) with no command run |
| Materialize.CacheHit | plugins/crunchyroll/crunchyroll.py:560-566 | a cached file is served without running the downloader |
| Materialize.DownloadRuns | plugins/crunchyroll/crunchyroll.py:566-644 | with no cached file the downloader runs once with the series, episode and output path; a non-zero exit gives 500, no file afterwards 404 |
| Materialize.DownloadServes | plugins/crunchyroll/crunchyroll.py:634-646 | with no cached file, a zero exit serves the first file of the rescanned folder that matches the reference, and the command is reported |
| Materialize.ServedIsCached | plugins/crunchyroll/crunchyroll.py:634-651 | whatever is served is a media file of the cache folder whose name contains the reference |

## Left out

- `authenticate` (lines 25-40): its result is an input, one boolean per channel.
- The season-listing process (lines 72-140): its launch, the `0` written to its input, the
  reader threads and the 30-second kill loop are left out. Its output text is an input.
- The per-season process (lines 208-216): its 60-second timeout and its errors are left out.
  They appear only as `None` outputs, which skip the season.
- The download process (lines 603-626): its output, logging and `communicate(timeout=300)` are
  left out. A timeout there raises out of `download`; the model's tool always answers.
- Threads: the jellyfin `daemon` thread (lines 384-385) and the preload thread (lines 509-519)
  are concurrency. The preload is modelled by the reference it would download.
- Flask plumbing: `send_file` and `abort` are the values `SendFile` and `Abort`. `Response`,
  `streams` and `remux_streams` relay live media and are left out. `cleanup_frag_files` deletes
  directories and is left out.
- Module-level loading of the configuration and channel files (lines 324-380) is left out. Its
  values are the `Config` value and the channel list.
- `sanitize` comes from a module that is not part of this model. It is a function parameter.
- `folders().make_clean_folder` comes from a module that is not part of this model. It is not
  assumed to change any file.
- Logging is left out. So is `to_strm`'s constant `True` result.
- `os.listdir` order is unspecified: a listing is a given sequence. `os.path.join` is the POSIX
  join.
- A missing cache folder makes `os.listdir` raise. This is left out.
- Series.SeriesId: requires that a `series` segment is not the last segment. On such a URL the
  source raises an uncaught `IndexError`.
- GetVideosPass.GetVideos: requires, for an authenticated channel, that a series id is found.
  With a `None` in the command list, the `' '.join(command)` of the log line at line 83 raises
  `TypeError`, and nothing catches it.
- ToStrm.Run and ToStrm.SyncChannel: require `CanList` for every channel, for the same two
  reasons.
- ToStrm.PlaceholderUrl, ToStrm.PlaceholderReference and ToStrm.PreloadIsLastPlaceholder: state
  nothing for a channel with a rule on `url`. Such a rule changes the placeholder's URL but
  not the preloaded reference, which the source builds from the unmutated ids.
- ToStrm.EpisodePlaceholderPath and ToStrm.PlaceholderPath: state nothing for a channel with a
  rule on a name field. Such a rule can move a placeholder to any folder or name.
- Materialize.SplitReferenceJoin and ToStrm.PlaceholderReference: require a series id without
  `_`. With one, the first `_` falls inside the series id and `download` asks for the wrong
  episode.
- An empty channel entry: `Crunchyroll("")` sets no attributes (lines 18-21), so reading
  `channel_folder` at line 398 raises `AttributeError`. The model gives such an entry the empty
  folder name instead of the crash.
- A `mutate_values` rule missing `field`, `value` or `replace` raises `KeyError` (lines
  452-454), and a rule whose value is not a string never matches a field. `Settings.Rule` holds
  three strings, so neither case arises in the model.
- EpisodeLines.EpisodeWithSeason and EpisodeLines.TitleAfterSeason: require a season part
  `<k>` without `-`. A dash there can put another ` - ` before the title, and such lines are
  not covered.
- SeasonPass.SeasonLineFields: requires a non-empty title. A line with an empty title also
  reads back, but it is not covered.
- The `ep.get(..., default)` fallbacks at lines 422 and 438: the records always carry
  `season_name`, so the defaults never apply and are not modelled.
- The `try`/`except` around each line's parse (lines 237-298): no line that passes the
  checks can raise inside it, so the handler is not modelled.
