/** The per-channel part of the `Crunchyroll` class: the fields its constructor derives
    from a channel entry, `get_series_id` and `set_proxy`. */
module Series {
  import opened PyStr
  import opened Wrappers
  import opened Settings
  import PyDict

  const SitePrefix: string := "https://www.crunchyroll.com/"

  /** What `Crunchyroll(channel)` keeps about one channel entry. The fields are assigned once,
      in the constructor, and never updated afterwards, so the object is a value here. */
  datatype Channel = Channel(entry: string, channel: string, channelUrl: string, channelFolder: string)

  /** `s.split('/')[-1]`: the text after the last slash. */
  function LastSegment(s: string): (r: string)
    ensures '/' !in r
    ensures EndsWith(s, r)
    ensures r == s || s[|s| - |r| - 1] == '/'
  {
    var parts := Split(s, '/');
    if |parts| >= 2 then JoinLast(parts, "/"); parts[|parts| - 1] else parts[0]
  }

  /** The constructor: the site prefix is removed wherever it occurs, the URL is rebuilt
      from what is left, and the folder is the last path segment. */
  function NewChannel(entry: string): (c: Channel)
    ensures c.entry == entry && c.channel == Replace(entry, SitePrefix, "")
    ensures c.channelUrl == SitePrefix + c.channel
    ensures c.channelFolder == LastSegment(c.channel)
  {
    var channel := Replace(entry, SitePrefix, "");
    Channel(entry, channel, SitePrefix + channel, LastSegment(channel))
  }

  /** A full URL and its bare path name the same channel. */
  lemma NewChannelFromUrl(path: string)
    requires !Contains(path, SitePrefix)
    ensures NewChannel(SitePrefix + path).channel == path
    ensures NewChannel(path).channel == path
    ensures NewChannel(SitePrefix + path) == NewChannel(path).(entry := SitePrefix + path)
  {
    ReplaceLeadingOnly(SitePrefix, path);
  }

  /** `part and part.startswith('G') and len(part) > 5`. */
  predicate LooksLikeSeriesId(part: string) {
    part != "" && StartsWith(part, "G") && |part| > 5
  }

  /** Position of the first part at or after `from` that looks like a series id. */
  function FirstSeriesIdLike(parts: seq<string>, from: nat): (r: Option<nat>)
    ensures r.Some? ==> from <= r.value < |parts| && LooksLikeSeriesId(parts[r.value])
    ensures forall j :: from <= j < |parts| && (r.None? || j < r.value) ==> !LooksLikeSeriesId(parts[j])
    decreases |parts| - from
  {
    if from >= |parts| then None
    else if LooksLikeSeriesId(parts[from]) then Some(from)
    else FirstSeriesIdLike(parts, from + 1)
  }

  /** The inputs on which `get_series_id` returns: a `series` segment is never the last one
      (otherwise `url_parts[series_index + 1]` raises IndexError, which nothing catches). */
  predicate SeriesIdDefined(channelUrl: string) {
    var parts := Split(channelUrl, '/');
    "series" in parts ==> PyDict.IndexOf(parts, "series") + 1 < |parts|
  }

  /** `get_series_id`: the segment after the first `series` segment; failing that, the first
      segment that looks like a series id; failing that, None. */
  function SeriesId(channelUrl: string): (r: Option<string>)
    requires SeriesIdDefined(channelUrl)
    ensures var parts := Split(channelUrl, '/');
      && (r.Some? ==> r.value in parts && '/' !in r.value)
      && ("series" in parts ==> r == Some(parts[PyDict.IndexOf(parts, "series") + 1]))
      && ("series" !in parts ==> (r.Some? ==> LooksLikeSeriesId(r.value)))
      && ("series" !in parts && r.Some? ==>
            exists k :: 0 <= k < |parts| && parts[k] == r.value &&
              forall j :: 0 <= j < k ==> !LooksLikeSeriesId(parts[j]))
      && (r.None? <==> "series" !in parts && forall k :: 0 <= k < |parts| ==> !LooksLikeSeriesId(parts[k]))
  {
    var parts := Split(channelUrl, '/');
    assert Free(parts, '/');
    if "series" in parts then
      var i := PyDict.IndexOf(parts, "series") + 1;
      assert parts[i] in parts;
      Some(parts[i])
    else match FirstSeriesIdLike(parts, 0)
      case Some(k) =>
        assert parts[k] in parts;
        assert forall j :: 0 <= j < k ==> !LooksLikeSeriesId(parts[j]);
        Some(parts[k])
      case None => None
  }

  /** A URL whose path holds a `series` segment yields the segment right after the first one. */
  lemma SeriesIdAfterSeriesSegment(before: seq<string>, id: string, after: seq<string>)
    requires Free(before, '/') && Free(after, '/') && '/' !in id
    requires "series" !in before
    ensures var url := Join(before + ["series", id] + after, "/");
      SeriesIdDefined(url) && SeriesId(url) == Some(id)
  {
    var parts := before + ["series", id] + after;
    FreeConcat(before, ["series", id], '/');
    FreeConcat(before + ["series", id], after, '/');
    var url := Join(parts, "/");
    SplitJoin(parts, '/');
    assert Split(url, '/') == parts;
    assert parts[|before|] == "series" && parts[|before| + 1] == id;
    var i := PyDict.IndexOf(parts, "series");
    assert i == |before|;
    assert SeriesIdDefined(url);
  }

  /** The arguments `set_proxy` appends: `--proxy <url>` when a proxy is on and its URL is not empty. */
  function ProxyArgs(cfg: Config): (r: seq<string>)
    ensures r != [] <==> cfg.proxy && cfg.proxyUrl != ""
    ensures r != [] ==> r == ["--proxy", cfg.proxyUrl]
  {
    if cfg.proxy && cfg.proxyUrl != "" then ["--proxy", cfg.proxyUrl] else []
  }

  /** A command line under construction: the Python list of arguments handed to the downloader. */
  class CommandLine {
    var args: seq<string>

    constructor (args: seq<string>)
      ensures this.args == args
    {
      this.args := args;
    }

    /** `list.append`. */
    method Append(arg: string)
      modifies this
      ensures args == old(args) + [arg]
    {
      args := args + [arg];
    }
  }

  /** `set_proxy`: extends the command in place with the proxy arguments, if any. */
  method SetProxy(cfg: Config, command: CommandLine)
    modifies command
    ensures command.args == old(command.args) + ProxyArgs(cfg)
  {
    if cfg.proxy {
      if cfg.proxyUrl != "" {
        command.Append("--proxy");
        command.Append(cfg.proxyUrl);
      }
    }
  }
}
