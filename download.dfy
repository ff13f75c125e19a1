/** `download` and `direct`: turning a placeholder's reference back into a media file, from the
    cache folder when a matching file is there, otherwise by running the downloader once.
    The downloader is an oracle from its argument list to its exit code and the cache folder's
    listing afterwards; `abort(code)` and `None` are values of `Outcome`. */
module Materialize {
  import opened PyStr
  import opened Wrappers
  import opened Settings
  import opened Series

  /** `id.split('_', 1)` unpacked into two names: a reference without `_` yields one part, the
      unpacking raises and the handler reports it. */
  function SplitReference(ref: string): (r: Option<(string, string)>)
    ensures r.None? <==> '_' !in ref
    ensures r.Some? ==> ref == r.value.0 + "_" + r.value.1 && '_' !in r.value.0
  {
    var parts := SplitN(ref, "_", 1);
    ContainsChar(parts[0], '_');
    if |parts| == 2 then
      assert parts[1..] == [parts[1]];
      Some((parts[0], parts[1]))
    else
      None
  }

  /** Two texts cut at their first `_` agree on both sides. */
  lemma FirstUnderscore(a: string, b: string, c: string, d: string)
    requires '_' !in a && '_' !in c && a + "_" + b == c + "_" + d
    ensures a == c && b == d
  {
    var s := a + "_" + b;
    assert |a| == |c| by {
      assert s[|a|] == '_' && s[|c|] == '_';
    }
    assert a == s[..|a|] && c == s[..|c|];
    assert b == s[|a| + 1..] && d == s[|c| + 1..];
  }

  /** A reference built as `series_id + "_" + episode_id` splits back into its two parts
      whenever the series id holds no `_`. */
  lemma SplitReferenceJoin(series: string, episode: string)
    requires '_' !in series
    ensures SplitReference(series + "_" + episode) == Some((series, episode))
  {
    var ref := series + "_" + episode;
    assert ref[|series|] == '_';
    var r := SplitReference(ref);
    FirstUnderscore(r.value.0, r.value.1, series, episode);
  }

  /** `os.path.join(a, b)` on POSIX paths. */
  function PathJoin(a: string, b: string): string {
    if StartsWith(b, "/") then b
    else if a == [] || EndsWith(a, "/") then a + b
    else a + "/" + b
  }

  /** `filename.endswith('.mp4') or filename.endswith('.mkv')`. */
  predicate IsMedia(name: string) {
    EndsWith(name, ".mp4") || EndsWith(name, ".mkv")
  }

  /** A cached file for `ref`: a media file whose name contains the reference. */
  predicate Cached(ref: string, name: string) {
    Contains(name, ref) && IsMedia(name)
  }

  /** The position of the first cached file for `ref` at or after `from` in a listing. */
  function FirstCached(ref: string, names: seq<string>, from: nat): (r: Option<nat>)
    ensures r.Some? ==> from <= r.value < |names| && Cached(ref, names[r.value])
    ensures forall j :: from <= j < |names| && (r.None? || j < r.value) ==> !Cached(ref, names[j])
    decreases |names| - from
  {
    if from >= |names| then None
    else if Cached(ref, names[from]) then Some(from)
    else FirstCached(ref, names, from + 1)
  }

  /** The path of the first cached file in a listing of `dir`, if any. */
  function CachedPath(dir: string, ref: string, names: seq<string>): Option<string> {
    match FirstCached(ref, names, 0)
    case Some(i) => Some(PathJoin(dir, names[i]))
    case None => None
  }

  /** The scan of the cache folder: the first listed name that matches, then stop. */
  method ScanCache(dir: string, ref: string, names: seq<string>) returns (found: Option<string>)
    ensures found == CachedPath(dir, ref, names)
  {
    for i := 0 to |names|
      invariant FirstCached(ref, names, 0) == FirstCached(ref, names, i)
    {
      if Contains(names[i], ref) && (EndsWith(names[i], ".mp4") || EndsWith(names[i], ".mkv")) {
        return Some(PathJoin(dir, names[i]));
      }
    }
    return None;
  }

  /** The downloader's arguments before `set_proxy`: series, dub language, subtitles, locale,
      best quality, the episode, and the output file named after the reference. */
  function BaseDownloadArgs(cfg: Config, tempDir: string, series: string, episode: string, ref: string): seq<string> {
    ["node", cfg.toolPath, "--service", "crunchy", "--series", series,
     "--dubLang", DubFor(cfg.audioLanguage), "--dlsubs", SubtitleArg(cfg), "--locale", ValidLocale(cfg),
     "--tsd", "-q", "0", "-e", episode, "--fileName", PathJoin(tempDir, ref)]
  }

  /** The whole command, proxy arguments included. */
  function DownloadCommand(cfg: Config, tempDir: string, series: string, episode: string, ref: string): (cmd: seq<string>)
    ensures |cmd| == 19 + |ProxyArgs(cfg)|
  {
    BaseDownloadArgs(cfg, tempDir, series, episode, ref) + ProxyArgs(cfg)
  }

  /** What `download` hands back: `abort(code)`, `None`, `send_file(path)` or the path itself. */
  datatype Outcome = Abort(code: nat) | NoFile | SendFile(path: string) | FileReady(path: string)

  /** A failure: an HTTP abort when a file was asked for, `None` otherwise. */
  function Failed(returnFile: bool, code: nat): Outcome {
    if returnFile then Abort(code) else NoFile
  }

  /** A success: the file sent, or its path returned. */
  function Served(returnFile: bool, path: string): Outcome {
    if returnFile then SendFile(path) else FileReady(path)
  }

  /** One call of `download`: its outcome and the downloader command it ran, if it ran one. */
  datatype Run = Run(outcome: Outcome, command: Option<seq<string>>)

  /** `os.path.join(os.getcwd(), 'temp')`. */
  function TempDir(cwd: string): string {
    PathJoin(cwd, "temp")
  }

  /** `download(ref, return_file)` given the working directory, the cache listing before the
      call and the downloader oracle. */
  function Downloaded(cfg: Config, cwd: string, ref: string, returnFile: bool, listing: seq<string>,
                      tool: seq<string> -> (int, seq<string>)): Run {
    var temp := TempDir(cwd);
    match SplitReference(ref)
    case None => Run(Failed(returnFile, 400), None)
    case Some((series, episode)) =>
      match CachedPath(temp, ref, listing)
      case Some(path) => Run(Served(returnFile, path), None)
      case None =>
        var cmd := DownloadCommand(cfg, temp, series, episode, ref);
        var (code, after) := tool(cmd);
        if code != 0 then Run(Failed(returnFile, 500), Some(cmd))
        else match CachedPath(temp, ref, after)
          case Some(path) => Run(Served(returnFile, path), Some(cmd))
          case None => Run(Failed(returnFile, 404), Some(cmd))
  }

  /** `download`, step by step: split, scan, build the command in place, run, rescan. */
  method Download(cfg: Config, cwd: string, ref: string, returnFile: bool, listing: seq<string>,
                  tool: seq<string> -> (int, seq<string>))
    returns (outcome: Outcome, command: Option<seq<string>>)
    ensures Run(outcome, command) == Downloaded(cfg, cwd, ref, returnFile, listing, tool)
  {
    var tempDir := PathJoin(cwd, "temp");
    var parts := SplitReference(ref);
    if parts.None? {
      return Failed(returnFile, 400), None;
    }
    var (series, episode) := parts.value;
    command := None;
    var existing := ScanCache(tempDir, ref, listing);
    if existing.None? {
      var args := new CommandLine(BaseDownloadArgs(cfg, tempDir, series, episode, ref));
      SetProxy(cfg, args);
      command := Some(args.args);
      var (code, after) := tool(args.args);
      if code != 0 {
        return Failed(returnFile, 500), command;
      }
      existing := ScanCache(tempDir, ref, after);
      if existing.None? {
        return Failed(returnFile, 404), command;
      }
    }
    outcome := Served(returnFile, existing.value);
  }

  /** `direct(id)`: `download(id)` with the file sent back. */
  method Direct(cfg: Config, cwd: string, ref: string, listing: seq<string>, tool: seq<string> -> (int, seq<string>))
    returns (outcome: Outcome, command: Option<seq<string>>)
    ensures Run(outcome, command) == Downloaded(cfg, cwd, ref, true, listing, tool)
  {
    outcome, command := Download(cfg, cwd, ref, true, listing, tool);
  }

  /** A malformed reference, and only that, ends the call before any scan or download:
      400 (or `None`) with no command run. */
  lemma MalformedReference(cfg: Config, cwd: string, ref: string, returnFile: bool, listing: seq<string>,
                           tool: seq<string> -> (int, seq<string>))
    ensures var r := Downloaded(cfg, cwd, ref, returnFile, listing, tool);
      '_' !in ref <==> r.outcome == Failed(returnFile, 400) && r.command.None?
  {
  }

  /** A file already cached is served without running the downloader. */
  lemma CacheHit(cfg: Config, cwd: string, ref: string, returnFile: bool, listing: seq<string>,
                 tool: seq<string> -> (int, seq<string>), i: nat)
    requires '_' in ref && i < |listing| && Cached(ref, listing[i])
    requires forall j :: 0 <= j < i ==> !Cached(ref, listing[j])
    ensures Downloaded(cfg, cwd, ref, returnFile, listing, tool)
      == Run(Served(returnFile, PathJoin(TempDir(cwd), listing[i])), None)
  {
    var r := FirstCached(ref, listing, 0);
    assert r == Some(i);
  }

  /** Without a cached file the downloader runs once, with the two halves of the reference; a
      non-zero exit is a 500, a zero exit with no matching file afterwards a 404
      (`DownloadServes` gives the zero exit with a matching file). */
  lemma DownloadRuns(cfg: Config, cwd: string, series: string, episode: string, returnFile: bool,
                     listing: seq<string>, tool: seq<string> -> (int, seq<string>))
    requires '_' !in series
    requires forall j :: 0 <= j < |listing| ==> !Cached(series + "_" + episode, listing[j])
    ensures var ref := series + "_" + episode;
      var cmd := DownloadCommand(cfg, TempDir(cwd), series, episode, ref);
      var r := Downloaded(cfg, cwd, ref, returnFile, listing, tool);
      && r.command == Some(cmd)
      && cmd[5] == series && cmd[16] == episode && cmd[18] == PathJoin(TempDir(cwd), ref)
      && (tool(cmd).0 != 0 ==> r.outcome == Failed(returnFile, 500))
      && (tool(cmd).0 == 0 && (forall j :: 0 <= j < |tool(cmd).1| ==> !Cached(ref, tool(cmd).1[j]))
          ==> r.outcome == Failed(returnFile, 404))
  {
    SplitReferenceJoin(series, episode);
  }

  /** Without a cached file beforehand, a zero exit serves the first file of the rescanned
      cache folder that matches the reference. */
  lemma DownloadServes(cfg: Config, cwd: string, series: string, episode: string, returnFile: bool,
                       listing: seq<string>, tool: seq<string> -> (int, seq<string>), i: nat)
    requires '_' !in series
    requires forall j :: 0 <= j < |listing| ==> !Cached(series + "_" + episode, listing[j])
    requires var ref := series + "_" + episode;
      var after := tool(DownloadCommand(cfg, TempDir(cwd), series, episode, ref)).1;
      && tool(DownloadCommand(cfg, TempDir(cwd), series, episode, ref)).0 == 0
      && i < |after| && Cached(ref, after[i])
      && forall j :: 0 <= j < i ==> !Cached(ref, after[j])
    ensures var ref := series + "_" + episode;
      var cmd := DownloadCommand(cfg, TempDir(cwd), series, episode, ref);
      Downloaded(cfg, cwd, ref, returnFile, listing, tool)
        == Run(Served(returnFile, PathJoin(TempDir(cwd), tool(cmd).1[i])), Some(cmd))
  {
    var ref := series + "_" + episode;
    SplitReferenceJoin(series, episode);
    var after := tool(DownloadCommand(cfg, TempDir(cwd), series, episode, ref)).1;
    assert FirstCached(ref, after, 0) == Some(i);
  }

  /** Whatever is served is a media file of the cache folder whose name contains the reference. */
  lemma ServedIsCached(cfg: Config, cwd: string, ref: string, returnFile: bool, listing: seq<string>,
                       tool: seq<string> -> (int, seq<string>))
    ensures var o := Downloaded(cfg, cwd, ref, returnFile, listing, tool).outcome;
      (o.SendFile? || o.FileReady?) ==>
        exists name :: Cached(ref, name) && o.path == PathJoin(TempDir(cwd), name)
  {
    var temp := TempDir(cwd);
    var o := Downloaded(cfg, cwd, ref, returnFile, listing, tool).outcome;
    if (o.SendFile? || o.FileReady?) && SplitReference(ref).Some? {
      var (series, episode) := SplitReference(ref).value;
      var names := if CachedPath(temp, ref, listing).Some? then listing
        else tool(DownloadCommand(cfg, temp, series, episode, ref)).1;
      var i := FirstCached(ref, names, 0).value;
      assert Cached(ref, names[i]) && o.path == PathJoin(temp, names[i]);
    }
  }
}
