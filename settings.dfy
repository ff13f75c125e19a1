/** The plugin's configuration, read once when the module loads and never changed
    afterwards: here an immutable value passed to every operation. */
module Settings {

  /** One entry of a channel's `mutate_values` list: when `field` holds `value`, set it to `replace`. */
  datatype Rule = Rule(field: string, value: string, replace: string)

  datatype Config = Config(
    mediaFolder: string,                  // strm_output_folder
    subtitleLanguage: string,             // crunchyroll_subtitle_language ("" when unset)
    audioLanguage: string,                // crunchyroll_audio_language
    toolPath: string,                     // multi_downloader_path
    proxy: bool,                          // truthiness of the `proxy` setting (false when absent)
    proxyUrl: string,                     // proxy_url ("" when absent)
    host: string,                         // ytdlp2strm_host
    port: string,                         // ytdlp2strm_port, as `format` prints it
    preloadLastEpisode: bool,             // jellyfin_preload_last_episode
    mutateValues: map<string, seq<Rule>>  // mutation rules per channel entry
  )

  /** Subtitle language tag to the downloader's locale. */
  const LocaleMap: map<string, string> := map[
    "ja-JP" := "und", "es-ES" := "es-ES", "es-419" := "es-419", "en-US" := "en-US",
    "pt-BR" := "pt-BR", "fr-FR" := "fr-FR", "de-DE" := "de-DE"]

  /** Audio language tag to the downloader's dub language. */
  const DubMap: map<string, string> := map[
    "ja-JP" := "jpn", "es-ES" := "spa-ES", "es-419" := "spa-419", "en-US" := "eng",
    "pt-BR" := "por", "fr-FR" := "fra", "de-DE" := "deu"]

  /** `locale_map.get(tag, 'en-US')`: a supported tag passes through, except that
      Japanese asks for the undetermined (original) locale; anything else falls back to en-US. */
  function LocaleFor(tag: string): (r: string)
    ensures tag in LocaleMap && tag != "ja-JP" ==> r == tag
    ensures tag == "ja-JP" ==> r == "und"
    ensures tag !in LocaleMap ==> r == "en-US"
  {
    if tag in LocaleMap then LocaleMap[tag] else "en-US"
  }

  /** `dub_map.get(tag, 'jpn')`: each supported tag has its own dub code; anything else is Japanese. */
  function DubFor(tag: string): (r: string)
    ensures tag in DubMap ==> r == DubMap[tag]
    ensures tag !in DubMap ==> r == "jpn"
    ensures tag == "ja-JP" ==> r == "jpn"
    ensures forall other :: other in DubMap && tag in DubMap && other != tag ==> DubMap[other] != r
  {
    if tag in DubMap then DubMap[tag] else "jpn"
  }

  /** `valid_locale`, computed once from the subtitle language. */
  function ValidLocale(cfg: Config): string {
    LocaleFor(cfg.subtitleLanguage)
  }

  /** `subtitle_language if subtitle_language else 'all'`. */
  function SubtitleArg(cfg: Config): (r: string)
    ensures r != ""
    ensures cfg.subtitleLanguage != "" ==> r == cfg.subtitleLanguage
    ensures cfg.subtitleLanguage == "" ==> r == "all"
  {
    if cfg.subtitleLanguage != "" then cfg.subtitleLanguage else "all"
  }
}
