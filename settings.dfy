/**
 * The configuration record the engine reads: an output root, the HQ-audio
 * switch, the allowed file kinds, the concurrency limit and the proxy.
 * Keys may be missing from the stored record, hence the options.
 */
module Settings {
  import opened Util

  datatype Config = Config(
    outputDir: seq<string>,                // the output root, as path components
    hqAudioOnly: Option<bool>,
    defaultFileTypes: Option<seq<string>>,
    maxConcurrentDownloads: Option<int>,
    proxy: Option<string>)

  /** The built-in defaults `load_config` merges under a partial stored record. */
  function DefaultConfig(outputDir: seq<string>): (c: Config)
    ensures c.hqAudioOnly == Some(false)
    ensures c.defaultFileTypes == Some(["audio", "image", "text"])
    ensures c.maxConcurrentDownloads == Some(3)
  {
    Config(outputDir, Some(false), Some(["audio", "image", "text"]), Some(3), Some(""))
  }

  /** `config.get("hq_audio_only", False)`. */
  predicate HqOnly(c: Config)
  {
    c.hqAudioOnly == Some(true)
  }

  /** `set(config.get("default_file_types", ["audio"]))`. */
  function AllowedTypes(c: Config): (s: set<string>)
    ensures c.defaultFileTypes.None? ==> s == {"audio"}
    ensures c.defaultFileTypes.Some? ==> forall t :: t in s <==> t in c.defaultFileTypes.value
  {
    match c.defaultFileTypes
    case None => {"audio"}
    case Some(ts) => set t | t in ts
  }
}
