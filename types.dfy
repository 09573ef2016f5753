/** The three record types the downloader, the history store and the CLI share:
    the options of one download, the application configuration and a download
    event, each with its defaults. */
module Types {
  import opened Wrappers
  import opened Values

  /** The three `Literal` annotations of `DownloadOptions`. Python does not
      enforce them: the command line, the environment and the configuration
      file hand over any string, so each enumeration has a last case that
      carries a value outside the annotation as it was given. */
  datatype AudioFormat = M4a | Mp3 | Opus | OtherAudio(name: string)
  datatype VideoFormat = Mp4 | Webm | OtherVideo(name: string)
  datatype Quality = Best | Q1080p | Q720p | AudioQuality | OtherQuality(name: string)

  function AudioFormatName(f: AudioFormat): string {
    match f
    case M4a => "m4a"
    case Mp3 => "mp3"
    case Opus => "opus"
    case OtherAudio(name) => name
  }

  function VideoFormatName(f: VideoFormat): string {
    match f
    case Mp4 => "mp4"
    case Webm => "webm"
    case OtherVideo(name) => name
  }

  function QualityName(q: Quality): string {
    match q
    case Best => "best"
    case Q1080p => "1080p"
    case Q720p => "720p"
    case AudioQuality => "audio"
    case OtherQuality(name) => name
  }

  /** The member a string names: an annotated one, else the string itself. */
  function AudioFormatOf(s: string): (f: AudioFormat)
    ensures AudioFormatName(f) == s
  {
    if s == "m4a" then M4a else if s == "mp3" then Mp3 else if s == "opus" then Opus else OtherAudio(s)
  }

  function VideoFormatOf(s: string): (f: VideoFormat)
    ensures VideoFormatName(f) == s
  {
    if s == "mp4" then Mp4 else if s == "webm" then Webm else OtherVideo(s)
  }

  function QualityOf(s: string): (q: Quality)
    ensures QualityName(q) == s
  {
    if s == "best" then Best else if s == "1080p" then Q1080p else if s == "720p" then Q720p
    else if s == "audio" then AudioQuality else OtherQuality(s)
  }

  /** Reading the name of an annotated member gives the member back, and a
      string outside the annotation is kept as it is. */
  lemma NamesRoundTrip(s: string)
    ensures !AudioFormatOf(s).OtherAudio? <==> s in {"m4a", "mp3", "opus"}
    ensures !VideoFormatOf(s).OtherVideo? <==> s in {"mp4", "webm"}
    ensures !QualityOf(s).OtherQuality? <==> s in {"best", "1080p", "720p", "audio"}
    ensures forall f: AudioFormat :: !f.OtherAudio? ==> AudioFormatOf(AudioFormatName(f)) == f
    ensures forall f: VideoFormat :: !f.OtherVideo? ==> VideoFormatOf(VideoFormatName(f)) == f
    ensures forall q: Quality :: !q.OtherQuality? ==> QualityOf(QualityName(q)) == q
  {
  }

  /** Distinct annotated members have distinct names, so comparing names is
      comparing members. */
  lemma NamesAreDistinct()
    ensures forall a: AudioFormat, b: AudioFormat :: !a.OtherAudio? && !b.OtherAudio? && AudioFormatName(a) == AudioFormatName(b) ==> a == b
    ensures forall a: VideoFormat, b: VideoFormat :: !a.OtherVideo? && !b.OtherVideo? && VideoFormatName(a) == VideoFormatName(b) ==> a == b
    ensures forall a: Quality, b: Quality :: !a.OtherQuality? && !b.OtherQuality? && QualityName(a) == QualityName(b) ==> a == b
  {
  }

  /** The options of one download. Paths are kept as strings. */
  datatype DownloadOptions = DownloadOptions(
    url: string,
    outputDir: string,
    audioOnly: bool,
    audioFormat: AudioFormat,
    videoFormat: VideoFormat,
    quality: Quality,
    nameTemplate: string,
    subtitles: seq<string>,
    proxy: Option<string>,
    retry: int,
    retryDelay: real,
    saveMetadata: Option<string>,
    dryRun: bool,
    playlist: bool,
    playlistItems: Option<string>,
    customFormat: Option<string>,
    filePrefix: Option<string>,
    qualitySuffix: Option<string>,
    overwrite: bool)

  const DefaultNameTemplate := "%(title)s [%(id)s].%(ext)s"

  /** `DownloadOptions(url=url)`: every field but the url takes its default. */
  function NewDownloadOptions(url: string): (o: DownloadOptions)
    ensures o.url == url
    ensures o.outputDir == "downloads" && o.audioFormat == M4a && o.videoFormat == Mp4
    ensures o.quality == Best && o.nameTemplate == DefaultNameTemplate && o.subtitles == []
    ensures o.retry == 3 && o.retryDelay == 5.0 && o.saveMetadata == Some("data/meta.jsonl")
    ensures !o.audioOnly && !o.dryRun && !o.playlist && !o.overwrite && o.proxy.None?
    ensures o.playlistItems.None? && o.customFormat.None? && o.filePrefix.None? && o.qualitySuffix.None?
  {
    DownloadOptions(url, "downloads", false, M4a, Mp4, Best, DefaultNameTemplate, [], None,
                    3, 5.0, Some("data/meta.jsonl"), false, false, None, None, None, None, false)
  }

  /** The fields of `AppConfig`. */
  datatype ConfigKey =
    | Output | QualityKey | VideoFormatKey | AudioOnly | AudioFormatKey | NameTemplate
    | Subtitles | Proxy | Retry | RetryDelay | SaveMetadata | HistoryDb
    | PauseBetweenVideos | PauseKey | ResumeKey

  /** The fields in declaration order, the order `asdict` lists them in. */
  const ConfigKeys: seq<ConfigKey> := [
    Output, QualityKey, VideoFormatKey, AudioOnly, AudioFormatKey, NameTemplate,
    Subtitles, Proxy, Retry, RetryDelay, SaveMetadata, HistoryDb,
    PauseBetweenVideos, PauseKey, ResumeKey]

  lemma ConfigKeysComplete(k: ConfigKey)
    ensures k in ConfigKeys
  {
  }

  function KeyName(k: ConfigKey): string {
    match k
    case Output => "output"
    case QualityKey => "quality"
    case VideoFormatKey => "video_format"
    case AudioOnly => "audio_only"
    case AudioFormatKey => "audio_format"
    case NameTemplate => "name_template"
    case Subtitles => "subtitles"
    case Proxy => "proxy"
    case Retry => "retry"
    case RetryDelay => "retry_delay"
    case SaveMetadata => "save_metadata"
    case HistoryDb => "history_db"
    case PauseBetweenVideos => "pause_between_videos"
    case PauseKey => "pause_key"
    case ResumeKey => "resume_key"
  }

  /** The field a keyword argument of `replace` names, `None` when `AppConfig`
      has no such field. */
  function KeyOf(name: string): (r: Option<ConfigKey>)
    ensures r.Some? ==> KeyName(r.value) == name
    ensures r.None? ==> forall k :: KeyName(k) != name
  {
    if name == "output" then Some(Output)
    else if name == "quality" then Some(QualityKey)
    else if name == "video_format" then Some(VideoFormatKey)
    else if name == "audio_only" then Some(AudioOnly)
    else if name == "audio_format" then Some(AudioFormatKey)
    else if name == "name_template" then Some(NameTemplate)
    else if name == "subtitles" then Some(Subtitles)
    else if name == "proxy" then Some(Proxy)
    else if name == "retry" then Some(Retry)
    else if name == "retry_delay" then Some(RetryDelay)
    else if name == "save_metadata" then Some(SaveMetadata)
    else if name == "history_db" then Some(HistoryDb)
    else if name == "pause_between_videos" then Some(PauseBetweenVideos)
    else if name == "pause_key" then Some(PauseKey)
    else if name == "resume_key" then Some(ResumeKey)
    else None
  }

  /** The application configuration. Fields hold untyped values, since
      `dataclasses.replace` stores whatever it is given. */
  datatype AppConfig = AppConfig(
    output: Value, quality: Value, videoFormat: Value, audioOnly: Value, audioFormat: Value,
    nameTemplate: Value, subtitles: Value, proxy: Value, retry: Value, retryDelay: Value,
    saveMetadata: Value, historyDb: Value, pauseBetweenVideos: Value, pauseKey: Value,
    resumeKey: Value)
  {
    /** `getattr(cfg, KeyName(k))` */
    function Get(k: ConfigKey): Value {
      match k
      case Output => output
      case QualityKey => quality
      case VideoFormatKey => videoFormat
      case AudioOnly => audioOnly
      case AudioFormatKey => audioFormat
      case NameTemplate => nameTemplate
      case Subtitles => subtitles
      case Proxy => proxy
      case Retry => retry
      case RetryDelay => retryDelay
      case SaveMetadata => saveMetadata
      case HistoryDb => historyDb
      case PauseBetweenVideos => pauseBetweenVideos
      case PauseKey => pauseKey
      case ResumeKey => resumeKey
    }

    /** `replace(cfg, **{KeyName(k): v})` */
    function Set(k: ConfigKey, v: Value): (c: AppConfig)
      ensures c.Get(k) == v
      ensures forall j :: j != k ==> c.Get(j) == Get(j)
    {
      match k
      case Output => this.(output := v)
      case QualityKey => this.(quality := v)
      case VideoFormatKey => this.(videoFormat := v)
      case AudioOnly => this.(audioOnly := v)
      case AudioFormatKey => this.(audioFormat := v)
      case NameTemplate => this.(nameTemplate := v)
      case Subtitles => this.(subtitles := v)
      case Proxy => this.(proxy := v)
      case Retry => this.(retry := v)
      case RetryDelay => this.(retryDelay := v)
      case SaveMetadata => this.(saveMetadata := v)
      case HistoryDb => this.(historyDb := v)
      case PauseBetweenVideos => this.(pauseBetweenVideos := v)
      case PauseKey => this.(pauseKey := v)
      case ResumeKey => this.(resumeKey := v)
    }
  }

  /** The configuration whose field `k` holds `f(k)`. */
  function Build(f: ConfigKey -> Value): (c: AppConfig)
    ensures forall k :: c.Get(k) == f(k)
  {
    AppConfig(f(Output), f(QualityKey), f(VideoFormatKey), f(AudioOnly), f(AudioFormatKey),
              f(NameTemplate), f(Subtitles), f(Proxy), f(Retry), f(RetryDelay),
              f(SaveMetadata), f(HistoryDb), f(PauseBetweenVideos), f(PauseKey), f(ResumeKey))
  }

  /** Two configurations that agree on every field are equal. */
  lemma ConfigExtensional(a: AppConfig, b: AppConfig)
    requires forall k :: a.Get(k) == b.Get(k)
    ensures a == b
  {
    AgreeOnOutput(a, b);
    AgreeOnFormat(a, b);
    AgreeOnHistory(a, b);
  }

  /** Configurations that agree on every field agree on the download fields. */
  lemma AgreeOnOutput(a: AppConfig, b: AppConfig)
    requires forall k :: a.Get(k) == b.Get(k)
    ensures a.output == b.output && a.quality == b.quality && a.videoFormat == b.videoFormat && a.audioOnly == b.audioOnly && a.audioFormat == b.audioFormat
  {
    assert a.Get(Output) == b.Get(Output);
    assert a.Get(QualityKey) == b.Get(QualityKey);
    assert a.Get(VideoFormatKey) == b.Get(VideoFormatKey);
    assert a.Get(AudioOnly) == b.Get(AudioOnly);
    assert a.Get(AudioFormatKey) == b.Get(AudioFormatKey);
  }

  /** Configurations that agree on every field agree on the naming and retry fields. */
  lemma AgreeOnFormat(a: AppConfig, b: AppConfig)
    requires forall k :: a.Get(k) == b.Get(k)
    ensures a.nameTemplate == b.nameTemplate && a.subtitles == b.subtitles && a.proxy == b.proxy && a.retry == b.retry && a.retryDelay == b.retryDelay
  {
    assert a.Get(NameTemplate) == b.Get(NameTemplate);
    assert a.Get(Subtitles) == b.Get(Subtitles);
    assert a.Get(Proxy) == b.Get(Proxy);
    assert a.Get(Retry) == b.Get(Retry);
    assert a.Get(RetryDelay) == b.Get(RetryDelay);
  }

  /** Configurations that agree on every field agree on the storage and pause fields. */
  lemma AgreeOnHistory(a: AppConfig, b: AppConfig)
    requires forall k :: a.Get(k) == b.Get(k)
    ensures a.saveMetadata == b.saveMetadata && a.historyDb == b.historyDb && a.pauseBetweenVideos == b.pauseBetweenVideos && a.pauseKey == b.pauseKey && a.resumeKey == b.resumeKey
  {
    assert a.Get(SaveMetadata) == b.Get(SaveMetadata);
    assert a.Get(HistoryDb) == b.Get(HistoryDb);
    assert a.Get(PauseBetweenVideos) == b.Get(PauseBetweenVideos);
    assert a.Get(PauseKey) == b.Get(PauseKey);
    assert a.Get(ResumeKey) == b.Get(ResumeKey);
  }

  /** `AppConfig()` */
  function DefaultConfig(): (c: AppConfig)
    ensures c.historyDb == VPath("data/history.db") && c.pauseBetweenVideos == VBool(false)
    ensures c.pauseKey == VStr("p") && c.resumeKey == VStr("r")
  {
    AppConfig(VPath("downloads"), VStr("best"), VStr("mp4"), VBool(false), VStr("m4a"),
              VStr(DefaultNameTemplate), VList([]), VNone, VInt(3), VFloat(5.0, "5.0"),
              VPath("data/meta.jsonl"), VPath("data/history.db"), VBool(false), VStr("p"), VStr("r"))
  }

  /** The value `AppConfig` stores for an option of `DownloadOptions`. */
  function OptionText(o: Option<string>): Value {
    if o.Some? then VStr(o.value) else VNone
  }

  /** The defaults of `AppConfig` are those of `DownloadOptions` for every field
      the two share, with the enumerations as their names. */
  lemma ConfigDefaultsMirrorOptions(url: string)
    ensures var c, o := DefaultConfig(), NewDownloadOptions(url);
      && c.output == VPath(o.outputDir)
      && c.quality == VStr(QualityName(o.quality))
      && c.videoFormat == VStr(VideoFormatName(o.videoFormat))
      && c.audioOnly == VBool(o.audioOnly)
      && c.audioFormat == VStr(AudioFormatName(o.audioFormat))
      && c.nameTemplate == VStr(o.nameTemplate)
      && c.subtitles == VList([]) && o.subtitles == []
      && c.proxy == OptionText(o.proxy)
      && c.retry == VInt(o.retry)
      && c.retryDelay.r == o.retryDelay
      && c.saveMetadata == VPath(o.saveMetadata.value)
  {
  }

  /** One download event to record in the history. Timestamps are ISO 8601
      strings. */
  datatype DownloadEvent = DownloadEvent(
    videoId: string,
    url: string,
    title: Option<string>,
    status: string,
    startedAt: Option<string>,
    finishedAt: Option<string>,
    filePath: Option<string>,
    error: Option<string>,
    playlistId: Option<string>,
    playlistTitle: Option<string>,
    metadata: Option<Value>,
    metadataPath: Option<string>)

  /** `DownloadEvent(video_id, url, title, status)`: the four leading fields have
      no default, every other field is `None`. */
  function NewEvent(videoId: string, url: string, title: Option<string>, status: string): (e: DownloadEvent)
    ensures e.videoId == videoId && e.url == url && e.title == title && e.status == status
    ensures e.startedAt.None? && e.finishedAt.None? && e.filePath.None? && e.error.None?
    ensures e.playlistId.None? && e.playlistTitle.None? && e.metadata.None? && e.metadataPath.None?
  {
    DownloadEvent(videoId, url, title, status, None, None, None, None, None, None, None, None)
  }
}
