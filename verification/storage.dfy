/**
 * Where the routes keep their artifacts: one directory per pipeline stage under
 * `public/uploads`, each file named after a video id. A locator is served at the
 * URL `/uploads/<dir>/<name>` and stored at `public/uploads/<dir>/<name>` relative
 * to the server's working directory.
 */
module Storage {
  import opened Wrappers
  import JsText

  datatype Dir = Raw | Trimmed | Edited | Exports | Voiceovers | Audio | Subtitles

  function DirName(d: Dir): string {
    match d
    case Raw => "raw"
    case Trimmed => "trimmed"
    case Edited => "edited"
    case Exports => "exports"
    case Voiceovers => "voiceovers"
    case Audio => "audio"
    case Subtitles => "subtitles"
  }

  /** The directory a name denotes, if any. */
  function DirNamed(s: string): (r: Option<Dir>)
    ensures r.Some? ==> DirName(r.value) == s
  {
    if s == "raw" then Some(Raw)
    else if s == "trimmed" then Some(Trimmed)
    else if s == "edited" then Some(Edited)
    else if s == "exports" then Some(Exports)
    else if s == "voiceovers" then Some(Voiceovers)
    else if s == "audio" then Some(Audio)
    else if s == "subtitles" then Some(Subtitles)
    else None
  }

  datatype Locator = Locator(dir: Dir, name: string)

  const UploadsUrl := "/uploads/"

  /** The URL a route returns for a stored artifact. */
  function Url(l: Locator): string {
    UploadsUrl + DirName(l.dir) + "/" + l.name
  }

  /** The file-system path, relative to the working directory, an artifact is stored at. */
  function FsPath(l: Locator): string {
    "public" + Url(l)
  }

  /** The directory itself, as whisper's `--output_dir` names it. */
  function DirPath(d: Dir): string {
    "public" + UploadsUrl + DirName(d)
  }

  /** Reads a URL of the form `/uploads/<dir>/<name>` back as a locator. */
  function ParseUrl(u: string): Option<Locator> {
    if |u| < |UploadsUrl| || u[..|UploadsUrl|] != UploadsUrl then None
    else match JsText.SplitAt(u[|UploadsUrl|..], '/')
      case None => None
      case Some(parts) =>
        match DirNamed(parts.0)
        case None => None
        case Some(d) => Some(Locator(d, parts.1))
  }

  /** Every returned URL reads back as the artifact it was made from. */
  lemma UrlRoundTrip(l: Locator)
    ensures ParseUrl(Url(l)) == Some(l)
  {
    var u := Url(l);
    assert u[..|UploadsUrl|] == UploadsUrl;
    assert u[|UploadsUrl|..] == DirName(l.dir) + ['/'] + l.name;
    JsText.SplitAtJoin(DirName(l.dir), '/', l.name);
  }

  /** Distinct artifacts are served at distinct URLs. */
  lemma UrlInjective(a: Locator, b: Locator)
    requires Url(a) == Url(b)
    ensures a == b
  {
    UrlRoundTrip(a);
    UrlRoundTrip(b);
  }

  /** The path a route writes and the URL it returns name the same artifact. */
  lemma PathMatchesUrl(l: Locator)
    ensures ParseUrl(FsPath(l)[|"public"|..]) == Some(l)
  {
    assert FsPath(l)[|"public"|..] == Url(l);
    UrlRoundTrip(l);
  }

  /** Storage names the routes derive from a video id. */
  function RawVideo(id: string): Locator { Locator(Raw, id + ".webm") }
  function TrimmedVideo(id: string): Locator { Locator(Trimmed, id + ".webm") }
}
