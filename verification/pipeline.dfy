/**
 * The routes together: upload → trim → edit/export/subtitles/voiceover, with
 * analytics and metadata on the ledger. Properties here hold across every route.
 */
module Pipeline {
  import opened Wrappers
  import opened JsValue
  import opened Storage
  import opened Routing
  import Ledger
  import Srt
  import UploadRoute
  import TrimRoute
  import TextRoute
  import BlurRoute
  import ArrowRoute
  import ExportRoute
  import SubtitlesRoute
  import VoiceoverRoute
  import AnalyticsRoute
  import MetadataRoute

  datatype Request =
    | Upload(video: UploadRoute.FormEntry)
    | Trim(trim: TrimRoute.Request)
    | Text(text: TextRoute.Request)
    | Blur(blur: BlurRoute.Request)
    | Arrow(arrow: ArrowRoute.Request)
    | Export(exportId: Value)
    | Subtitles(subtitlesId: Value)
    | Voiceover(voiceover: VoiceoverRoute.Request)
    | Analytics(analytics: AnalyticsRoute.Request)
    | Metadata(metadata: MetadataRoute.Request)

  /**
   * Everything a request's outcome depends on besides the state: number-to-string
   * conversion, the fresh id and clock, and how each outside call ends.
   */
  datatype Env = Env(
    show: real -> string,
    freshId: string,
    now: string,
    ffmpegOk: bool,
    whisperOk: bool,
    whisperWrote: bool,
    transcript: SubtitlesRoute.Transcript,
    apiKey: Option<string>,
    tts: VoiceoverRoute.TtsOutcome)

  /** Analytics divides by the addressed entry's duration, which must therefore not be zero. */
  predicate Divisible(w: World, req: Request, env: Env) {
    req.Analytics? && AnalyticsRoute.Addressed(w, req.analytics, env.show) ==>
      w.ledger.value[Interp(req.analytics.videoId, env.show)].duration != 0.0
  }

  function Handle(w: World, req: Request, env: Env): (o: Outcome)
    requires Divisible(w, req, env)
    ensures o.world.files >= w.files
  {
    match req
    case Upload(v) => UploadRoute.Handle(w, v, env.freshId)
    case Trim(r) => TrimRoute.Handle(w, r, env.show, env.freshId, env.now, env.ffmpegOk)
    case Text(r) => TextRoute.Handle(w, r, env.show, env.ffmpegOk)
    case Blur(r) => BlurRoute.Handle(w, r, env.show, env.ffmpegOk)
    case Arrow(r) => ArrowRoute.Handle(w, r, env.show, env.ffmpegOk)
    case Export(id) => ExportRoute.Handle(w, id, env.show, env.ffmpegOk)
    case Subtitles(id) => SubtitlesRoute.Handle(w, id, env.show, env.ffmpegOk, env.whisperOk, env.whisperWrote, env.transcript)
    case Voiceover(r) => VoiceoverRoute.Handle(w, r, env.show, env.apiKey, env.tts, env.ffmpegOk)
    case Analytics(r) => AnalyticsRoute.Handle(w, r, env.show)
    case Metadata(r) => MetadataRoute.Handle(w, r, env.show)
  }

  /** The directories a route may add files to. */
  function Stages(req: Request): set<Dir> {
    match req
    case Upload(_) => {Raw}
    case Trim(_) => {Trimmed}
    case Text(_) => {Edited}
    case Blur(_) => {Edited}
    case Arrow(_) => {Edited}
    case Export(_) => {Exports}
    case Subtitles(_) => {Audio, Dir.Subtitles}
    case Voiceover(_) => {Voiceovers, Edited}
    case Analytics(_) => {}
    case Metadata(_) => {}
  }

  /** Files added within `extra`, whose directories all lie in `dirs`, lie in `dirs`. */
  lemma Within(before: set<Locator>, after: set<Locator>, extra: set<Locator>, dirs: set<Dir>)
    requires after <= before + extra
    requires forall l :: l in extra ==> l.dir in dirs
    ensures forall l :: l in after && l !in before ==> l.dir in dirs
  {
  }

  /** Every file a request adds lies in its own stage's directories; analytics and metadata add none. */
  lemma WritesOnlyOwnStage(w: World, req: Request, env: Env)
    requires Divisible(w, req, env)
    ensures forall l :: l in Handle(w, req, env).world.files && l !in w.files ==> l.dir in Stages(req)
  {
    if req.Upload? || req.Trim? {
      IngestStages(w, req, env);
    } else if req.Text? || req.Blur? || req.Arrow? || req.Export? {
      EditStages(w, req, env);
    } else if req.Subtitles? || req.Voiceover? {
      ToolStages(w, req, env);
    }
  }

  lemma IngestStages(w: World, req: Request, env: Env)
    requires req.Upload? || req.Trim?
    ensures forall l :: l in Handle(w, req, env).world.files && l !in w.files ==> l.dir in Stages(req)
  {
    var o := Handle(w, req, env);
    if req.Upload? {
      Within(w.files, o.world.files, {RawVideo(env.freshId)}, Stages(req));
    } else {
      Within(w.files, o.world.files, {TrimmedVideo(env.freshId)}, Stages(req));
    }
  }

  lemma EditStages(w: World, req: Request, env: Env)
    requires req.Text? || req.Blur? || req.Arrow? || req.Export?
    ensures forall l :: l in Handle(w, req, env).world.files && l !in w.files ==> l.dir in Stages(req)
  {
    var o := Handle(w, req, env);
    match req
    case Text(r) =>
      Within(w.files, o.world.files, {TextRoute.Output(Interp(r.videoId, env.show))}, Stages(req));
    case Blur(r) =>
      Within(w.files, o.world.files, {BlurRoute.Output(Interp(r.videoId, env.show))}, Stages(req));
    case Arrow(r) =>
      Within(w.files, o.world.files, {ArrowRoute.Output(Interp(r.videoId, env.show))}, Stages(req));
    case Export(id) =>
      Within(w.files, o.world.files, {ExportRoute.Output(Interp(id, env.show))}, Stages(req));
  }

  lemma ToolStages(w: World, req: Request, env: Env)
    requires req.Subtitles? || req.Voiceover?
    ensures forall l :: l in Handle(w, req, env).world.files && l !in w.files ==> l.dir in Stages(req)
  {
    var o := Handle(w, req, env);
    match req
    case Subtitles(id) =>
      var v := Interp(id, env.show);
      Within(w.files, o.world.files,
        {SubtitlesRoute.AudioOut(v), SubtitlesRoute.JsonOut(v), SubtitlesRoute.SrtOut(v)}, Stages(req));
    case Voiceover(r) =>
      var v := Interp(r.videoId, env.show);
      Within(w.files, o.world.files, {VoiceoverRoute.SpeechOut(v), VoiceoverRoute.Output(v)}, Stages(req));
  }

  /** The artifact a request works from. */
  function Source(req: Request, show: real -> string): Option<Locator> {
    match req
    case Upload(_) => None
    case Trim(r) => Some(RawVideo(Interp(r.videoId, show)))
    case Text(r) => Some(TrimmedVideo(Interp(r.videoId, show)))
    case Blur(r) => Some(TrimmedVideo(Interp(r.videoId, show)))
    case Arrow(r) => Some(TrimmedVideo(Interp(r.videoId, show)))
    case Export(id) => Some(TrimmedVideo(Interp(id, show)))
    case Subtitles(id) => Some(TrimmedVideo(Interp(id, show)))
    case Voiceover(r) => Some(TrimmedVideo(Interp(r.videoId, show)))
    case Analytics(_) => None
    case Metadata(_) => None
  }

  /** No stage succeeds without the output of the stage before it: trim needs the upload, the rest the trim. */
  lemma SuccessNeedsSource(w: World, req: Request, env: Env)
    requires Divisible(w, req, env)
    requires Handle(w, req, env).response.Reply?
    ensures Source(req, env.show).Some? ==> Source(req, env.show).value in w.files
  {
  }

  /** Only trim adds ledger entries or creates the ledger; every other route keeps its key set. */
  lemma OnlyTrimAddsEntries(w: World, req: Request, env: Env)
    requires Divisible(w, req, env) && !req.Trim?
    ensures var l := Handle(w, req, env).world.ledger;
      l.Some? == w.ledger.Some? && (l.Some? ==> l.value.Keys == w.ledger.value.Keys)
  {
  }

  /**
   * The ledger agrees with storage: each entry is keyed by its own id, points at
   * its trimmed file by URL, and that file exists.
   */
  predicate Consistent(w: World) {
    w.ledger.Some? ==>
      forall k :: k in w.ledger.value ==>
        && w.ledger.value[k].id == k
        && w.ledger.value[k].filePath == Url(TrimmedVideo(k))
        && TrimmedVideo(k) in w.files
  }

  /** Every route keeps the ledger consistent with storage. */
  lemma ConsistencyPreserved(w: World, req: Request, env: Env)
    requires Divisible(w, req, env) && Consistent(w)
    ensures Consistent(Handle(w, req, env).world)
  {
    if req.Trim? {
      TrimConsistent(w, req, env);
    } else if req.Analytics? || req.Metadata? {
      LedgerRouteConsistent(w, req, env);
    }
  }

  lemma TrimConsistent(w: World, req: Request, env: Env)
    requires req.Trim? && Consistent(w)
    ensures Consistent(Handle(w, req, env).world)
  {
    var o := Handle(w, req, env);
    if o.response.Reply? {
      var l := o.world.ledger.value;
      forall k | k in l
        ensures l[k].id == k && l[k].filePath == Url(TrimmedVideo(k)) && TrimmedVideo(k) in o.world.files
      {
        if k != env.freshId {
          assert k in w.ledger.GetOr(map[]);
        }
      }
    }
  }

  lemma LedgerRouteConsistent(w: World, req: Request, env: Env)
    requires (req.Analytics? || req.Metadata?) && Divisible(w, req, env) && Consistent(w)
    ensures Consistent(Handle(w, req, env).world)
  {
    var o := Handle(w, req, env);
    if o.response.Reply? {
      var l := o.world.ledger.value;
      forall k | k in l
        ensures l[k].id == k && l[k].filePath == Url(TrimmedVideo(k)) && TrimmedVideo(k) in o.world.files
      {
        assert k in w.ledger.value;
      }
    }
  }

  /** A request that fails a validation or existence guard (400 or 404) changes nothing and does nothing. */
  lemma GuardFailureIsInert(w: World, req: Request, env: Env)
    requires Divisible(w, req, env)
    requires Handle(w, req, env).response.Error? && Handle(w, req, env).response.status in {400, 404}
    requires !req.Voiceover? || Handle(w, req, env).response.error in {"Missing videoId or text", "Video not found"}
    ensures Handle(w, req, env).world == w && Handle(w, req, env).effects == []
  {
  }

  /** A recording just uploaded can be trimmed: the trim finds it and, if ffmpeg succeeds, replies with the cut. */
  lemma UploadThenTrim(w: World, env: Env, start: real, end: real, env2: Env)
    requires |env.freshId| > 0 && env2.show == env.show
    ensures var up := Handle(w, Upload(UploadRoute.FileEntry), env);
      var req := Trim(TrimRoute.Request(Str(env.freshId), Number(start), Number(end)));
      env2.ffmpegOk ==> Handle(up.world, req, env2).response == Reply(TrimBody(env2.freshId))
  {
    var up := Handle(w, Upload(UploadRoute.FileEntry), env);
    assert RawVideo(env.freshId) in up.world.files;
    var r := TrimRoute.Request(Str(env.freshId), Number(start), Number(end));
    assert TrimRoute.Valid(r) && Interp(r.videoId, env2.show) == env.freshId;
  }

  /** A video just trimmed can be exported: the export finds the cut the trim made. */
  lemma TrimThenExport(w: World, r: TrimRoute.Request, env: Env, env2: Env)
    requires TrimRoute.Valid(r) && RawVideo(Interp(r.videoId, env.show)) in w.files && env.ffmpegOk
    requires |env.freshId| > 0 && env2.show == env.show && env2.ffmpegOk
    ensures var t := Handle(w, Trim(r), env);
      var e := Handle(t.world, Export(Str(env.freshId)), env2);
      e.response == Reply(Mp4Body(Url(ExportRoute.Output(env.freshId))))
  {
    var t := Handle(w, Trim(r), env);
    assert t.response.Reply?;
    assert TrimmedVideo(env.freshId) in t.world.files;
    assert Interp(Str(env.freshId), env2.show) == env.freshId;
  }
}
