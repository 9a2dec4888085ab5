/**
 * `POST /api/subtitles`: extracts a trimmed video's audio with ffmpeg, transcribes
 * it with whisper, and converts whisper's JSON transcript to `subtitles/<id>.srt`.
 */
module SubtitlesRoute {
  import opened Wrappers
  import opened JsValue
  import opened Storage
  import opened Routing
  import opened JsText
  import opened Srt

  /**
   * What whisper leaves in `subtitles/<id>.json`: `segments` is `None` when the
   * document has no `segments` array.
   */
  datatype Transcript = Transcript(segments: Option<seq<Segment>>)

  function AudioOut(id: string): Locator { Locator(Audio, id + ".wav") }
  function JsonOut(id: string): Locator { Locator(Subtitles, id + ".json") }
  function SrtOut(id: string): Locator { Locator(Subtitles, id + ".srt") }

  /** Step 1: the audio track as 16 kHz mono 16-bit PCM, without the video. */
  function ExtractDirective(id: string): (d: Routing.Directive)
    ensures d.inputs == [TrimmedVideo(id)] && d.output == AudioOut(id)
    ensures ReadsPath(d.args, FsPath(TrimmedVideo(id))) && WritesPath(d.args, FsPath(AudioOut(id)))
    ensures "-vn" in d.args && HasOption(d.args, "-ar", "16000") && HasOption(d.args, "-ac", "1")
    ensures HasOption(d.args, "-acodec", "pcm_s16le")
  {
    var args := ["-y", "-i", FsPath(TrimmedVideo(id)), "-vn", "-acodec", "pcm_s16le", "-ar", "16000", "-ac", "1",
                 FsPath(AudioOut(id))];
    HasOptionAt(args, 1, "-i", FsPath(TrimmedVideo(id)));
    HasOptionAt(args, 4, "-acodec", "pcm_s16le");
    HasOptionAt(args, 6, "-ar", "16000");
    HasOptionAt(args, 8, "-ac", "1");
    Routing.Directive("ffmpeg", args, [TrimmedVideo(id)], AudioOut(id))
  }

  /**
   * Step 2: whisper's base English model on the extracted audio. Whisper names its
   * JSON output after the audio file, in the subtitles directory.
   */
  function WhisperDirective(id: string): (d: Routing.Directive)
    ensures d.inputs == [AudioOut(id)] && d.output == JsonOut(id)
    ensures |d.args| > 0 && d.args[0] == FsPath(AudioOut(id))
    ensures HasOption(d.args, "--model", "base") && HasOption(d.args, "--language", "en")
    ensures HasOption(d.args, "--output_format", "json") && HasOption(d.args, "--output_dir", DirPath(Subtitles))
  {
    var args := [FsPath(AudioOut(id)), "--model", "base", "--output_format", "json",
                 "--output_dir", DirPath(Subtitles), "--language", "en"];
    HasOptionAt(args, 1, "--model", "base");
    HasOptionAt(args, 3, "--output_format", "json");
    HasOptionAt(args, 5, "--output_dir", DirPath(Subtitles));
    HasOptionAt(args, 7, "--language", "en");
    Routing.Directive("whisper", args, [AudioOut(id)], JsonOut(id))
  }

  /** The SRT text for a transcript: its segments' cues, or nothing when it has no segment array. */
  function SrtFor(t: Transcript): string {
    SrtDocument(t.segments.GetOr([]))
  }

  /** Without a segment array the file is empty; with one it holds the segments' cues in order. */
  lemma SrtForCues(t: Transcript)
    ensures t.segments.None? ==> SrtFor(t) == ""
    ensures t.segments.Some? ==> SrtFor(t) == Concat(Cues(t.segments.value))
  {
    SrtDocumentCues(t.segments.GetOr([]));
  }

  const WhisperMissing := "Whisper output not found. Make sure Whisper is installed: pip install openai-whisper"

  /**
   * Guards in order: 400 for a falsy id, 404 for a missing trimmed video. Then the
   * two tools run, and a failure of either is an uncaught rejection. `whisperWrote`
   * says whether whisper produced `subtitles/<id>.json`; the route answers 500 only
   * when that file exists neither from this run nor from an earlier one. Otherwise
   * `transcript` is what the route reads from the file, its SRT is written and its
   * URL returned.
   */
  function Handle(w: World, videoId: Value, show: real -> string, extractOk: bool, whisperOk: bool,
    whisperWrote: bool, transcript: Transcript): (o: Outcome)
    ensures w.files <= o.world.files <= w.files + {AudioOut(Interp(videoId, show)), JsonOut(Interp(videoId, show)), SrtOut(Interp(videoId, show))}
    ensures Status(o.response) == 400 <==> !Truthy(videoId)
    ensures Status(o.response) == 404 <==> Truthy(videoId) && TrimmedVideo(Interp(videoId, show)) !in w.files
    ensures Status(o.response) < 500 && o.response.Error? ==> o.world == w && o.effects == []
    ensures o.world.ledger == w.ledger
    ensures o.response.Thrown? <==>
      Truthy(videoId) && TrimmedVideo(Interp(videoId, show)) in w.files && !(extractOk && whisperOk)
    ensures o.response == Error(500, WhisperMissing) <==>
      && Truthy(videoId) && TrimmedVideo(Interp(videoId, show)) in w.files && extractOk && whisperOk
      && !whisperWrote && JsonOut(Interp(videoId, show)) !in w.files
    ensures o.response == Error(500, WhisperMissing) ==>
      o.world.files == w.files + {AudioOut(Interp(videoId, show))}
    ensures o.response.Reply? <==>
      && Truthy(videoId) && TrimmedVideo(Interp(videoId, show)) in w.files && extractOk && whisperOk
      && (whisperWrote || JsonOut(Interp(videoId, show)) in w.files)
    ensures o.response.Reply? ==>
      var id := Interp(videoId, show);
      && o.response.body == SrtBody(Url(SrtOut(id)), Some("Subtitles generated successfully"))
      && o.world.files == w.files + {AudioOut(id), JsonOut(id), SrtOut(id)}
      && o.effects == [Run(ExtractDirective(id)), Run(WhisperDirective(id)),
                       Write(SrtOut(id), Some(SrtFor(transcript)))]
  {
    if !Truthy(videoId) then Reject(w, 400, "Missing videoId")
    else
      var id := Interp(videoId, show);
      if TrimmedVideo(id) !in w.files then Reject(w, 404, "Video not found")
      else
        var extract := ExtractDirective(id);
        if !extractOk then Outcome(Thrown, w, [Run(extract)])
        else
          var w1 := AfterRun(w, extract, true);
          var whisper := WhisperDirective(id);
          if !whisperOk then Outcome(Thrown, w1, [Run(extract), Run(whisper)])
          else
            var w2 := AfterRun(w1, whisper, whisperWrote);
            if JsonOut(id) !in w2.files then Outcome(Error(500, WhisperMissing), w2, [Run(extract), Run(whisper)])
            else
              Outcome(Reply(SrtBody(Url(SrtOut(id)), Some("Subtitles generated successfully"))),
                      w2.(files := w2.files + {SrtOut(id)}),
                      [Run(extract), Run(whisper), Write(SrtOut(id), Some(SrtFor(transcript)))])
  }

  /** A JSON file left by an earlier run is read even when whisper writes none this time. */
  lemma LeftoverTranscriptIsRead(w: World, id: string, show: real -> string, transcript: Transcript)
    requires |id| > 0 && TrimmedVideo(id) in w.files && JsonOut(id) in w.files
    ensures Handle(w, Str(id), show, true, true, false, transcript).response
         == Reply(SrtBody(Url(SrtOut(id)), Some("Subtitles generated successfully")))
  {
  }

  /** Whisper reads exactly the file the extraction step writes, and the SRT file is served at the returned URL. */
  lemma StepsConnect(id: string)
    ensures WhisperDirective(id).inputs[0] == ExtractDirective(id).output
    ensures WhisperDirective(id).args[0] == FsPath(ExtractDirective(id).output)
    ensures ParseUrl(Url(SrtOut(id))) == Some(SrtOut(id))
  {
    UrlRoundTrip(SrtOut(id));
  }
}
