/**
 * `POST /api/voiceover`: has ElevenLabs speak a text, saves the speech as
 * `voiceovers/<id>.mp3`, and muxes it over a trimmed video's picture into
 * `edited/<id>-voiceover.webm`.
 */
module VoiceoverRoute {
  import opened Wrappers
  import opened JsText
  import opened JsValue
  import opened Storage
  import opened Routing

  datatype Request = Request(videoId: Value, text: Value, voiceId: Value)

  /**
   * How the text-to-speech call ended: `Failed` when `fetch`, reading the audio or
   * saving it threw (all inside the route's `try`), otherwise the HTTP status.
   */
  datatype TtsOutcome = Failed | Answered(status: int)

  /** `response.ok`. */
  predicate Ok(status: int) {
    200 <= status <= 299
  }

  const DefaultVoice := "21m00Tcm4TlvDq8ikWAM"
  const TtsEndpoint := "https://api.elevenlabs.io/v1/text-to-speech/"
  const KeyMissing := "ElevenLabs API key not configured. Add ELEVENLABS_API_KEY to your .env file"

  function SpeechOut(id: string): Locator { Locator(Voiceovers, id + ".mp3") }
  function Output(id: string): Locator { Locator(Edited, id + "-voiceover.webm") }

  /** The request to ElevenLabs: the chosen voice (Rachel by default), the turbo v2.5 model, fixed voice settings. */
  function Speech(req: Request, apiKey: string, show: real -> string): (t: TtsRequest)
    ensures t.apiKey == apiKey && t.text == req.text
    ensures Truthy(req.voiceId) ==> t.url == TtsEndpoint + Interp(req.voiceId, show)
    ensures !Truthy(req.voiceId) ==> t.url == TtsEndpoint + DefaultVoice
    ensures t.modelId == "eleven_turbo_v2_5" && t.stability == 0.5 && t.similarityBoost == 0.75
  {
    TtsRequest(TtsEndpoint + Interp(Or(req.voiceId, Str(DefaultVoice)), show), apiKey, req.text,
               "eleven_turbo_v2_5", 0.5, 0.75)
  }

  /** The mux: picture from the trimmed video, sound from the speech, as long as the shorter of the two. */
  function MuxDirective(id: string): (d: Routing.Directive)
    ensures d.inputs == [TrimmedVideo(id), SpeechOut(id)] && d.output == Output(id)
    ensures ReadsPath(d.args, FsPath(TrimmedVideo(id))) && ReadsPath(d.args, FsPath(SpeechOut(id)))
    ensures WritesPath(d.args, FsPath(Output(id)))
    ensures HasOption(d.args, "-map", "0:v:0") && HasOption(d.args, "-map", "1:a:0") && "-shortest" in d.args
    ensures HasOption(d.args, "-c:v", "copy")
  {
    var args := ["-y", "-i", FsPath(TrimmedVideo(id)), "-i", FsPath(SpeechOut(id)), "-c:v", "copy",
                 "-map", "0:v:0", "-map", "1:a:0", "-shortest", FsPath(Output(id))];
    HasOptionAt(args, 1, "-i", FsPath(TrimmedVideo(id)));
    HasOptionAt(args, 3, "-i", FsPath(SpeechOut(id)));
    HasOptionAt(args, 5, "-c:v", "copy");
    HasOptionAt(args, 7, "-map", "0:v:0");
    HasOptionAt(args, 9, "-map", "1:a:0");
    Routing.Directive("ffmpeg", args, [TrimmedVideo(id), SpeechOut(id)], Output(id))
  }

  predicate HasKey(apiKey: Option<string>) {
    apiKey.Some? && |apiKey.value| > 0
  }

  /** The guards before any outside call pass. */
  predicate Admitted(w: World, req: Request, show: real -> string, apiKey: Option<string>) {
    Truthy(req.videoId) && Truthy(req.text) && HasKey(apiKey) && TrimmedVideo(Interp(req.videoId, show)) in w.files
  }

  /**
   * Guards in order: 400 for a falsy id or text, 500 without an API key, 404 for a
   * missing trimmed video. Then the speech is requested: a thrown call is answered
   * 500, an unsuccessful status is passed on with its number; on success the speech
   * is saved and muxed, and a failing mux is an uncaught rejection.
   * `apiKey` is `ELEVENLABS_API_KEY`; `tts` and `ffmpegOk` are the outside outcomes.
   */
  function Handle(w: World, req: Request, show: real -> string, apiKey: Option<string>, tts: TtsOutcome,
    ffmpegOk: bool): (o: Outcome)
    ensures w.files <= o.world.files <= w.files + {SpeechOut(Interp(req.videoId, show)), Output(Interp(req.videoId, show))}
    ensures o.response == Error(400, "Missing videoId or text") <==> !Truthy(req.videoId) || !Truthy(req.text)
    ensures o.response == Error(500, KeyMissing) <==> Truthy(req.videoId) && Truthy(req.text) && !HasKey(apiKey)
    ensures o.response == Error(404, "Video not found") <==>
      Truthy(req.videoId) && Truthy(req.text) && HasKey(apiKey) && TrimmedVideo(Interp(req.videoId, show)) !in w.files
    ensures !Admitted(w, req, show, apiKey) ==> o.world == w && o.effects == []
    ensures o.world.ledger == w.ledger
    ensures Admitted(w, req, show, apiKey) ==> |o.effects| > 0 && o.effects[0] == Post(Speech(req, apiKey.value, show))
    ensures Admitted(w, req, show, apiKey) && tts.Answered? && !Ok(tts.status) ==>
      && o.response == Error(tts.status, "ElevenLabs API error: " + IntToString(tts.status))
      && o.world == w && o.effects == [Post(Speech(req, apiKey.value, show))]
    ensures Admitted(w, req, show, apiKey) && tts.Failed? ==>
      && o.response == Error(500, "Failed to generate voiceover")
      && o.world == w && o.effects == [Post(Speech(req, apiKey.value, show))]
    ensures Admitted(w, req, show, apiKey) && tts.Answered? && Ok(tts.status) && !ffmpegOk ==>
      var id := Interp(req.videoId, show);
      && o.response == Thrown
      && o.world.files == w.files + {SpeechOut(id)}
      && o.effects == [Post(Speech(req, apiKey.value, show)), Write(SpeechOut(id), None), Run(MuxDirective(id))]
    ensures o.response.Reply? <==> Admitted(w, req, show, apiKey) && tts.Answered? && Ok(tts.status) && ffmpegOk
    ensures o.response.Reply? ==>
      var id := Interp(req.videoId, show);
      && o.response.body == VoiceoverBody(Url(SpeechOut(id)), Url(Output(id)),
                                          Some("Voiceover generated and merged successfully"))
      && o.world.files == w.files + {SpeechOut(id), Output(id)}
      && o.effects == [Post(Speech(req, apiKey.value, show)), Write(SpeechOut(id), None), Run(MuxDirective(id))]
  {
    if !Truthy(req.videoId) || !Truthy(req.text) then Reject(w, 400, "Missing videoId or text")
    else if !HasKey(apiKey) then Reject(w, 500, KeyMissing)
    else
      var id := Interp(req.videoId, show);
      if TrimmedVideo(id) !in w.files then Reject(w, 404, "Video not found")
      else
        var post := Post(Speech(req, apiKey.value, show));
        match tts
        case Failed => Outcome(Error(500, "Failed to generate voiceover"), w, [post])
        case Answered(status) =>
          if !Ok(status) then Outcome(Error(status, "ElevenLabs API error: " + IntToString(status)), w, [post])
          else
            var w1 := w.(files := w.files + {SpeechOut(id)});
            var mux := MuxDirective(id);
            var effects := [post, Write(SpeechOut(id), None), Run(mux)];
            if !ffmpegOk then Outcome(Thrown, w1, effects)
            else Outcome(Reply(VoiceoverBody(Url(SpeechOut(id)), Url(Output(id)),
                                             Some("Voiceover generated and merged successfully"))),
                         AfterRun(w1, mux, true), effects)
  }

  /** The mux reads the speech file the route has just saved. */
  lemma MuxReadsSavedSpeech(w: World, req: Request, show: real -> string, apiKey: Option<string>, status: int,
    ffmpegOk: bool)
    requires Admitted(w, req, show, apiKey) && Ok(status)
    ensures var o := Handle(w, req, show, apiKey, Answered(status), ffmpegOk);
      && |o.effects| == 3 && o.effects[1].Write? && o.effects[2].Run?
      && o.effects[2].d.inputs[1] == o.effects[1].loc
      && o.effects[2].d.inputs[0] == TrimmedVideo(Interp(req.videoId, show))
  {
  }
}
