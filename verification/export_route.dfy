/** `POST /api/export/mp4`: re-encodes a trimmed video to an H.264/AAC MP4 under `exports/`. */
module ExportRoute {
  import opened JsValue
  import opened Storage
  import opened Routing

  function Output(id: string): Locator {
    Locator(Exports, id + ".mp4")
  }

  /** The ffmpeg invocation: read the trimmed WebM, write the MP4, overwriting any earlier export. */
  function Directive(id: string): (d: Routing.Directive)
    ensures d.inputs == [TrimmedVideo(id)] && d.output == Output(id)
    ensures ReadsPath(d.args, FsPath(TrimmedVideo(id))) && WritesPath(d.args, FsPath(Output(id)))
    ensures HasOption(d.args, "-c:v", "libx264") && HasOption(d.args, "-c:a", "aac")
  {
    var args := ["-y", "-i", FsPath(TrimmedVideo(id)), "-c:v", "libx264", "-c:a", "aac", FsPath(Output(id))];
    HasOptionAt(args, 1, "-i", FsPath(TrimmedVideo(id)));
    HasOptionAt(args, 3, "-c:v", "libx264");
    HasOptionAt(args, 5, "-c:a", "aac");
    Routing.Directive("ffmpeg", args, [TrimmedVideo(id)], Output(id))
  }

  /** Guards in order: 400 for a falsy id, 404 for a missing trimmed video; then ffmpeg runs. */
  function Handle(w: World, videoId: Value, show: real -> string, ffmpegOk: bool): (o: Outcome)
    ensures w.files <= o.world.files <= w.files + {Output(Interp(videoId, show))}
    ensures Status(o.response) == 400 <==> !Truthy(videoId)
    ensures Status(o.response) == 404 <==> Truthy(videoId) && TrimmedVideo(Interp(videoId, show)) !in w.files
    ensures o.response.Error? ==> o.world == w && o.effects == []
    ensures o.world.ledger == w.ledger
    ensures o.response.Reply? <==> Truthy(videoId) && TrimmedVideo(Interp(videoId, show)) in w.files && ffmpegOk
    ensures o.response.Reply? ==>
      var id := Interp(videoId, show);
      && o.response.body == Mp4Body(Url(Output(id)))
      && o.world.files == w.files + {Output(id)}
      && o.effects == [Run(Directive(id))]
  {
    if !Truthy(videoId) then Reject(w, 400, "Missing videoId")
    else
      var id := Interp(videoId, show);
      if TrimmedVideo(id) !in w.files then Reject(w, 404, "Source video not found")
      else
        var d := Directive(id);
        if !ffmpegOk then Outcome(Thrown, w, [Run(d)])
        else Outcome(Reply(Mp4Body(Url(Output(id)))), AfterRun(w, d, true), [Run(d)])
  }
}
