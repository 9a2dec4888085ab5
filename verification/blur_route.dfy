/**
 * `POST /api/edit/blur`: blurs a rectangle of a trimmed video, optionally only on
 * a time window, writing `edited/<id>-blur.webm`.
 */
module BlurRoute {
  import opened Wrappers
  import opened JsValue
  import opened Storage
  import opened Routing
  import opened FilterGraph

  /** The `-filter_complex` argument as the route writes it, around the time condition `tc`. */
  function BlurFilter(w: string, h: string, x: string, y: string, tc: string): string {
    "[0:v]crop=" + w + ":" + h + ":" + x + ":" + y + ",boxblur=10" + tc
      + "[blurred];[0:v][blurred]overlay=" + x + ":" + y + tc
  }

  /**
   * The structure that string encodes: crop the rectangle out of the input and blur
   * it into `[blurred]`, then overlay `[blurred]` on the input at the rectangle's corner.
   */
  function BlurGraph(w: string, h: string, x: string, y: string, time: seq<Arg>): seq<Chain> {
    [Chain(["0:v"], [Filter("crop", [Pos(w), Pos(h), Pos(x), Pos(y)]), Filter("boxblur", [Pos("10")] + time)],
           ["blurred"], ","),
     Chain(["0:v", "blurred"], [Filter("overlay", [Pos(x), Pos(y)] + time)], [], ",")]
  }

  /**
   * The filter string is the graph above; the overlay is placed where the crop was
   * taken, it overlays the very stream the blur produced, and the blur and the overlay
   * are enabled on the same window, present exactly when both ends were given.
   */
  lemma BlurStructure(w: string, h: string, x: string, y: string, start: Value, end: Value, show: real -> string)
    ensures var g := BlurGraph(w, h, x, y, TimeArgs(start, end, show));
      && BlurFilter(w, h, x, y, TimeCondition(start, end, show)) == Render(g)
      && Positional(g[0].filters[0].args) == [w, h, x, y]
      && Positional(g[1].filters[0].args) == [x, y]
      && g[1].inputs[1] == g[0].outputs[0]
      && Named(g[0].filters[1].args, "enable") == Named(g[1].filters[0].args, "enable")
      && Named(g[1].filters[0].args, "enable")
         == if start != Undefined && end != Undefined
            then Some("'between(t," + Spliced(start, show) + "," + Spliced(end, show) + ")'")
            else None
  {
    BlurRenderingAt(w, h, x, y, start, end, show);
    BlurOptions(w, h, x, y, start, end, show);
  }

  lemma BlurRenderingAt(w: string, h: string, x: string, y: string, start: Value, end: Value, show: real -> string)
    ensures BlurFilter(w, h, x, y, TimeCondition(start, end, show)) == Render(BlurGraph(w, h, x, y, TimeArgs(start, end, show)))
  {
    var t := TimeArgs(start, end, show);
    RenderWithTime([Pos("10")], start, end, show);
    RenderWithTime([Pos(x), Pos(y)], start, end, show);
    BlurRendering(w, h, x, y, t, TimeCondition(start, end, show));
  }

  lemma BlurOptions(w: string, h: string, x: string, y: string, start: Value, end: Value, show: real -> string)
    ensures var g := BlurGraph(w, h, x, y, TimeArgs(start, end, show));
      && Positional(g[0].filters[0].args) == [w, h, x, y]
      && Positional(g[1].filters[0].args) == [x, y]
      && g[1].inputs[1] == g[0].outputs[0]
      && Named(g[0].filters[1].args, "enable") == Named(g[1].filters[0].args, "enable")
      && Named(g[1].filters[0].args, "enable")
         == if start != Undefined && end != Undefined
            then Some("'between(t," + Spliced(start, show) + "," + Spliced(end, show) + ")'")
            else None
  {
    var t := TimeArgs(start, end, show);
    PositionalAppend([Pos(x), Pos(y)], t);
    assert Positional(t) == [] by {
      if |t| == 1 { assert t[1..] == []; }
    }
    NamedEnable([Pos("10")], start, end, show);
    NamedEnable([Pos(x), Pos(y)], start, end, show);
  }

  lemma BlurRendering(w: string, h: string, x: string, y: string, t: seq<Arg>, tc: string)
    requires RenderArgs([Pos("10")] + t) == "10" + tc
    requires RenderArgs([Pos(x), Pos(y)] + t) == x + ":" + y + tc
    ensures BlurFilter(w, h, x, y, tc) == Render(BlurGraph(w, h, x, y, t))
  {
    var g := BlurGraph(w, h, x, y, t);
    var crop := [Pos(w), Pos(h), Pos(x), Pos(y)];
    RenderArgsCons(crop[0], crop[1..]);
    RenderArgsCons(crop[1], crop[2..]);
    RenderArgsCons(crop[2], crop[3..]);
    assert crop[1..][1..] == crop[2..] && crop[2..][1..] == crop[3..];
    assert RenderArgs(crop) == w + ":" + (h + ":" + (x + ":" + y));
    var fs := g[0].filters;
    assert RenderFilters(fs[1..], ",") == RenderFilter(fs[1]);
    assert RenderFilters(fs, ",") == RenderFilter(fs[0]) + "," + RenderFilter(fs[1]);
    assert RenderPads(["0:v"]) == "[" + "0:v" + "]";
    assert RenderPads(["blurred"]) == "[" + "blurred" + "]";
    assert RenderPads(["0:v", "blurred"]) == "[" + "0:v" + "]" + RenderPads(["blurred"]);
    assert RenderFilters(g[1].filters, ",") == "overlay" + "=" + (x + ":" + y + tc);
    assert RenderChain(g[1]) == RenderPads(["0:v", "blurred"]) + RenderFilters(g[1].filters, ",");
    assert Render(g) == RenderChain(g[0]) + ";" + Render(g[1..]);
    assert Render(g[1..]) == RenderChain(g[1]);
    BlurPieces();
    SplitAssoc("[0:v]crop=", w, ":", h, x, y, ",boxblur=10", tc, "[blurred]", ";", "[0:v][blurred]overlay=");
    FirstChainAssoc(w, h, x, y, tc, "[", "0:v", "]", "crop", "=", ":", ",", "boxblur", "10", "blurred");
    SecondChainAssoc(x, y, tc, "[", "0:v", "]", "blurred", "overlay", "=", ":");
  }

  // The lemmas below only split the template's string literals and regroup its
  // concatenations, so that each step of the rendering proofs stays small.

  lemma BlurPieces()
    ensures "[0:v]crop=" == "[" + "0:v" + "]" + "crop" + "="
    ensures ",boxblur=10" == "," + "boxblur" + "=" + "10"
    ensures "[blurred];[0:v][blurred]overlay=" == "[blurred]" + ";" + "[0:v][blurred]overlay="
    ensures "[blurred]" == "[" + "blurred" + "]"
    ensures "[0:v][blurred]overlay=" == "[" + "0:v" + "]" + "[" + "blurred" + "]" + "overlay" + "="
  {
  }

  lemma SplitAssoc(a: string, w: string, colon: string, h: string, x: string, y: string, b: string, tc: string,
    c1: string, semi: string, c2: string)
    ensures a + w + colon + h + colon + x + colon + y + b + tc + (c1 + semi + c2) + x + colon + y + tc
         == (a + w + colon + h + colon + x + colon + y + b + tc + c1) + semi + (c2 + x + colon + y + tc)
  {
  }

  lemma FirstChainAssoc(w: string, h: string, x: string, y: string, tc: string,
    lb: string, v0: string, rb: string, crop: string, eq: string, colon: string, comma: string,
    boxblur: string, ten: string, blurred: string)
    ensures (lb + v0 + rb + crop + eq) + w + colon + h + colon + x + colon + y + (comma + boxblur + eq + ten) + tc
            + (lb + blurred + rb)
         == (lb + v0 + rb) + ((crop + eq + (w + colon + (h + colon + (x + colon + y)))) + comma
              + (boxblur + eq + (ten + tc))) + (lb + blurred + rb)
  {
  }

  lemma SecondChainAssoc(x: string, y: string, tc: string,
    lb: string, v0: string, rb: string, blurred: string, overlay: string, eq: string, colon: string)
    ensures (lb + v0 + rb + lb + blurred + rb + overlay + eq) + x + colon + y + tc
         == (lb + v0 + rb + (lb + blurred + rb)) + (overlay + eq + (x + colon + y + tc))
  {
  }

  function Output(id: string): Locator {
    Locator(Edited, id + "-blur.webm")
  }

  /** The ffmpeg invocation: blur the region, re-encode the video to VP9, copy the audio. */
  function Directive(id: string, filter: string): (d: Routing.Directive)
    ensures d.inputs == [TrimmedVideo(id)] && d.output == Output(id)
    ensures ReadsPath(d.args, FsPath(TrimmedVideo(id))) && WritesPath(d.args, FsPath(Output(id)))
    ensures HasOption(d.args, "-filter_complex", filter)
  {
    var args := ["-y", "-i", FsPath(TrimmedVideo(id)), "-filter_complex", filter,
                 "-c:v", "libvpx-vp9", "-c:a", "copy", FsPath(Output(id))];
    HasOptionAt(args, 1, "-i", FsPath(TrimmedVideo(id)));
    HasOptionAt(args, 3, "-filter_complex", filter);
    Routing.Directive("ffmpeg", args, [TrimmedVideo(id)], Output(id))
  }

  datatype Request = Request(videoId: Value, x: Value, y: Value, width: Value, height: Value, start: Value, end: Value)

  predicate Valid(req: Request) {
    Truthy(req.videoId) && req.x.Number? && req.y.Number? && req.width.Number? && req.height.Number?
  }

  function FilterFor(req: Request, show: real -> string): string {
    BlurFilter(Interp(req.width, show), Interp(req.height, show), Interp(req.x, show), Interp(req.y, show),
               TimeCondition(req.start, req.end, show))
  }

  /** Guards in order: 400 unless the id is truthy and the rectangle is numeric, then 404; then ffmpeg runs. */
  function Handle(w: World, req: Request, show: real -> string, ffmpegOk: bool): (o: Outcome)
    ensures w.files <= o.world.files <= w.files + {Output(Interp(req.videoId, show))}
    ensures Status(o.response) == 400 <==> !Valid(req)
    ensures Status(o.response) == 404 <==> Valid(req) && TrimmedVideo(Interp(req.videoId, show)) !in w.files
    ensures o.response.Error? ==> o.world == w && o.effects == []
    ensures o.world.ledger == w.ledger
    ensures o.response.Reply? <==> Valid(req) && TrimmedVideo(Interp(req.videoId, show)) in w.files && ffmpegOk
    ensures o.response.Reply? ==>
      var id := Interp(req.videoId, show);
      && o.response.body == EditedBody(Url(Output(id)), Some("Blur applied successfully"))
      && o.world.files == w.files + {Output(id)}
      && o.effects == [Run(Directive(id, FilterFor(req, show)))]
  {
    if !Valid(req) then Reject(w, 400, "Missing or invalid parameters")
    else
      var id := Interp(req.videoId, show);
      if TrimmedVideo(id) !in w.files then Reject(w, 404, "Video not found")
      else
        var d := Directive(id, FilterFor(req, show));
        if !ffmpegOk then Outcome(Thrown, w, [Run(d)])
        else Outcome(Reply(EditedBody(Url(Output(id)), Some("Blur applied successfully"))), AfterRun(w, d, true), [Run(d)])
  }
}
