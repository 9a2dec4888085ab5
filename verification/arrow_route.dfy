/**
 * `POST /api/edit/arrow`: draws a simplified arrow on a trimmed video, a red shaft
 * starting at the tail point and a red square on the head point, optionally only
 * on a time window, writing `edited/<id>-arrow.webm`.
 */
module ArrowRoute {
  import opened Wrappers
  import opened JsMath
  import opened JsValue
  import opened Storage
  import opened Routing
  import opened FilterGraph

  // ---------------------------------------------------------------------------
  // Geometry
  // ---------------------------------------------------------------------------

  /** A filled rectangle: top-left corner, width and height, in pixels. */
  datatype Box = Box(x: real, y: real, w: real, h: real)

  /**
   * The shaft: 5 pixels high, starting at the tail, as long as the tail-to-head
   * distance rounded by `Math.round`. It is always drawn horizontally: the route
   * computes the angle of the arrow but never uses it.
   */
  function Shaft(x1: real, y1: real, x2: real, y2: real): (b: Box)
    ensures b.x == x1 && b.y == y1 && b.h == 5.0
    ensures b.w == b.w.Floor as real && b.w >= 0.0
    ensures IsRoundedRoot((x2 - x1) * (x2 - x1) + (y2 - y1) * (y2 - y1), b.w.Floor)
  {
    var dx, dy := x2 - x1, y2 - y1;
    Box(x1, y1, RoundSqrt(dx * dx + dy * dy) as real, 5.0)
  }

  /** The head: a 20 by 20 square whose centre is the head point. */
  function Head(x2: real, y2: real): (b: Box)
    ensures b.w == 20.0 && b.h == 20.0
    ensures b.x + b.w / 2.0 == x2 && b.y + b.h / 2.0 == y2
  {
    Box(x2 - 10.0, y2 - 10.0, 20.0, 20.0)
  }

  /** The shaft length depends only on the distance: swapping the endpoints keeps it. */
  lemma ShaftLengthSymmetric(x1: real, y1: real, x2: real, y2: real)
    ensures Shaft(x1, y1, x2, y2).w == Shaft(x2, y2, x1, y1).w
  {
    var q := (x2 - x1) * (x2 - x1) + (y2 - y1) * (y2 - y1);
    assert (x1 - x2) * (x1 - x2) + (y1 - y2) * (y1 - y2) == q;
  }

  /** A shaft drawn between two points that coincide has no length. */
  lemma ShaftOfPoint(x: real, y: real)
    ensures Shaft(x, y, x, y).w == 0.0
  {
    var n := Shaft(x, y, x, y).w.Floor;
    RoundedRootUnique(0.0, n, 0);
  }

  // ---------------------------------------------------------------------------
  // The filter
  // ---------------------------------------------------------------------------

  /** What stands between the two drawbox filters: a comma and the template's line break and indentation. */
  const Sep := ",          "

  /** The `-vf` argument as the route writes it, around the rendered numbers and the time condition `tc`. */
  function ArrowFilter(x1: string, y1: string, len: string, hx: string, hy: string, tc: string): string {
    "drawbox=x=" + x1 + ":y=" + y1 + ":w=" + len + ":h=5:color=red@0.8:t=fill" + tc
      + ",          drawbox=x=" + hx + ":y=" + hy + ":w=20:h=20:color=red@0.8:t=fill" + tc
  }

  /** One drawbox filter's text: a filled red box at 80% opacity. */
  function BoxText(x: string, y: string, w: string, h: string, tc: string): string {
    "drawbox=x=" + x + ":y=" + y + ":w=" + w + ":h=" + h + ":color=red@0.8:t=fill" + tc
  }

  function BoxArgs(x: string, y: string, w: string, h: string): seq<Arg> {
    [Opt("x", x), Opt("y", y), Opt("w", w), Opt("h", h), Opt("color", "red@0.8"), Opt("t", "fill")]
  }

  /** The structure the filter encodes: one chain of two drawbox filters sharing the time options. */
  function ArrowGraph(x1: string, y1: string, len: string, hx: string, hy: string, time: seq<Arg>): seq<Chain> {
    [Chain([], [Filter("drawbox", BoxArgs(x1, y1, len, "5") + time),
                Filter("drawbox", BoxArgs(hx, hy, "20", "20") + time)], [], Sep)]
  }

  /**
   * The filter string is the graph above: the first box is placed at the tail with
   * the given length and height 5, the second at the head corner with size 20, and
   * both are enabled on the same window, present exactly when both ends were given.
   */
  lemma ArrowStructure(x1: string, y1: string, len: string, hx: string, hy: string,
    start: Value, end: Value, show: real -> string)
    ensures var g := ArrowGraph(x1, y1, len, hx, hy, TimeArgs(start, end, show));
      && ArrowFilter(x1, y1, len, hx, hy, TimeCondition(start, end, show)) == Render(g)
      && |g| == 1 && |g[0].filters| == 2
      && BoxAt(g[0].filters[0].args, x1, y1, len, "5")
      && BoxAt(g[0].filters[1].args, hx, hy, "20", "20")
      && Named(g[0].filters[0].args, "enable") == Named(g[0].filters[1].args, "enable")
      && Named(g[0].filters[1].args, "enable")
         == if start != Undefined && end != Undefined
            then Some("'between(t," + Spliced(start, show) + "," + Spliced(end, show) + ")'")
            else None
  {
    ArrowRendering(x1, y1, len, hx, hy, start, end, show);
    var t := TimeArgs(start, end, show);
    BoxOptions(x1, y1, len, "5", t);
    BoxOptions(hx, hy, "20", "20", t);
    BoxNoEnable(x1, y1, len, "5");
    BoxNoEnable(hx, hy, "20", "20");
    NamedEnable(BoxArgs(x1, y1, len, "5"), start, end, show);
    NamedEnable(BoxArgs(hx, hy, "20", "20"), start, end, show);
  }

  lemma ArrowRendering(x1: string, y1: string, len: string, hx: string, hy: string,
    start: Value, end: Value, show: real -> string)
    ensures ArrowFilter(x1, y1, len, hx, hy, TimeCondition(start, end, show))
         == Render(ArrowGraph(x1, y1, len, hx, hy, TimeArgs(start, end, show)))
  {
    RenderWithTime(BoxArgs(x1, y1, len, "5"), start, end, show);
    RenderWithTime(BoxArgs(hx, hy, "20", "20"), start, end, show);
    ArrowRenderingWith(x1, y1, len, hx, hy, TimeArgs(start, end, show), TimeCondition(start, end, show));
  }

  lemma ArrowRenderingWith(x1: string, y1: string, len: string, hx: string, hy: string, t: seq<Arg>, tc: string)
    requires RenderArgs(BoxArgs(x1, y1, len, "5") + t) == RenderArgs(BoxArgs(x1, y1, len, "5")) + tc
    requires RenderArgs(BoxArgs(hx, hy, "20", "20") + t) == RenderArgs(BoxArgs(hx, hy, "20", "20")) + tc
    ensures ArrowFilter(x1, y1, len, hx, hy, tc) == Render(ArrowGraph(x1, y1, len, hx, hy, t))
  {
    BoxRendering(x1, y1, len, "5", t, tc);
    BoxRendering(hx, hy, "20", "20", t, tc);
    ArrowSplit(x1, y1, len, hx, hy, tc);
    TwoFilterChain(Filter("drawbox", BoxArgs(x1, y1, len, "5") + t), Filter("drawbox", BoxArgs(hx, hy, "20", "20") + t));
  }

  lemma TwoFilterChain(f1: Filter, f2: Filter)
    ensures Render([Chain([], [f1, f2], [], Sep)]) == RenderFilter(f1) + Sep + RenderFilter(f2)
  {
    var fs := [f1, f2];
    assert RenderFilters(fs[1..], Sep) == RenderFilter(f2);
    assert RenderChain(Chain([], fs, [], Sep)) == "" + RenderFilters(fs, Sep) + "";
  }

  /** A drawbox filter whose `x`, `y`, `w` and `h` options (its corner and size) are the given ones, filled. */
  predicate BoxAt(args: seq<Arg>, x: string, y: string, w: string, h: string) {
    && Named(args, "x") == Some(x) && Named(args, "y") == Some(y)
    && Named(args, "w") == Some(w) && Named(args, "h") == Some(h)
    && Named(args, "t") == Some("fill")
  }

  lemma BoxOptions(x: string, y: string, w: string, h: string, t: seq<Arg>)
    ensures BoxAt(BoxArgs(x, y, w, h) + t, x, y, w, h)
  {
    var a := BoxArgs(x, y, w, h) + t;
    assert a[1..][1..] == a[2..] && a[2..][1..] == a[3..] && a[3..][1..] == a[4..] && a[4..][1..] == a[5..];
    assert Named(a[5..], "t") == Some("fill");
    assert Named(a[4..], "t") == Named(a[5..], "t");
    assert Named(a[3..], "t") == Named(a[4..], "t");
    assert Named(a[2..], "t") == Named(a[3..], "t");
    assert Named(a[1..], "t") == Named(a[2..], "t");
    assert Named(a, "t") == Named(a[1..], "t");
    assert Named(a[3..], "h") == Some(h);
    assert Named(a[2..], "h") == Named(a[3..], "h");
    assert Named(a[1..], "h") == Named(a[2..], "h");
    assert Named(a, "h") == Named(a[1..], "h");
    assert Named(a[2..], "w") == Some(w);
    assert Named(a[1..], "w") == Named(a[2..], "w");
    assert Named(a, "w") == Named(a[1..], "w");
  }

  /** A drawbox option list carries no timeline option of its own. */
  lemma BoxNoEnable(x: string, y: string, w: string, h: string)
    ensures Named(BoxArgs(x, y, w, h), "enable") == None
  {
    var a := BoxArgs(x, y, w, h);
    assert Named(a[6..], "enable") == None;
    assert Named(a[5..], "enable") == Named(a[6..], "enable");
    assert Named(a[4..], "enable") == Named(a[5..], "enable");
    assert Named(a[3..], "enable") == Named(a[4..], "enable");
    assert Named(a[2..], "enable") == Named(a[3..], "enable");
    assert Named(a[1..], "enable") == Named(a[2..], "enable");
  }

  lemma ArrowSplit(x1: string, y1: string, len: string, hx: string, hy: string, tc: string)
    ensures ArrowFilter(x1, y1, len, hx, hy, tc) == BoxText(x1, y1, len, "5", tc) + Sep + BoxText(hx, hy, "20", "20", tc)
  {
    ArrowPieces();
    ArrowAssoc(x1, y1, len, hx, hy, tc, "drawbox=x=", ":y=", ":w=", ":h=", "5", "20", ":color=red@0.8:t=fill", Sep);
  }

  // The lemmas below only split the template's string literals and regroup its
  // concatenations, so that each step of the rendering proofs stays small.

  lemma ArrowPieces()
    ensures ":h=5:color=red@0.8:t=fill" == ":h=" + "5" + ":color=red@0.8:t=fill"
    ensures ",          drawbox=x=" == Sep + "drawbox=x="
    ensures ":w=20:h=20:color=red@0.8:t=fill" == ":w=" + "20" + ":h=" + "20" + ":color=red@0.8:t=fill"
  {
    ShaftPiece();
    SeparatorPiece();
    HeadPiece();
  }

  lemma ShaftPiece()
    ensures ":h=5:color=red@0.8:t=fill" == ":h=" + "5" + ":color=red@0.8:t=fill"
  {
  }

  lemma SeparatorPiece()
    ensures ",          drawbox=x=" == Sep + "drawbox=x="
  {
  }

  lemma HeadPiece()
    ensures ":w=20:h=20:color=red@0.8:t=fill" == ":w=" + "20" + ":h=" + "20" + ":color=red@0.8:t=fill"
  {
  }

  lemma ArrowAssoc(x1: string, y1: string, len: string, hx: string, hy: string, tc: string,
    head: string, ys: string, ws: string, hs: string, five: string, twenty: string, tail: string, sep: string)
    ensures head + x1 + ys + y1 + ws + len + (hs + five + tail) + tc + (sep + head) + hx + ys + hy
            + (ws + twenty + hs + twenty + tail) + tc
         == (head + x1 + ys + y1 + ws + len + hs + five + tail + tc) + sep
            + (head + hx + ys + hy + ws + twenty + hs + twenty + tail + tc)
  {
  }

  lemma BoxRendering(x: string, y: string, w: string, h: string, t: seq<Arg>, tc: string)
    requires RenderArgs(BoxArgs(x, y, w, h) + t) == RenderArgs(BoxArgs(x, y, w, h)) + tc
    ensures RenderFilter(Filter("drawbox", BoxArgs(x, y, w, h) + t)) == BoxText(x, y, w, h, tc)
  {
    BoxArgsText(x, y, w, h);
    assert "drawbox=x=" == "drawbox" + "=" + "x=";
    BoxOuterAssoc(x, y, w, h, tc, "drawbox", "=", "x=", ":y=", ":w=", ":h=", ":color=red@0.8:t=fill");
  }

  lemma BoxOuterAssoc(x: string, y: string, w: string, h: string, tc: string,
    db: string, eq: string, xs: string, ys: string, ws: string, hs: string, tail: string)
    ensures (db + eq + xs) + x + ys + y + ws + w + hs + h + tail + tc
         == db + eq + ((xs + x + ys + y + ws + w + hs + h + tail) + tc)
  {
  }

  /** The option text of a drawbox filter. */
  lemma BoxArgsText(x: string, y: string, w: string, h: string)
    ensures RenderArgs(BoxArgs(x, y, w, h)) == "x=" + x + ":y=" + y + ":w=" + w + ":h=" + h + ":color=red@0.8:t=fill"
  {
    var a := BoxArgs(x, y, w, h);
    RenderArgsCons(a[0], a[1..]);
    RenderArgsCons(a[1], a[2..]);
    RenderArgsCons(a[2], a[3..]);
    RenderArgsCons(a[3], a[4..]);
    RenderArgsCons(a[4], a[5..]);
    assert a[1..][1..] == a[2..] && a[2..][1..] == a[3..] && a[3..][1..] == a[4..] && a[4..][1..] == a[5..];
    BoxPieces();
    BoxAssoc(x, y, w, h, "x", "=", ":", "y", "w", "h", "color", "red@0.8", "t", "fill");
  }

  lemma BoxPieces()
    ensures "x=" == "x" + "="
    ensures ":y=" == ":" + "y" + "=" && ":w=" == ":" + "w" + "=" && ":h=" == ":" + "h" + "="
    ensures ":color=red@0.8:t=fill" == ":" + "color" + "=" + "red@0.8" + ":" + "t" + "=" + "fill"
  {
  }

  lemma BoxAssoc(x: string, y: string, w: string, h: string,
    xk: string, eq: string, colon: string, yk: string, wk: string, hk: string,
    ck: string, red: string, tk: string, fill: string)
    ensures (xk + eq) + x + (colon + yk + eq) + y + (colon + wk + eq) + w + (colon + hk + eq) + h
            + (colon + ck + eq + red + colon + tk + eq + fill)
         == (xk + eq + x) + colon + ((yk + eq + y) + colon + ((wk + eq + w) + colon
            + ((hk + eq + h) + colon + ((ck + eq + red) + colon + (tk + eq + fill)))))
  {
  }

  // ---------------------------------------------------------------------------
  // The directive and the route
  // ---------------------------------------------------------------------------

  function Output(id: string): Locator {
    Locator(Edited, id + "-arrow.webm")
  }

  /** The ffmpeg invocation: draw the arrow, re-encode the video to VP9, copy the audio. */
  function Directive(id: string, filter: string): (d: Routing.Directive)
    ensures d.inputs == [TrimmedVideo(id)] && d.output == Output(id)
    ensures ReadsPath(d.args, FsPath(TrimmedVideo(id))) && WritesPath(d.args, FsPath(Output(id)))
    ensures HasOption(d.args, "-vf", filter)
  {
    var args := ["-y", "-i", FsPath(TrimmedVideo(id)), "-vf", filter,
                 "-c:v", "libvpx-vp9", "-c:a", "copy", FsPath(Output(id))];
    HasOptionAt(args, 1, "-i", FsPath(TrimmedVideo(id)));
    HasOptionAt(args, 3, "-vf", filter);
    Routing.Directive("ffmpeg", args, [TrimmedVideo(id)], Output(id))
  }

  datatype Request = Request(videoId: Value, x1: Value, y1: Value, x2: Value, y2: Value, start: Value, end: Value)

  predicate Valid(req: Request) {
    Truthy(req.videoId) && req.x1.Number? && req.y1.Number? && req.x2.Number? && req.y2.Number?
  }

  /** The filter for a valid request: the numbers are rendered by JS number-to-string conversion `show`. */
  function FilterFor(req: Request, show: real -> string): string
    requires Valid(req)
  {
    var s := Shaft(req.x1.n, req.y1.n, req.x2.n, req.y2.n);
    var h := Head(req.x2.n, req.y2.n);
    ArrowFilter(show(s.x), show(s.y), show(s.w), show(h.x), show(h.y), TimeCondition(req.start, req.end, show))
  }

  /** Guards in order: 400 unless the id is truthy and both points are numeric, then 404; then ffmpeg runs. */
  function Handle(w: World, req: Request, show: real -> string, ffmpegOk: bool): (o: Outcome)
    ensures w.files <= o.world.files <= w.files + {Output(Interp(req.videoId, show))}
    ensures Status(o.response) == 400 <==> !Valid(req)
    ensures Status(o.response) == 404 <==> Valid(req) && TrimmedVideo(Interp(req.videoId, show)) !in w.files
    ensures o.response.Error? ==> o.world == w && o.effects == []
    ensures o.world.ledger == w.ledger
    ensures o.response.Reply? <==> Valid(req) && TrimmedVideo(Interp(req.videoId, show)) in w.files && ffmpegOk
    ensures o.response.Reply? ==>
      var id := Interp(req.videoId, show);
      && o.response.body == EditedBody(Url(Output(id)), Some("Arrow added successfully"))
      && o.world.files == w.files + {Output(id)}
      && o.effects == [Run(Directive(id, FilterFor(req, show)))]
  {
    if !Valid(req) then Reject(w, 400, "Missing or invalid parameters")
    else
      var id := Interp(req.videoId, show);
      if TrimmedVideo(id) !in w.files then Reject(w, 404, "Video not found")
      else
        var d := Directive(id, FilterFor(req, show));
        if !ffmpegOk then Outcome(Thrown, w, [Run(d)])
        else Outcome(Reply(EditedBody(Url(Output(id)), Some("Arrow added successfully"))), AfterRun(w, d, true), [Run(d)])
  }
}
