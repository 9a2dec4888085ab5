/**
 * `POST /api/edit/text`: burns a caption into a trimmed video with ffmpeg's
 * `drawtext`, writing `edited/<id>-text.mp4`.
 */
module TextRoute {
  import opened Wrappers
  import opened JsText
  import opened JsValue
  import opened Storage
  import opened Routing
  import opened FilterGraph

  // ---------------------------------------------------------------------------
  // The caption escaper
  // ---------------------------------------------------------------------------

  /** The escaper as written: colons first, then single quotes, each given a backslash. */
  function EscapeText(text: string): string {
    ReplaceAll(ReplaceAll(text, ':', "\\:"), '\'', "\\'")
  }

  /** The escaping one character at a time: the reference the two passes are compared with. */
  function EscapeChar(c: char): string {
    if c == ':' then "\\:" else if c == '\'' then "\\'" else [c]
  }

  function EscapeOnePass(text: string): string {
    if |text| == 0 then "" else EscapeChar(text[0]) + EscapeOnePass(text[1..])
  }

  /**
   * The two passes do not interfere: the backslashes the colon pass inserts are left
   * alone by the quote pass, so escaping is the same as the one-pass escaper.
   */
  lemma {:induction false} EscapePassesCommute(text: string)
    ensures EscapeText(text) == EscapeOnePass(text)
    decreases |text|
  {
    if |text| > 0 {
      var c, rest := text[0], text[1..];
      var colons := ReplaceAll([c], ':', "\\:");
      assert text == [c] + rest;
      ReplaceAllConcat([c], rest, ':', "\\:");
      ReplaceAllConcat(colons, ReplaceAll(rest, ':', "\\:"), '\'', "\\'");
      assert ReplaceAll([c], ':', "\\:") == (if c == ':' then "\\:" else [c]);
      QuotePassOnEscapedChar(c);
      EscapePassesCommute(rest);
    }
  }

  lemma QuotePassOnEscapedChar(c: char)
    ensures ReplaceAll(if c == ':' then "\\:" else [c], '\'', "\\'") == EscapeChar(c)
  {
    var s := if c == ':' then "\\:" else [c];
    if c == ':' {
      assert s == ['\\'] + [':'];
      ReplaceAllConcat(['\\'], [':'], '\'', "\\'");
      assert ReplaceAll([':'], '\'', "\\'") == [':'];
      assert ReplaceAll(['\\'], '\'', "\\'") == ['\\'];
    } else {
      assert ReplaceAll([c], '\'', "\\'") == (if c == '\'' then "\\'" else [c]) + ReplaceAll([], '\'', "\\'");
    }
  }

  /** Escaping adds exactly one character per colon and per single quote. */
  lemma {:induction false} EscapeLength(text: string)
    ensures |EscapeText(text)| == |text| + Count(text, ':') + Count(text, '\'')
    decreases |text|
  {
    EscapePassesCommute(text);
    OnePassLength(text);
  }

  lemma {:induction false} OnePassLength(text: string)
    ensures |EscapeOnePass(text)| == |text| + Count(text, ':') + Count(text, '\'')
    decreases |text|
  {
    if |text| > 0 {
      OnePassLength(text[1..]);
    }
  }

  /** In the escaped text every colon and single quote directly follows a backslash. */
  lemma EscapedSpecialsArePreceded(text: string, i: int)
    requires 0 <= i < |EscapeText(text)|
    requires EscapeText(text)[i] == ':' || EscapeText(text)[i] == '\''
    ensures i > 0 && EscapeText(text)[i - 1] == '\\'
  {
    EscapePassesCommute(text);
    OnePassPreceded(text, i);
  }

  lemma {:induction false} OnePassPreceded(text: string, i: int)
    requires 0 <= i < |EscapeOnePass(text)|
    requires EscapeOnePass(text)[i] == ':' || EscapeOnePass(text)[i] == '\''
    ensures i > 0 && EscapeOnePass(text)[i - 1] == '\\'
    decreases |text|
  {
    var head := EscapeChar(text[0]);
    var r := EscapeOnePass(text);
    assert r == head + EscapeOnePass(text[1..]);
    if i >= |head| {
      OnePassPreceded(text[1..], i - |head|);
    }
  }

  /** Reads escaped text back: a backslash before a colon or quote is dropped. */
  function Unescape(s: string): string {
    if |s| == 0 then ""
    else if |s| >= 2 && s[0] == '\\' && (s[1] == ':' || s[1] == '\'') then [s[1]] + Unescape(s[2..])
    else [s[0]] + Unescape(s[1..])
  }

  /** Escaping loses nothing: the caption is recovered from its escaped form. */
  lemma UnescapeEscape(text: string)
    ensures Unescape(EscapeText(text)) == text
  {
    EscapePassesCommute(text);
    UnescapeOnePass(text);
  }

  lemma {:induction false} UnescapeOnePass(text: string)
    ensures Unescape(EscapeOnePass(text)) == text
    decreases |text|
  {
    if |text| > 0 {
      var c, rest := text[0], text[1..];
      var tail := EscapeOnePass(rest);
      var s := EscapeChar(c) + tail;
      assert EscapeOnePass(text) == s;
      UnescapeOnePass(rest);
      if c == ':' || c == '\'' {
        assert s[2..] == tail;
      } else {
        OnePassHead(rest);
        assert s[1..] == tail;
      }
      assert text == [c] + rest;
    }
  }

  /**
   * The command's newline replacement runs after escaping, and reading the result
   * back with `Unescape` gives the caption with its newlines turned into spaces.
   */
  lemma CaptionReadBack(text: string)
    ensures Unescape(OneLine(EscapeText(text))) == OneLine(text)
  {
    EscapePassesCommute(text);
    EscapePassesCommute(OneLine(text));
    OneLineOnePass(text);
    UnescapeEscape(OneLine(text));
  }

  /** Newline replacement and escaping commute: neither touches what the other rewrites. */
  lemma {:induction false} OneLineOnePass(text: string)
    ensures OneLine(EscapeOnePass(text)) == EscapeOnePass(OneLine(text))
    decreases |text|
  {
    if |text| > 0 {
      var c, rest := text[0], text[1..];
      var c' := if c == '\n' then ' ' else c;
      ReplaceAllConcat(EscapeChar(c), EscapeOnePass(rest), '\n', " ");
      OneLineOnePass(rest);
      assert OneLine(EscapeChar(c)) == EscapeChar(c');
      assert text == [c] + rest;
      ReplaceAllConcat([c], rest, '\n', " ");
      var line := [c'] + OneLine(rest);
      assert OneLine(text) == line;
      assert line[0] == c' && line[1..] == OneLine(rest);
    }
  }

  /** Escaped text never starts with a bare colon or quote. */
  lemma OnePassHead(text: string)
    ensures |EscapeOnePass(text)| > 0 ==> EscapeOnePass(text)[0] != ':' && EscapeOnePass(text)[0] != '\''
  {
  }

  // ---------------------------------------------------------------------------
  // The drawtext filter and the directive
  // ---------------------------------------------------------------------------

  /** The Windows font the caption is drawn with, its drive colon escaped for ffmpeg. */
  const FontPath := "C\\:/Windows/Fonts/arial.ttf"

  /** The `-vf` argument as the route writes it. */
  function DrawTextFilter(font: string, safeText: string, start: string, end: string): string {
    "format=yuv420p,drawtext=fontfile='" + font + "':text='" + safeText
      + "':x=20:y=20:enable='between(t," + start + "," + end + ")'"
  }

  /** The structure that string encodes: pixel-format conversion, then one drawtext filter. */
  function DrawTextArgs(font: string, safeText: string, start: string, end: string): seq<Arg> {
    [Opt("fontfile", "'" + font + "'"), Opt("text", "'" + safeText + "'"),
     Opt("x", "20"), Opt("y", "20"), Enable(start, end)]
  }

  function TextGraph(font: string, safeText: string, start: string, end: string): seq<Chain> {
    [Chain([], [Filter("format", [Pos("yuv420p")]), Filter("drawtext", DrawTextArgs(font, safeText, start, end))], [], ",")]
  }

  /**
   * The filter string is the graph above: drawtext's `text` option is the escaped
   * caption in single quotes, at (20, 20), enabled on the requested window.
   */
  lemma DrawTextStructure(font: string, safeText: string, start: string, end: string)
    ensures DrawTextFilter(font, safeText, start, end) == Render(TextGraph(font, safeText, start, end))
    ensures Named(DrawTextArgs(font, safeText, start, end), "text") == Some("'" + safeText + "'")
    ensures Named(DrawTextArgs(font, safeText, start, end), "x") == Some("20")
    ensures Named(DrawTextArgs(font, safeText, start, end), "y") == Some("20")
    ensures Named(DrawTextArgs(font, safeText, start, end), "enable") == Some("'between(t," + start + "," + end + ")'")
  {
    DrawTextRendering(font, safeText, start, end);
    DrawTextOptions(font, safeText, start, end);
  }

  lemma DrawTextRendering(font: string, safeText: string, start: string, end: string)
    ensures DrawTextFilter(font, safeText, start, end) == Render(TextGraph(font, safeText, start, end))
  {
    var fs := [Filter("format", [Pos("yuv420p")]), Filter("drawtext", DrawTextArgs(font, safeText, start, end))];
    var c := TextGraph(font, safeText, start, end)[0];
    assert RenderFilters(fs[1..], ",") == RenderFilter(fs[1]);
    assert RenderFilters(fs, ",") == RenderFilter(fs[0]) + "," + RenderFilter(fs[1]);
    assert RenderChain(c) == "" + RenderFilters(fs, ",") + "";
    assert Render(TextGraph(font, safeText, start, end)) == RenderFilter(fs[0]) + "," + RenderFilter(fs[1]);
    DrawTextArgsText(font, safeText, start, end);
    DrawTextHead();
    DrawTextOuterAssoc(font, safeText, start, end, "format", "=", "yuv420p", ",", "drawtext", "fontfile='",
      "':text='", "':x=20:y=20:enable='between(t,", ")'");
  }

  lemma DrawTextOptions(font: string, safeText: string, start: string, end: string)
    ensures Named(DrawTextArgs(font, safeText, start, end), "text") == Some("'" + safeText + "'")
    ensures Named(DrawTextArgs(font, safeText, start, end), "x") == Some("20")
    ensures Named(DrawTextArgs(font, safeText, start, end), "y") == Some("20")
    ensures Named(DrawTextArgs(font, safeText, start, end), "enable") == Some("'between(t," + start + "," + end + ")'")
  {
    var a := DrawTextArgs(font, safeText, start, end);
    assert Named(a[4..], "enable") == Some("'between(t," + start + "," + end + ")'");
    assert Named(a[3..], "enable") == Named(a[4..], "enable");
    assert Named(a[2..], "enable") == Named(a[3..], "enable");
    assert Named(a[1..], "enable") == Named(a[2..], "enable");
    assert Named(a, "enable") == Named(a[1..], "enable");
    assert Named(a[4..], "y") == None;
    assert Named(a[3..], "y") == Some("20");
    assert Named(a[2..], "y") == Named(a[3..], "y");
    assert Named(a[1..], "y") == Named(a[2..], "y");
    assert Named(a[3..], "x") == Named(a[4..], "x") == None;
    assert Named(a[2..], "x") == Some("20");
    assert Named(a[1..], "x") == Named(a[2..], "x");
  }

  // The lemmas below only split the template's string literals and regroup its
  // concatenations, so that each step of the rendering proofs stays small.

  lemma DrawTextHead()
    ensures "format=yuv420p,drawtext=fontfile='" == "format" + "=" + "yuv420p" + "," + "drawtext" + "=" + "fontfile='"
  {
  }

  lemma DrawTextOuterAssoc(font: string, safeText: string, start: string, end: string,
    f: string, eq: string, yuv: string, comma: string, dt: string, fq: string, tq: string, mid: string, close: string)
    ensures (f + eq + yuv + comma + dt + eq + fq) + font + tq + safeText + mid + start + comma + end + close
         == f + eq + yuv + comma + (dt + eq + (fq + font + tq + safeText + mid + start + comma + end + close))
  {
  }

  /** The option text of the drawtext filter. */
  lemma DrawTextArgsText(font: string, safeText: string, start: string, end: string)
    ensures RenderArgs(DrawTextArgs(font, safeText, start, end))
         == "fontfile='" + font + "':text='" + safeText + "':x=20:y=20:enable='between(t," + start + "," + end + ")'"
  {
    var a := DrawTextArgs(font, safeText, start, end);
    RenderArgsCons(a[0], a[1..]);
    RenderArgsCons(a[1], a[2..]);
    RenderArgsCons(a[2], a[3..]);
    RenderArgsCons(a[3], a[4..]);
    assert a[1..][1..] == a[2..] && a[2..][1..] == a[3..] && a[3..][1..] == a[4..];
    DrawTextOptionTexts(font, safeText, start, end);
    DrawTextPieces();
    DrawTextArgsAssoc(font, safeText, start, end, "fontfile='", "'", ":", "text='", "x=20", "y=20",
      "enable='between(t,", ",", ")'");
  }

  lemma DrawTextOptionTexts(font: string, safeText: string, start: string, end: string)
    ensures var a := DrawTextArgs(font, safeText, start, end);
      && RenderArg(a[0]) == "fontfile='" + font + "'"
      && RenderArg(a[1]) == "text='" + safeText + "'"
      && RenderArg(a[2]) == "x=20" && RenderArg(a[3]) == "y=20"
      && RenderArg(a[4]) == "enable='between(t," + start + "," + end + ")'"
  {
    assert "fontfile" + "=" + ("'" + font + "'") == ("fontfile" + "=" + "'") + font + "'";
    assert "fontfile='" == "fontfile" + "=" + "'";
    assert "text" + "=" + ("'" + safeText + "'") == ("text" + "=" + "'") + safeText + "'";
    assert "text='" == "text" + "=" + "'";
    assert "x=20" == "x" + "=" + "20" && "y=20" == "y" + "=" + "20";
    assert "enable" + "=" + ("'between(t," + start + "," + end + ")'")
        == ("enable" + "=" + "'between(t,") + start + "," + end + ")'";
    assert "enable='between(t," == "enable" + "=" + "'between(t,";
  }

  lemma DrawTextPieces()
    ensures "':text='" == "'" + ":" + "text='"
    ensures "':x=20:y=20:enable='between(t," == "'" + ":" + "x=20" + ":" + "y=20" + ":" + "enable='between(t,"
  {
  }

  lemma DrawTextArgsAssoc(font: string, safeText: string, start: string, end: string,
    ff: string, q: string, colon: string, tx: string, x: string, y: string, en: string, comma: string, close: string)
    ensures ff + font + (q + colon + tx) + safeText + (q + colon + x + colon + y + colon + en) + start + comma + end + close
         == (ff + font + q) + colon + ((tx + safeText + q) + colon + (x + colon + (y + colon + (en + start + comma + end + close))))
  {
  }

  function Output(id: string): Locator {
    Locator(Edited, id + "-text.mp4")
  }

  /** The ffmpeg invocation: read the trimmed video, draw the caption, re-encode to H.264/AAC MP4. */
  function Directive(id: string, safeText: string, start: string, end: string): (d: Routing.Directive)
    ensures d.inputs == [TrimmedVideo(id)] && d.output == Output(id)
    ensures ReadsPath(d.args, FsPath(TrimmedVideo(id))) && WritesPath(d.args, FsPath(Output(id)))
    ensures HasOption(d.args, "-vf", DrawTextFilter(FontPath, safeText, start, end))
  {
    var args := ["-y", "-analyzeduration", "200M", "-probesize", "200M",
                 "-i", FsPath(TrimmedVideo(id)),
                 "-vf", DrawTextFilter(FontPath, safeText, start, end),
                 "-c:v", "libx264", "-pix_fmt", "yuv420p", "-movflags", "+faststart", "-c:a", "aac",
                 FsPath(Output(id))];
    HasOptionAt(args, 5, "-i", FsPath(TrimmedVideo(id)));
    HasOptionAt(args, 7, "-vf", DrawTextFilter(FontPath, safeText, start, end));
    Routing.Directive("ffmpeg", args, [TrimmedVideo(id)], Output(id))
  }

  // ---------------------------------------------------------------------------
  // The route
  // ---------------------------------------------------------------------------

  datatype Request = Request(videoId: Value, text: Value, start: Value, end: Value)

  /**
   * Guards in order: 400 for a falsy id or caption, 404 for a missing trimmed video;
   * a caption that is not a string makes `replace` throw; then ffmpeg runs.
   */
  function Handle(w: World, req: Request, show: real -> string, ffmpegOk: bool): (o: Outcome)
    ensures w.files <= o.world.files <= w.files + {Output(Interp(req.videoId, show))}
    ensures Status(o.response) == 400 <==> !Truthy(req.videoId) || !Truthy(req.text)
    ensures Status(o.response) == 404 <==>
      Truthy(req.videoId) && Truthy(req.text) && TrimmedVideo(Interp(req.videoId, show)) !in w.files
    ensures o.response.Error? ==> o.world == w && o.effects == []
    ensures o.world.ledger == w.ledger
    ensures o.response.Reply? <==>
      && Truthy(req.videoId) && req.text.Str? && |req.text.s| > 0 && ffmpegOk
      && TrimmedVideo(Interp(req.videoId, show)) in w.files
    ensures (Truthy(req.videoId) && Truthy(req.text) && !req.text.Str? && TrimmedVideo(Interp(req.videoId, show)) in w.files)
      ==> o.response == Thrown && o.world == w && o.effects == []
    ensures o.response.Reply? ==>
      var id := Interp(req.videoId, show);
      && o.response.body == EditedBody(Url(Output(id)), None)
      && o.world.files == w.files + {Output(id)}
      && o.effects == [Run(Directive(id, OneLine(EscapeText(req.text.s)), Spliced(req.start, show), Spliced(req.end, show)))]
  {
    if !Truthy(req.videoId) || !Truthy(req.text) then Reject(w, 400, "Missing parameters")
    else
      var id := Interp(req.videoId, show);
      if TrimmedVideo(id) !in w.files then Reject(w, 404, "Video not found")
      else if !req.text.Str? then Outcome(Thrown, w, [])
      else
        var d := Directive(id, OneLine(EscapeText(req.text.s)), Spliced(req.start, show), Spliced(req.end, show));
        if !ffmpegOk then Outcome(Thrown, w, [Run(d)])
        else Outcome(Reply(EditedBody(Url(Output(id)), None)), AfterRun(w, d, true), [Run(d)])
  }
}
