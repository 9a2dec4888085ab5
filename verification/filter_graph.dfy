/**
 * ffmpeg filtergraphs as structured values. The edit routes write their `-vf` and
 * `-filter_complex` arguments as string templates; this module gives the structure
 * those strings encode (chains of filters with named and positional options) and
 * the options `Named` and `Positional` read from it, so that claims about coordinates
 * and time windows can be stated about options rather than about characters.
 */
module FilterGraph {
  import opened Wrappers
  import opened JsText
  import opened JsValue

  /** A filter option: positional (`crop=W:H:X:Y`) or named (`x=20`). */
  datatype Arg = Pos(value: string) | Opt(key: string, value: string)

  datatype Filter = Filter(name: string, args: seq<Arg>)

  /**
   * A linear chain: input pads, filters, output pads. `sep` is what stands between
   * two filters: a comma, possibly followed by white space that ffmpeg skips.
   */
  datatype Chain = Chain(inputs: seq<string>, filters: seq<Filter>, outputs: seq<string>, sep: string)

  function RenderArg(a: Arg): string {
    match a
    case Pos(v) => v
    case Opt(k, v) => k + "=" + v
  }

  function RenderArgs(args: seq<Arg>): string {
    if |args| == 0 then ""
    else if |args| == 1 then RenderArg(args[0])
    else RenderArg(args[0]) + ":" + RenderArgs(args[1..])
  }

  function RenderFilter(f: Filter): string {
    if |f.args| == 0 then f.name else f.name + "=" + RenderArgs(f.args)
  }

  function RenderFilters(fs: seq<Filter>, sep: string): string {
    if |fs| == 0 then ""
    else if |fs| == 1 then RenderFilter(fs[0])
    else RenderFilter(fs[0]) + sep + RenderFilters(fs[1..], sep)
  }

  function RenderPads(pads: seq<string>): string {
    if |pads| == 0 then "" else "[" + pads[0] + "]" + RenderPads(pads[1..])
  }

  function RenderChain(c: Chain): string {
    RenderPads(c.inputs) + RenderFilters(c.filters, c.sep) + RenderPads(c.outputs)
  }

  /** The filtergraph text: chains separated by semicolons. */
  function Render(g: seq<Chain>): string {
    if |g| == 0 then ""
    else if |g| == 1 then RenderChain(g[0])
    else RenderChain(g[0]) + ";" + Render(g[1..])
  }

  lemma RenderArgsCons(a: Arg, rest: seq<Arg>)
    requires |rest| > 0
    ensures RenderArgs([a] + rest) == RenderArg(a) + ":" + RenderArgs(rest)
  {
    assert ([a] + rest)[1..] == rest;
  }

  /** An extra option list appended to a non-empty one renders after a colon. */
  lemma {:induction false} RenderArgsAppend(base: seq<Arg>, extra: seq<Arg>)
    requires |base| > 0
    ensures RenderArgs(base + extra)
         == RenderArgs(base) + (if |extra| == 0 then "" else ":" + RenderArgs(extra))
    decreases |base|
  {
    if |extra| == 0 {
      assert base + extra == base;
    } else if |base| == 1 {
      assert (base + extra)[1..] == extra;
    } else {
      assert (base + extra)[1..] == base[1..] + extra;
      RenderArgsAppend(base[1..], extra);
    }
  }

  /** The positional options of a filter, in order: the W:H:X:Y of `crop` and the X:Y of `overlay`. */
  function Positional(args: seq<Arg>): (r: seq<string>)
    ensures |r| <= |args|
  {
    if |args| == 0 then []
    else (if args[0].Pos? then [args[0].value] else []) + Positional(args[1..])
  }

  lemma {:induction false} PositionalAppend(a: seq<Arg>, b: seq<Arg>)
    ensures Positional(a + b) == Positional(a) + Positional(b)
    decreases |a|
  {
    if |a| == 0 {
      assert a + b == b;
    } else {
      var h := if a[0].Pos? then [a[0].value] else [];
      assert (a + b)[0] == a[0];
      assert (a + b)[1..] == a[1..] + b;
      PositionalAppend(a[1..], b);
      calc {
        Positional(a + b);
        h + Positional(a[1..] + b);
        h + (Positional(a[1..]) + Positional(b));
        (h + Positional(a[1..])) + Positional(b);
      }
    }
  }

  /** The value at the first occurrence of the named option `key`. */
  function Named(args: seq<Arg>, key: string): Option<string> {
    if |args| == 0 then None
    else if args[0].Opt? && args[0].key == key then Some(args[0].value)
    else Named(args[1..], key)
  }

  /**
   * A request value as it stands in the command the route builds: interpolated into
   * the template, whose newlines the route then replaces by spaces.
   */
  function Spliced(v: Value, show: real -> string): string {
    OneLine(Interp(v, show))
  }

  /** The timeline option `enable='between(t,S,E)'`: the filter acts only for S <= t <= E. */
  function Enable(start: string, end: string): Arg {
    Opt("enable", "'between(t," + start + "," + end + ")'")
  }

  /**
   * The blur and arrow routes' time condition: a timeline option exactly when both
   * `start` and `end` are present, rendered as `:enable='between(t,S,E)'`, else nothing.
   */
  function TimeCondition(start: Value, end: Value, show: real -> string): (tc: string)
    ensures tc == "" <==> !(start != Undefined && end != Undefined)
  {
    if start != Undefined && end != Undefined
    then
      var s, e := Spliced(start, show), Spliced(end, show);
      assert |":enable='between(t," + s + "," + e + ")'"| > 0;
      ":enable='between(t," + s + "," + e + ")'"
    else ""
  }

  /** The same condition as options to append to a filter. */
  function TimeArgs(start: Value, end: Value, show: real -> string): (a: seq<Arg>)
    ensures |a| <= 1
  {
    if start != Undefined && end != Undefined
    then [Enable(Spliced(start, show), Spliced(end, show))]
    else []
  }

  lemma EnableRendering(a: string, b: string)
    ensures ":" + RenderArg(Enable(a, b)) == ":enable='between(t," + a + "," + b + ")'"
  {
    var p, q, r := ":" + "enable" + "=", "'between(t,", ")'";
    assert ":enable='between(t," == p + q;
    assert ":" + ("enable" + "=" + (q + a + "," + b + r)) == (p + q) + a + "," + b + r;
  }

  /** Appending the time options to a filter's options renders as appending the time condition. */
  lemma RenderWithTime(base: seq<Arg>, start: Value, end: Value, show: real -> string)
    requires |base| > 0
    ensures RenderArgs(base + TimeArgs(start, end, show)) == RenderArgs(base) + TimeCondition(start, end, show)
  {
    var t := TimeArgs(start, end, show);
    RenderArgsAppend(base, t);
    if start != Undefined && end != Undefined {
      var a, b := Spliced(start, show), Spliced(end, show);
      assert t == [Enable(a, b)];
      assert RenderArgs(t) == RenderArg(Enable(a, b));
      EnableRendering(a, b);
    } else {
      assert t == [];
    }
  }

  /** A filter carrying the time options is enabled exactly on the requested window, if one is given. */
  lemma {:induction false} NamedEnable(base: seq<Arg>, start: Value, end: Value, show: real -> string)
    requires Named(base, "enable") == None
    ensures Named(base + TimeArgs(start, end, show), "enable")
         == if start != Undefined && end != Undefined
            then Some("'between(t," + Spliced(start, show) + "," + Spliced(end, show) + ")'")
            else None
    decreases |base|
  {
    var t := TimeArgs(start, end, show);
    if |base| == 0 {
      assert base + t == t;
    } else {
      assert (base + t)[1..] == base[1..] + t;
      NamedEnable(base[1..], start, end, show);
    }
  }
}
