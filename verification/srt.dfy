/**
 * The SubRip text the subtitles route writes: timestamps `HH:MM:SS,mmm` made from
 * seconds, one numbered cue per transcript segment, and the document that
 * concatenates the cues.
 */
module Srt {
  import opened Wrappers
  import opened JsMath
  import opened JsText

  // ---------------------------------------------------------------------------
  // Timestamps
  // ---------------------------------------------------------------------------

  /** The four fields of a timestamp, as `secondsToSrtTime` computes them. */
  datatype Clock = Clock(hours: int, minutes: int, seconds: int, millis: int)

  /** Hours, minutes of the hour, seconds of the minute, milliseconds of the second, by floor and JS `%`. */
  function ClockOf(s: real): Clock {
    Clock(Floor(s / 3600.0), Floor(Rem(s, 3600.0) / 60.0), Floor(Rem(s, 60.0)), Floor(Rem(s, 1.0) * 1000.0))
  }

  /** `String(n).padStart(width, "0")` for an integer `n`. */
  function Pad(n: int, width: nat): string {
    PadStart(IntToString(n), width, '0')
  }

  function RenderClock(c: Clock): string {
    Pad(c.hours, 2) + ":" + Pad(c.minutes, 2) + ":" + Pad(c.seconds, 2) + "," + Pad(c.millis, 3)
  }

  /** `secondsToSrtTime`. */
  function SrtTime(s: real): string {
    RenderClock(ClockOf(s))
  }

  /** The seconds a clock stands for. */
  function ClockValue(c: Clock): real {
    (c.hours * 3600 + c.minutes * 60 + c.seconds) as real + c.millis as real / 1000.0
  }

  lemma FloorUnique(x: real, n: int)
    requires n as real <= x < n as real + 1.0
    ensures Floor(x) == n
  {
  }

  /**
   * For a non-negative time the fields are in range and the timestamp is the time
   * truncated to the millisecond: it is at most `s` and less than a millisecond below it.
   */
  lemma ClockFields(s: real)
    requires s >= 0.0
    ensures var c := ClockOf(s);
      && c.hours >= 0 && 0 <= c.minutes < 60 && 0 <= c.seconds < 60 && 0 <= c.millis < 1000
      && ClockValue(c) <= s < ClockValue(c) + 0.001
  {
    var c := ClockOf(s);
    var h := c.hours;
    RemNonNegative(s, 3600.0);
    var r := Rem(s, 3600.0);
    assert r == s - 3600.0 * h as real && 0.0 <= r < 3600.0;
    var m := c.minutes;
    assert m as real <= r / 60.0 < m as real + 1.0;
    assert 0 <= m < 60;
    RemNonNegative(s, 60.0);
    assert s / 60.0 == (60 * h) as real + r / 60.0;
    FloorUnique(s / 60.0, 60 * h + m);
    assert Rem(s, 60.0) == r - 60.0 * m as real;
    var sec := c.seconds;
    assert 0 <= sec < 60;
    RemNonNegative(s, 1.0);
    assert s / 1.0 == s;
    FloorUnique(s, 3600 * h + 60 * m + sec);
    var frac := Rem(s, 1.0);
    assert frac == s - (3600 * h + 60 * m + sec) as real && 0.0 <= frac < 1.0;
    var ms := c.millis;
    assert ms as real <= frac * 1000.0 < ms as real + 1.0;
    assert 0 <= ms < 1000;
  }

  /** 65.25 seconds is one minute, five seconds and 250 milliseconds. */
  lemma SrtTimeExample()
    ensures SrtTime(65.25) == "00:01:05,250"
  {
    FloorUnique(65.25 / 3600.0, 0);
    assert Rem(65.25, 3600.0) == 65.25;
    FloorUnique(65.25 / 60.0, 1);
    assert Rem(65.25, 60.0) == 5.25;
    FloorUnique(65.25, 65);
    assert Rem(65.25, 1.0) == 0.25;
    FloorUnique(0.25 * 1000.0, 250);
    assert ClockOf(65.25) == Clock(0, 1, 5, 250);
    assert NatToString(250) == NatToString(25) + "0";
    assert NatToString(25) == "25";
  }

  /**
   * Below 100 hours every timestamp is twelve characters, `HH:MM:SS,mmm`: the
   * separators sit at positions 2, 5 and 8 and every other character is a digit.
   */
  lemma SrtTimeLayout(s: real)
    requires 0.0 <= s < 360000.0
    ensures var t := SrtTime(s);
      && |t| == 12 && t[2] == ':' && t[5] == ':' && t[8] == ','
      && forall i :: 0 <= i < 12 && i != 2 && i != 5 && i != 8 ==> IsDigit(t[i])
  {
    ClockFields(s);
    var c := ClockOf(s);
    assert c.hours < 100;
    PadToWidth(c.hours, 2);
    PadToWidth(c.minutes, 2);
    PadToWidth(c.seconds, 2);
    PadToWidth(c.millis, 3);
    Layout(Pad(c.hours, 2), Pad(c.minutes, 2), Pad(c.seconds, 2), Pad(c.millis, 3));
  }

  /** A number with at most `width` digits pads to exactly `width` digits. */
  lemma PadToWidth(n: nat, width: nat)
    requires width == 2 || width == 3
    requires if width == 2 then n < 100 else n < 1000
    ensures |Pad(n, width)| == width && AllDigits(Pad(n, width))
  {
    NatToStringWidth(n);
    PadDigits(n, width);
  }

  lemma NatToStringWidth(n: nat)
    ensures n < 100 ==> |NatToString(n)| <= 2
    ensures n < 1000 ==> |NatToString(n)| <= 3
  {
    if n >= 10 {
      NatToStringWidth(n / 10);
    }
  }

  lemma Layout(h: string, m: string, sec: string, ms: string)
    requires |h| == 2 && |m| == 2 && |sec| == 2 && |ms| == 3
    requires AllDigits(h) && AllDigits(m) && AllDigits(sec) && AllDigits(ms)
    ensures var t := h + ":" + m + ":" + sec + "," + ms;
      && |t| == 12 && t[2] == ':' && t[5] == ':' && t[8] == ','
      && forall i :: 0 <= i < 12 && i != 2 && i != 5 && i != 8 ==> IsDigit(t[i])
  {
    var t := h + ":" + m + ":" + sec + "," + ms;
    assert t == h + [':'] + m + [':'] + sec + [','] + ms;
    forall i | 0 <= i < 12 && i != 2 && i != 5 && i != 8 ensures IsDigit(t[i]) {
      if i < 2 { assert t[i] == h[i]; }
      else if i < 5 { assert t[i] == m[i - 3]; }
      else if i < 8 { assert t[i] == sec[i - 6]; }
      else { assert t[i] == ms[i - 9]; }
    }
  }

  // ---------------------------------------------------------------------------
  // Reading a timestamp back
  // ---------------------------------------------------------------------------

  /** Reads `H:M:S,m` (digits only) back into its fields. */
  function ParseSrtTime(t: string): Option<Clock> {
    match SplitAt(t, ':')
    case None => None
    case Some(p1) =>
      match SplitAt(p1.1, ':')
      case None => None
      case Some(p2) =>
        match SplitAt(p2.1, ',')
        case None => None
        case Some(p3) =>
          match (ParseNat(p1.0), ParseNat(p2.0), ParseNat(p3.0), ParseNat(p3.1))
          case (Some(h), Some(m), Some(s), Some(ms)) => Some(Clock(h, m, s, ms))
          case _ => None
  }

  lemma PadDigits(n: nat, width: nat)
    ensures AllDigits(Pad(n, width))
    ensures ParseNat(Pad(n, width)) == Some(n)
  {
    PaddedRoundTrip(n, width);
  }

  /** The timestamp of a non-negative time reads back as exactly its fields. */
  lemma SrtTimeRoundTrip(s: real)
    requires s >= 0.0
    ensures ParseSrtTime(SrtTime(s)) == Some(ClockOf(s))
  {
    ClockFields(s);
    RenderClockRoundTrip(ClockOf(s));
  }

  /** A clock with non-negative fields is rendered in a form that reads back as itself. */
  lemma RenderClockRoundTrip(c: Clock)
    requires c.hours >= 0 && c.minutes >= 0 && c.seconds >= 0 && c.millis >= 0
    ensures ParseSrtTime(RenderClock(c)) == Some(c)
  {
    var h, m, sec, ms := Pad(c.hours, 2), Pad(c.minutes, 2), Pad(c.seconds, 2), Pad(c.millis, 3);
    PadDigits(c.hours, 2);
    PadDigits(c.minutes, 2);
    PadDigits(c.seconds, 2);
    PadDigits(c.millis, 3);
    ParseFields(h, m, sec, ms, c);
  }

  lemma ParseFields(h: string, m: string, sec: string, ms: string, c: Clock)
    requires AllDigits(h) && AllDigits(m) && AllDigits(sec)
    requires c.hours >= 0 && c.minutes >= 0 && c.seconds >= 0 && c.millis >= 0
    requires ParseNat(h) == Some(c.hours as nat) && ParseNat(m) == Some(c.minutes as nat)
    requires ParseNat(sec) == Some(c.seconds as nat) && ParseNat(ms) == Some(c.millis as nat)
    ensures ParseSrtTime(h + ":" + m + ":" + sec + "," + ms) == Some(c)
  {
    assert !IsDigit(':') && !IsDigit(',');
    FieldsSplit(h, m, sec, ms);
  }

  lemma FieldsSplit(h: string, m: string, sec: string, ms: string)
    requires ':' !in h && ':' !in m && ',' !in sec
    ensures SplitAt(h + ":" + m + ":" + sec + "," + ms, ':') == Some((h, m + ":" + sec + "," + ms))
    ensures SplitAt(m + ":" + sec + "," + ms, ':') == Some((m, sec + "," + ms))
    ensures SplitAt(sec + "," + ms, ',') == Some((sec, ms))
  {
    assert h + ":" + m + ":" + sec + "," + ms == h + [':'] + (m + ":" + sec + "," + ms);
    SplitAtJoin(h, ':', m + ":" + sec + "," + ms);
    assert m + ":" + sec + "," + ms == m + [':'] + (sec + "," + ms);
    SplitAtJoin(m, ':', sec + "," + ms);
    assert sec + "," + ms == sec + [','] + ms;
    SplitAtJoin(sec, ',', ms);
  }

  /** Two non-negative times with the same timestamp agree on every field of their clocks. */
  lemma SrtTimeInjectiveOnClocks(s: real, t: real)
    requires s >= 0.0 && t >= 0.0
    ensures SrtTime(s) == SrtTime(t) ==> ClockOf(s) == ClockOf(t)
  {
    SrtTimeRoundTrip(s);
    SrtTimeRoundTrip(t);
  }

  // ---------------------------------------------------------------------------
  // Cues and the document
  // ---------------------------------------------------------------------------

  /** One segment of whisper's JSON transcript. */
  datatype Segment = Segment(start: real, end: real, text: string)

  /** The cue for the segment at position `index`: its 1-based number, its interval, its trimmed text, a blank line. */
  function Cue(index: nat, seg: Segment): string {
    IntToString(index + 1) + "\n" + SrtTime(seg.start) + " --> " + SrtTime(seg.end) + "\n" + Trim(seg.text) + "\n\n"
  }

  /** The SRT document for a transcript: one cue per segment, in segment order. */
  function SrtDocument(segs: seq<Segment>): string
    decreases |segs|
  {
    if |segs| == 0 then ""
    else SrtDocument(segs[..|segs| - 1]) + Cue(|segs| - 1, segs[|segs| - 1])
  }

  /** `xs.map((x, k) => f(k, x))`: each element rendered together with its position. */
  function MapIndexed<T>(xs: seq<T>, f: (nat, T) -> string): (ys: seq<string>)
    ensures |ys| == |xs|
  {
    seq(|xs|, k requires 0 <= k < |xs| => f(k, xs[k]))
  }

  lemma MapIndexedSnoc<T>(xs: seq<T>, f: (nat, T) -> string)
    requires |xs| > 0
    ensures MapIndexed(xs, f) == MapIndexed(xs[..|xs| - 1], f) + [f(|xs| - 1, xs[|xs| - 1])]
  {
    var n := |xs| - 1;
    forall k | 0 <= k < n ensures MapIndexed(xs, f)[k] == MapIndexed(xs[..n], f)[k] {
      assert xs[..n][k] == xs[k];
    }
  }

  /** The cues of a transcript, one per segment, each numbered by its position. */
  function Cues(segs: seq<Segment>): seq<string> {
    MapIndexed(segs, Cue)
  }

  /**
   * The document is the concatenation of the segments' cues in segment order:
   * nothing before the first cue, nothing between two cues, nothing after the last.
   */
  lemma {:induction false} SrtDocumentCues(segs: seq<Segment>)
    ensures SrtDocument(segs) == Concat(Cues(segs))
    decreases |segs|
  {
    if |segs| > 0 {
      var n := |segs| - 1;
      var init := segs[..n];
      SrtDocumentCues(init);
      MapIndexedSnoc(segs, Cue);
      ConcatSnoc(Cues(init), Cue(n, segs[n]));
      assert SrtDocument(segs) == SrtDocument(init) + Cue(n, segs[n]);
    }
  }

  lemma PadNoNewline(n: int, width: nat)
    ensures '\n' !in Pad(n, width)
  {
    var s := IntToString(n);
    var p := Pad(n, width);
    assert p == Repeat('0', |p| - |s|) + s;
    assert '\n' !in Repeat('0', |p| - |s|);
    if n < 0 {
      assert s == "-" + NatToString(-n);
      assert !IsDigit('\n');
    } else {
      assert !IsDigit('\n');
    }
  }

  lemma SrtTimeNoNewline(s: real)
    ensures '\n' !in SrtTime(s)
  {
    var c := ClockOf(s);
    PadNoNewline(c.hours, 2);
    PadNoNewline(c.minutes, 2);
    PadNoNewline(c.seconds, 2);
    PadNoNewline(c.millis, 3);
  }

  /**
   * A cue reads back line by line: its first line is the segment's 1-based number,
   * its second the two timestamps around ` --> `, and the rest the trimmed text
   * followed by a blank line.
   */
  lemma CueLines(index: nat, seg: Segment)
    ensures var interval := SrtTime(seg.start) + " --> " + SrtTime(seg.end);
      var body := Trim(seg.text) + "\n\n";
      && SplitAt(Cue(index, seg), '\n') == Some((NatToString(index + 1), interval + "\n" + body))
      && SplitAt(interval + "\n" + body, '\n') == Some((interval, body))
      && ParseNat(NatToString(index + 1)) == Some(index + 1)
  {
    var number := NatToString(index + 1);
    assert '\n' !in number by { assert !IsDigit('\n'); }
    var a, b, t := SrtTime(seg.start), SrtTime(seg.end), Trim(seg.text);
    SrtTimeNoNewline(seg.start);
    SrtTimeNoNewline(seg.end);
    assert Cue(index, seg) == number + "\n" + a + " --> " + b + "\n" + t + "\n\n";
    CueAssoc(number, a, b, t, "\n", " --> ", "\n\n");
    LinesSplit(number, a, b, t + "\n\n");
    NatToStringRoundTrip(index + 1);
  }

  lemma CueAssoc(number: string, a: string, b: string, t: string, nl: string, arrow: string, blank: string)
    ensures number + nl + a + arrow + b + nl + t + blank == number + nl + a + arrow + b + nl + (t + blank)
  {
  }

  lemma LinesSplit(number: string, start: string, end: string, body: string)
    requires '\n' !in number && '\n' !in start && '\n' !in end
    ensures SplitAt(number + "\n" + start + " --> " + end + "\n" + body, '\n')
         == Some((number, start + " --> " + end + "\n" + body))
    ensures SplitAt(start + " --> " + end + "\n" + body, '\n') == Some((start + " --> " + end, body))
  {
    var interval := start + " --> " + end;
    assert '\n' !in " --> ";
    assert '\n' !in interval;
    assert number + "\n" + start + " --> " + end + "\n" + body == number + ['\n'] + (interval + "\n" + body);
    SplitAtJoin(number, '\n', interval + "\n" + body);
    assert interval + "\n" + body == interval + ['\n'] + body;
    SplitAtJoin(interval, '\n', body);
  }

  /** The route's `forEach` loop: appends the cues one by one to an initially empty string. */
  method AssembleSrt(segs: seq<Segment>) returns (content: string)
    ensures content == SrtDocument(segs)
    ensures content == Concat(Cues(segs))
  {
    content := "";
    var i := 0;
    while i < |segs|
      invariant 0 <= i <= |segs|
      invariant content == SrtDocument(segs[..i])
    {
      NextCue(segs, i);
      content := content + Cue(i, segs[i]);
      i := i + 1;
    }
    assert segs[..i] == segs;
    SrtDocumentCues(segs);
  }

  lemma NextCue(segs: seq<Segment>, i: nat)
    requires i < |segs|
    ensures SrtDocument(segs[..i + 1]) == SrtDocument(segs[..i]) + Cue(i, segs[i])
  {
    var q := segs[..i + 1];
    assert |q| - 1 == i;
    assert q[..|q| - 1] == segs[..i];
    assert q[|q| - 1] == segs[i];
  }
}
