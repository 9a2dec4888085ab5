/**
 * `POST /api/trim`: cuts a raw recording to `[startTime, endTime]` without
 * re-encoding, stores the cut under a fresh id in `trimmed/`, and records it in
 * the ledger. This is the only route that creates ledger entries.
 */
module TrimRoute {
  import opened Wrappers
  import opened JsValue
  import opened Storage
  import opened Routing
  import opened Ledger

  datatype Request = Request(videoId: Value, startTime: Value, endTime: Value)

  predicate Valid(req: Request) {
    Truthy(req.videoId) && req.startTime.Number? && req.endTime.Number?
  }

  /**
   * The ffmpeg invocation: seek to the start, stop at the end, copy the streams.
   * Unlike the other routes it passes no `-y`, relying on the id being fresh.
   */
  function Directive(id: string, freshId: string, start: string, end: string): (d: Routing.Directive)
    ensures d.inputs == [RawVideo(id)] && d.output == TrimmedVideo(freshId)
    ensures ReadsPath(d.args, FsPath(RawVideo(id))) && WritesPath(d.args, FsPath(TrimmedVideo(freshId)))
    ensures HasOption(d.args, "-ss", start) && HasOption(d.args, "-to", end) && HasOption(d.args, "-c", "copy")
  {
    var args := ["-i", FsPath(RawVideo(id)), "-ss", start, "-to", end, "-c", "copy", FsPath(TrimmedVideo(freshId))];
    HasOptionAt(args, 0, "-i", FsPath(RawVideo(id)));
    HasOptionAt(args, 2, "-ss", start);
    HasOptionAt(args, 4, "-to", end);
    HasOptionAt(args, 6, "-c", "copy");
    Routing.Directive("ffmpeg", args, [RawVideo(id)], TrimmedVideo(freshId))
  }

  /**
   * Guards in order: 400 unless the id is truthy and both times are numbers, 404
   * for a missing raw recording; then ffmpeg runs under the fresh id, and only if
   * it succeeds is the ledger read (empty when missing), extended and saved.
   * `freshId` and `createdAt` stand for `randomUUID()` and the current time.
   */
  function Handle(w: World, req: Request, show: real -> string, freshId: string, createdAt: string, ffmpegOk: bool)
    : (o: Outcome)
    ensures w.files <= o.world.files <= w.files + {TrimmedVideo(freshId)}
    ensures Status(o.response) == 400 <==> !Valid(req)
    ensures Status(o.response) == 404 <==> Valid(req) && RawVideo(Interp(req.videoId, show)) !in w.files
    ensures o.response.Error? ==> o.world == w && o.effects == []
    ensures !o.response.Reply? ==> o.world.ledger == w.ledger
    ensures o.response.Reply? <==> Valid(req) && RawVideo(Interp(req.videoId, show)) in w.files && ffmpegOk
    ensures o.response.Reply? ==>
      var r := NewRecord(freshId, req.startTime.n, req.endTime.n, createdAt);
      && o.response.body == TrimBody(freshId)
      && o.world.files == w.files + {TrimmedVideo(freshId)}
      && o.world.ledger == Some(Insert(w.ledger, r))
      && o.effects == [Run(Directive(Interp(req.videoId, show), freshId,
                                     show(req.startTime.n), show(req.endTime.n))), SaveLedger]
  {
    if !Valid(req) then Reject(w, 400, "Invalid input")
    else
      var id := Interp(req.videoId, show);
      if RawVideo(id) !in w.files then Reject(w, 404, "Source video not found")
      else
        var d := Directive(id, freshId, show(req.startTime.n), show(req.endTime.n));
        if !ffmpegOk then Outcome(Thrown, w, [Run(d)])
        else
          var r := NewRecord(freshId, req.startTime.n, req.endTime.n, createdAt);
          var w' := AfterRun(w, d, true);
          Outcome(Reply(TrimBody(freshId)), w'.(ledger := Some(Insert(w.ledger, r))), [Run(d), SaveLedger])
  }

  /**
   * A successful trim records the cut it made: the new entry is keyed and
   * identified by the fresh id, points at the file ffmpeg wrote, starts with no
   * views and no completions, and lasts `endTime - startTime`.
   */
  lemma TrimRecordsTheCut(w: World, req: Request, show: real -> string, freshId: string, createdAt: string)
    requires Valid(req) && RawVideo(Interp(req.videoId, show)) in w.files
    ensures var o := Handle(w, req, show, freshId, createdAt, true);
      && o.response == Reply(TrimBody(freshId))
      && o.world.ledger.Some? && freshId in o.world.ledger.value
      && var r := o.world.ledger.value[freshId];
      && r.id == freshId
      && ParseUrl(r.filePath) == Some(o.effects[0].d.output)
      && o.effects[0].d.output in o.world.files
      && r.viewCount == 0 && r.completionSum == 0.0
      && r.duration == req.endTime.n - req.startTime.n
  {
    UrlRoundTrip(TrimmedVideo(freshId));
  }

  /**
   * Trimming under an id the ledger does not hold keeps every earlier entry as it
   * was and adds exactly one.
   */
  lemma TrimKeepsEarlierEntries(w: World, req: Request, show: real -> string, freshId: string, createdAt: string)
    requires Valid(req) && RawVideo(Interp(req.videoId, show)) in w.files
    requires w.ledger.Some? ==> freshId !in w.ledger.value
    ensures var o := Handle(w, req, show, freshId, createdAt, true);
      && o.world.ledger.Some?
      && |o.world.ledger.value| == |w.ledger.GetOr(map[])| + 1
      && forall k :: k in w.ledger.GetOr(map[]) ==> k in o.world.ledger.value && o.world.ledger.value[k] == w.ledger.GetOr(map[])[k]
  {
    var before := w.ledger.GetOr(map[]);
    var after := Handle(w, req, show, freshId, createdAt, true).world.ledger.value;
    assert after.Keys == before.Keys + {freshId};
    assert |after.Keys| == |before.Keys| + 1;
  }

  /** Cutting seconds 2 to 7 records a five-second video. */
  lemma TrimTwoToSeven(w: World, show: real -> string, freshId: string, createdAt: string)
    requires RawVideo("abc123") in w.files
    ensures var o := Handle(w, Request(Str("abc123"), Number(2.0), Number(7.0)), show, freshId, createdAt, true);
      o.world.ledger.Some? && freshId in o.world.ledger.value && o.world.ledger.value[freshId].duration == 5.0
  {
  }
}
