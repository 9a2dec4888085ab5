/**
 * `POST /api/analytics`: records one playback of a video by adding its completion
 * (watched seconds over duration, capped at 1) to the entry's `completionSum`.
 */
module AnalyticsRoute {
  import opened Wrappers
  import opened JsValue
  import opened Routing
  import opened Ledger

  datatype Request = Request(videoId: Value, watchedSeconds: Value)

  predicate Valid(req: Request) {
    Truthy(req.videoId) && req.watchedSeconds.Number?
  }

  /** The entry a valid request addresses exists: the only case in which the route divides by its duration. */
  predicate Addressed(w: World, req: Request, show: real -> string) {
    Valid(req) && w.ledger.Some? && Interp(req.videoId, show) in w.ledger.value
  }

  /**
   * Guards in order: 400 unless the id is truthy and the watch time a number, 404
   * when the ledger file is missing, 404 when it has no entry under the id; then
   * the completion is added and the ledger saved. The entry's duration must not be
   * zero, since dividing by it would leave exact arithmetic.
   */
  function Handle(w: World, req: Request, show: real -> string): (o: Outcome)
    requires Addressed(w, req, show) ==> w.ledger.value[Interp(req.videoId, show)].duration != 0.0
    ensures Status(o.response) == 400 <==> !Valid(req)
    ensures Status(o.response) == 404 <==> Valid(req) && !Addressed(w, req, show)
    ensures o.response.Error? ==> o.world == w && o.effects == []
    ensures o.response.Reply? <==> Addressed(w, req, show)
    ensures o.world.files == w.files
    ensures o.response.Reply? ==>
      var key := Interp(req.videoId, show);
      && o.response.body == SuccessBody
      && o.effects == [SaveLedger]
      && o.world.ledger == Some(AddCompletion(w.ledger.value, key, req.watchedSeconds.n))
  {
    if !Valid(req) then Reject(w, 400, "Invalid input")
    else if w.ledger.None? then Reject(w, 404, "Metadata not found")
    else
      var key := Interp(req.videoId, show);
      if key !in w.ledger.value then Reject(w, 404, "Video not found")
      else
        Outcome(Reply(SuccessBody), w.(ledger := Some(AddCompletion(w.ledger.value, key, req.watchedSeconds.n))),
                [SaveLedger])
  }

  /**
   * Playbacks may be recorded in any order: the sums they leave do not depend on it,
   * whether they concern the same video or two different ones.
   */
  lemma PlaybacksCommute(store: Store, k1: string, s1: real, k2: string, s2: real)
    requires k1 in store && store[k1].duration != 0.0
    requires k2 in store && store[k2].duration != 0.0
    ensures AddCompletion(AddCompletion(store, k1, s1), k2, s2) == AddCompletion(AddCompletion(store, k2, s2), k1, s1)
  {
    var a := AddCompletion(AddCompletion(store, k1, s1), k2, s2);
    var b := AddCompletion(AddCompletion(store, k2, s2), k1, s1);
    assert a.Keys == b.Keys;
    forall k | k in a
      ensures a[k] == b[k]
    {
      if k == k1 && k == k2 {
        var c := Completion(s1, store[k].duration);
        var d := Completion(s2, store[k].duration);
        assert a[k].completionSum == store[k].completionSum + c + d;
        assert b[k].completionSum == store[k].completionSum + d + c;
      }
    }
  }

  /**
   * One playback of a positive-length video with a non-negative watch time raises
   * the entry's completion sum by at most one and leaves its view count alone.
   */
  lemma AnalyticsBounded(w: World, req: Request, show: real -> string)
    requires Addressed(w, req, show)
    requires w.ledger.value[Interp(req.videoId, show)].duration > 0.0 && req.watchedSeconds.n >= 0.0
    ensures var key := Interp(req.videoId, show);
      var o := Handle(w, req, show);
      && o.world.ledger.Some? && key in o.world.ledger.value
      && w.ledger.value[key].completionSum <= o.world.ledger.value[key].completionSum
         <= w.ledger.value[key].completionSum + 1.0
      && o.world.ledger.value[key].viewCount == w.ledger.value[key].viewCount
  {
    AddCompletionMonotone(w.ledger.value, Interp(req.videoId, show), req.watchedSeconds.n);
  }
}
