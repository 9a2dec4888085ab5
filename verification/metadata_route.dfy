/** `POST /api/metadata`: sets the title, description and tags of a ledger entry. */
module MetadataRoute {
  import opened Wrappers
  import opened JsValue
  import opened Routing
  import opened Ledger

  datatype Request = Request(videoId: Value, title: Value, description: Value, tags: Value)

  predicate Addressed(w: World, req: Request, show: real -> string) {
    Truthy(req.videoId) && w.ledger.Some? && Interp(req.videoId, show) in w.ledger.value
  }

  /**
   * Guards in order: 400 for a falsy id, 404 when the ledger file is missing, 404
   * when it has no entry under the id; then the three fields are replaced (a falsy
   * title or description by `""`, a non-array tags value by `[]`) and the ledger saved.
   */
  function Handle(w: World, req: Request, show: real -> string): (o: Outcome)
    ensures Status(o.response) == 400 <==> !Truthy(req.videoId)
    ensures Status(o.response) == 404 <==> Truthy(req.videoId) && !Addressed(w, req, show)
    ensures o.response.Error? ==> o.world == w && o.effects == []
    ensures o.response.Reply? <==> Addressed(w, req, show)
    ensures o.world.files == w.files
    ensures o.response.Reply? ==>
      && o.response.body == SuccessBody
      && o.effects == [SaveLedger]
      && o.world.ledger == Some(SetMetadata(w.ledger.value, Interp(req.videoId, show), req.title, req.description, req.tags))
  {
    if !Truthy(req.videoId) then Reject(w, 400, "Missing videoId")
    else if w.ledger.None? then Reject(w, 404, "Metadata store not found")
    else
      var key := Interp(req.videoId, show);
      if key !in w.ledger.value then Reject(w, 404, "Video not found")
      else
        Outcome(Reply(SuccessBody), w.(ledger := Some(SetMetadata(w.ledger.value, key, req.title, req.description, req.tags))),
                [SaveLedger])
  }

  /** Sending the same metadata twice leaves the state the first request left. */
  lemma MetadataIdempotent(w: World, req: Request, show: real -> string)
    ensures Handle(Handle(w, req, show).world, req, show).world == Handle(w, req, show).world
  {
    var o := Handle(w, req, show);
    if o.response.Reply? {
      SetMetadataIdempotent(w.ledger.value, Interp(req.videoId, show), req.title, req.description, req.tags);
    }
  }

  /**
   * Metadata and analytics touch disjoint fields: setting an entry's metadata and
   * recording a playback give the same ledger in either order.
   */
  lemma MetadataCommutesWithPlayback(store: Store, key: string, title: Value, description: Value, tags: Value,
    k: string, watchedSeconds: real)
    requires key in store && k in store && store[k].duration != 0.0
    ensures SetMetadata(AddCompletion(store, k, watchedSeconds), key, title, description, tags)
         == AddCompletion(SetMetadata(store, key, title, description, tags), k, watchedSeconds)
  {
    var a := SetMetadata(AddCompletion(store, k, watchedSeconds), key, title, description, tags);
    var b := AddCompletion(SetMetadata(store, key, title, description, tags), k, watchedSeconds);
    assert a.Keys == b.Keys;
    forall j | j in a
      ensures a[j] == b[j]
    {
    }
  }
}
