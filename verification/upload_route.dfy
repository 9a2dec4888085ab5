/** `POST /api/upload`: stores an uploaded recording under a fresh id in `raw/`. */
module UploadRoute {
  import opened Wrappers
  import opened Storage
  import opened Routing

  /** The `video` field of the multipart form: missing, a plain text field, or a file. */
  datatype FormEntry = Absent | TextEntry(s: string) | FileEntry

  /**
   * A missing or empty field is rejected with 400; a non-empty text field has no
   * `arrayBuffer` and the call throws; a file (even an empty one) is written to
   * `raw/<freshId>.webm`. `freshId` stands for `randomUUID()`.
   */
  function Handle(w: World, video: FormEntry, freshId: string): (o: Outcome)
    ensures w.files <= o.world.files <= w.files + {RawVideo(freshId)}
    ensures Status(o.response) == 400 <==> video.Absent? || video == TextEntry("")
    ensures o.response.Error? ==> o.world == w && o.effects == []
    ensures o.response.Thrown? <==> video.TextEntry? && |video.s| > 0
    ensures o.response.Thrown? ==> o.world == w && o.effects == []
    ensures o.world.ledger == w.ledger
    ensures o.response.Reply? <==> video.FileEntry?
    ensures o.response.Reply? ==>
      && o.response.body == UploadBody(freshId)
      && o.world.files == w.files + {RawVideo(freshId)}
      && o.effects == [Write(RawVideo(freshId), None)]
  {
    match video
    case Absent => Reject(w, 400, "No video file provided")
    case TextEntry(s) => if |s| == 0 then Reject(w, 400, "No video file provided") else Outcome(Thrown, w, [])
    case FileEntry =>
      Outcome(Reply(UploadBody(freshId)), w.(files := w.files + {RawVideo(freshId)}), [Write(RawVideo(freshId), None)])
  }
}
