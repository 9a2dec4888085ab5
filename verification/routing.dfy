/**
 * What every route shares: the directives it hands to external tools, the effects
 * it performs in order, the JSON reply it sends, and the state it acts on (which
 * artifacts exist and what the ledger holds).
 */
module Routing {
  import opened Wrappers
  import opened Storage
  import JsValue
  import Ledger

  /**
   * An invocation of an external tool. The routes build a shell string and run it
   * through `exec`; `args` is the argument vector that string splits into. Besides
   * the arguments, a directive records the artifacts it reads and the one it writes.
   */
  datatype Directive = Directive(tool: string, args: seq<string>, inputs: seq<Locator>, output: Locator)

  /** `flag value` appears among the arguments, as two neighbours. */
  predicate HasOption(args: seq<string>, flag: string, value: string) {
    exists j :: 0 <= j < |args| - 1 && args[j] == flag && args[j + 1] == value
  }

  lemma HasOptionAt(args: seq<string>, j: int, flag: string, value: string)
    requires 0 <= j < |args| - 1 && args[j] == flag && args[j + 1] == value
    ensures HasOption(args, flag, value)
  {
  }

  /** The directive reads `path` through an `-i` option. */
  predicate ReadsPath(args: seq<string>, path: string) {
    HasOption(args, "-i", path)
  }

  /** The directive's last argument is the path it writes. */
  predicate WritesPath(args: seq<string>, path: string) {
    |args| > 0 && args[|args| - 1] == path
  }

  /** The request a route posts to the text-to-speech service. */
  datatype TtsRequest = TtsRequest(
    url: string,
    apiKey: string,
    text: JsValue.Value,
    modelId: string,
    stability: real,
    similarityBoost: real)

  /** Things a route does to the outside world, in the order it does them. */
  datatype Effect =
    | Run(d: Directive)
    | Post(request: TtsRequest)
    | Write(loc: Locator, text: Option<string>)   // `None`: opaque bytes
    | SaveLedger

  /** The JSON body of a successful reply; `message` is `None` where the route sends none. */
  datatype Body =
    | TrimBody(trimmedVideoId: string)
    | EditedBody(editedUrl: string, message: Option<string>)
    | SrtBody(srtUrl: string, message: Option<string>)
    | Mp4Body(mp4Url: string)
    | VoiceoverBody(voiceoverUrl: string, videoWithVoiceoverUrl: string, message: Option<string>)
    | UploadBody(videoId: string)
    | SuccessBody

  /**
   * A reply: success, an explicit error status with its message, or an exception
   * the handler does not catch (a rejected `exec`), which the server answers with 500.
   */
  datatype Response = Reply(body: Body) | Error(status: int, error: string) | Thrown

  function Status(r: Response): int {
    match r
    case Reply(_) => 200
    case Error(s, _) => s
    case Thrown => 500
  }

  /** The artifacts that exist and the ledger document, `None` when `data/videos.json` is missing. */
  datatype World = World(files: set<Locator>, ledger: Option<Ledger.Store>)

  datatype Outcome = Outcome(response: Response, world: World, effects: seq<Effect>)

  /** A guard failing: the reply is sent before anything is touched. */
  function Reject(w: World, status: int, message: string): (o: Outcome)
    ensures Status(o.response) == status && o.world == w && o.effects == []
  {
    Outcome(Error(status, message), w, [])
  }

  /** The state after a tool ran: on success its output exists, on failure nothing is added. */
  function AfterRun(w: World, d: Directive, ok: bool): (w': World)
    ensures w'.ledger == w.ledger
    ensures w'.files == if ok then w.files + {d.output} else w.files
  {
    if ok then w.(files := w.files + {d.output}) else w
  }
}
