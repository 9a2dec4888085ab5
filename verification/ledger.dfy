/**
 * The metadata ledger `data/videos.json`: one record per trimmed video, keyed by
 * its id. The routes read the whole document, change one entry and write it back;
 * here a document is a map and each change is a pure function on it.
 */
module Ledger {
  import opened Wrappers
  import opened JsValue
  import opened JsMath
  import Storage

  /**
   * One entry of the ledger. `title`, `description` and `tags` are absent
   * (`Undefined`) until the metadata route first sets them, and then hold
   * whatever JSON value the request carried.
   */
  datatype Record = Record(
    id: string,
    filePath: string,
    viewCount: int,
    completionSum: real,
    duration: real,
    createdAt: string,
    title: Value,
    description: Value,
    tags: Value)

  type Store = map<string, Record>

  /** The record trim writes for a freshly cut video. */
  function NewRecord(id: string, startTime: real, endTime: real, createdAt: string): Record {
    Record(
      id := id,
      filePath := Storage.Url(Storage.TrimmedVideo(id)),
      viewCount := 0,
      completionSum := 0.0,
      duration := endTime - startTime,
      createdAt := createdAt,
      title := Undefined,
      description := Undefined,
      tags := Undefined)
  }

  /** Trim's write: a missing store starts empty, then the new record goes in under its id. */
  function Insert(store: Option<Store>, r: Record): (s: Store)
    ensures r.id in s && s[r.id] == r
    ensures s.Keys == store.GetOr(map[]).Keys + {r.id}
    ensures forall k :: k in store.GetOr(map[]) && k != r.id ==> s[k] == store.GetOr(map[])[k]
  {
    store.GetOr(map[])[r.id := r]
  }

  /**
   * The completion one playback contributes: watched seconds over duration,
   * capped at 1. There is no lower cap.
   */
  function Completion(watchedSeconds: real, duration: real): (c: real)
    requires duration != 0.0
    ensures c <= 1.0
    ensures c <= watchedSeconds / duration
    ensures c == 1.0 || c == watchedSeconds / duration
  {
    Min(watchedSeconds / duration, 1.0)
  }

  /** For a positive duration and non-negative watch time the completion is a fraction. */
  lemma CompletionIsFraction(watchedSeconds: real, duration: real)
    requires duration > 0.0 && watchedSeconds >= 0.0
    ensures 0.0 <= Completion(watchedSeconds, duration) <= 1.0
  {
  }

  /** Analytics' write: adds one playback's completion to the entry's `completionSum`. */
  function AddCompletion(store: Store, key: string, watchedSeconds: real): (s: Store)
    requires key in store && store[key].duration != 0.0
    ensures s.Keys == store.Keys
    ensures s[key].completionSum == store[key].completionSum + Completion(watchedSeconds, store[key].duration)
    ensures s[key] == store[key].(completionSum := s[key].completionSum)
    ensures forall k :: k in store && k != key ==> s[k] == store[k]
  {
    var r := store[key];
    store[key := r.(completionSum := r.completionSum + Completion(watchedSeconds, r.duration))]
  }

  /** A playback of a positive-length video with non-negative watch time never lowers the sum. */
  lemma AddCompletionMonotone(store: Store, key: string, watchedSeconds: real)
    requires key in store && store[key].duration > 0.0 && watchedSeconds >= 0.0
    ensures store[key].completionSum <= AddCompletion(store, key, watchedSeconds)[key].completionSum
      <= store[key].completionSum + 1.0
  {
    CompletionIsFraction(watchedSeconds, store[key].duration);
  }

  /** Metadata's write: title, description and tags replaced, with their defaults. */
  function SetMetadata(store: Store, key: string, title: Value, description: Value, tags: Value): (s: Store)
    requires key in store
    ensures s.Keys == store.Keys
    ensures s[key].title == (if Truthy(title) then title else Str(""))
    ensures s[key].description == (if Truthy(description) then description else Str(""))
    ensures s[key].tags == (if tags.Array? then tags else Array([]))
    ensures s[key] == store[key].(title := s[key].title, description := s[key].description, tags := s[key].tags)
    ensures forall k :: k in store && k != key ==> s[k] == store[k]
  {
    var r := store[key];
    store[key := r.(title := Or(title, Str("")),
                    description := Or(description, Str("")),
                    tags := if tags.Array? then tags else Array([]))]
  }

  /** Repeating the same metadata update changes nothing more. */
  lemma SetMetadataIdempotent(store: Store, key: string, title: Value, description: Value, tags: Value)
    requires key in store
    ensures SetMetadata(SetMetadata(store, key, title, description, tags), key, title, description, tags)
         == SetMetadata(store, key, title, description, tags)
  {
  }
}
