/**
 * The persisted service start instant (`load_or_init_state` in
 * src/service_core.rs). The file `state.json` is the `record` field of a
 * StateStore: `Some(text)` when the file can be read as UTF-8 text, `None`
 * when reading it fails for any reason: the file is missing, unreadable, or
 * not valid UTF-8. A record that is text but does not decode is a
 * StateCorrupt error; a record that cannot be read at all is overwritten
 * with the current instant. Instants are whole seconds.
 *
 * The JSON string and RFC 3339 layers (serde_json, chrono) are not modelled
 * character by character; they are a Codec given to the store, and the one
 * thing assumed of them, where a property needs it, is that decoding what
 * was encoded gives back the same instant (RoundTrips).
 */
module EpochStore {
  import opened Base

  /** Encoding of an instant as the text of state.json, and its parser. */
  datatype Codec = Codec(encode: int -> string, decode: string -> Option<int>)

  ghost predicate RoundTrips(codec: Codec) {
    forall t: int :: codec.decode(codec.encode(t)) == Some(t)
  }

  /** What one load returns, and what state.json holds afterwards. */
  datatype Loaded = Loaded(result: Result<int>, record: Option<string>)

  /** The effect of `load_or_init_state` when the clock reads `now`. */
  function LoadOrInit(record: Option<string>, writable: bool, now: int, codec: Codec): (l: Loaded)
    ensures record.Some? ==> l.record == record
    ensures l.result.Err? ==> l.record == record
    ensures l.result.Ok? ==> l.record.Some?
  {
    match record
    case Some(text) =>
      var parsed := codec.decode(text);
      Loaded(if parsed.Some? then Ok(parsed.value) else Err(StateCorrupt), record)
    case None =>
      if writable then Loaded(Ok(now), Some(codec.encode(now)))
      else Loaded(Err(StateWriteFailed), None)
  }

  /** A readable record is parsed and never rewritten; when it does not parse
      the load fails instead of starting afresh. */
  lemma ExistingRecordIsKept(text: string, writable: bool, now: int, codec: Codec)
    ensures LoadOrInit(Some(text), writable, now, codec).record == Some(text)
    ensures forall t :: LoadOrInit(Some(text), writable, now, codec).result == Ok(t) <==> codec.decode(text) == Some(t)
    ensures codec.decode(text).None? ==> LoadOrInit(Some(text), writable, now, codec).result == Err(StateCorrupt)
  {
  }

  /** When state.json cannot be read, the current instant is written and
      returned; if the write fails, the load fails and nothing is stored. */
  lemma UnreadableRecordIsInitialised(writable: bool, now: int, codec: Codec)
    ensures writable ==> LoadOrInit(None, writable, now, codec) == Loaded(Ok(now), Some(codec.encode(now)))
    ensures !writable ==> LoadOrInit(None, writable, now, codec) == Loaded(Err(StateWriteFailed), None)
  {
  }

  /** Once a load has succeeded, every later load returns the same instant,
      whatever the clock then reads, and leaves the record as it is. */
  lemma EpochIsStable(record: Option<string>, writable: bool, now: int, later: int, codec: Codec)
    requires RoundTrips(codec)
    requires LoadOrInit(record, writable, now, codec).result.Ok?
    ensures var first := LoadOrInit(record, writable, now, codec);
            LoadOrInit(first.record, writable, later, codec) == first
  {
  }

  /** state.json as the service sees it. */
  class StateStore {
    var record: Option<string>
    const writable: bool
    const codec: Codec

    constructor (record: Option<string>, writable: bool, codec: Codec)
      ensures this.record == record && this.writable == writable && this.codec == codec
    {
      this.record := record;
      this.writable := writable;
      this.codec := codec;
    }

    /** `load_or_init_state`, with `now` the reading of `Utc::now()` it takes. */
    method LoadOrInitState(now: int) returns (r: Result<int>)
      modifies this
      ensures Loaded(r, record) == LoadOrInit(old(record), writable, now, codec)
    {
      if record.Some? {
        var parsed := codec.decode(record.value);
        if parsed.Some? {
          r := Ok(parsed.value);
        } else {
          r := Err(StateCorrupt);
        }
      } else {
        var text := codec.encode(now);
        if !writable {
          r := Err(StateWriteFailed);
          return;
        }
        record := Some(text);
        r := Ok(now);
      }
    }
  }
}
