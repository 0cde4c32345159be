/**
 * The client side of the analysis backend (src/services/api.service.ts):
 * the request shape of page processing, the error message a failed upload or
 * processing call raises, and `processPageWithProgress`, which reads a POST
 * response as a stream of `event:`/`data:` frames, reports progress and
 * errors through callbacks, and settles one promise.
 */
module ApiService {
  import opened Wrappers
  import opened SseFrames

  // ---------------------------------------------------------------------------
  // Requests
  // ---------------------------------------------------------------------------

  /** The closed set of `model_type` tokens of a processing request. */
  datatype ModelType = Electrical | FireSprinkler | FireAlarm | Mechanical | Plumbing
  {
    function Token(): string
    {
      match this
      case Electrical => "electrical"
      case FireSprinkler => "fire_sprinkler"
      case FireAlarm => "fire_alarm"
      case Mechanical => "mechanical"
      case Plumbing => "plumbing"
    }
  }

  /** The body of a page-processing request. */
  datatype ProcessPageRequest = ProcessPageRequest(
    fileId: string, pageNumber: int, modelType: ModelType, includeRawDetections: bool)

  // ---------------------------------------------------------------------------
  // Error messages of uploadPDF and processPage
  // ---------------------------------------------------------------------------

  /**
   * The body of a non-OK response as `response.json()` sees it: not JSON at
   * all, or a JSON object whose `detail` field may be missing.
   */
  datatype ErrorBody = NotJson | JsonBody(detail: Option<string>)

  /**
   * `(await response.json().catch(() => ({ detail: unreadable }))).detail || generic`:
   * an unreadable body takes the substitute detail, and a missing or empty
   * detail (both falsy) falls back to the generic message.
   */
  function ThrownDetail(body: ErrorBody, unreadable: string, generic: string): string
  {
    var detail := match body
      case NotJson => Some(unreadable)
      case JsonBody(d) => d;
    if detail.Some? && detail.value != "" then detail.value else generic
  }

  /** The message of the error a failed upload raises. */
  function UploadErrorMessage(body: ErrorBody): (m: string)
    ensures m != ""
    ensures body.NotJson? ==> m == "Upload failed"
    ensures body.JsonBody? && body.detail.Some? && body.detail.value != "" ==> m == body.detail.value
    ensures body.JsonBody? && (body.detail.None? || body.detail.value == "") ==> m == "Failed to upload PDF"
  {
    ThrownDetail(body, "Upload failed", "Failed to upload PDF")
  }

  /** The message of the error a failed (non-streaming) processing call raises. */
  function ProcessPageErrorMessage(body: ErrorBody): (m: string)
    ensures m != ""
    ensures body.NotJson? ==> m == "Processing failed"
    ensures body.JsonBody? && body.detail.Some? && body.detail.value != "" ==> m == body.detail.value
    ensures body.JsonBody? && (body.detail.None? || body.detail.value == "") ==> m == "Failed to process page"
  {
    ThrownDetail(body, "Processing failed", "Failed to process page")
  }

  // ---------------------------------------------------------------------------
  // processPageWithProgress: state and steps
  // ---------------------------------------------------------------------------

  /** The result of `JSON.parse`: a value, or the message of the SyntaxError it throws. */
  datatype Parsed<J> = Parsed(value: J) | SyntaxError(message: string)

  /**
   * Reading `data.error` of a parsed payload: the text it reads as, or the
   * message of the TypeError it throws (the payload `null`, for one).
   */
  datatype FieldRead = Field(text: string) | Throws(message: string)

  /**
   * JSON as the stream uses it, left uninterpreted: how a payload text
   * parses, and how `data.error` of a parsed error payload reads.
   */
  datatype JsonOracle<!J> = JsonOracle(parse: string -> Parsed<J>, errorField: J -> FieldRead)

  /** How the `fetch` of the streaming endpoint came back. */
  datatype Connection = FetchFailed(message: string) | Responded(ok: bool, hasBody: bool)

  /**
   * Where the read loop is: waiting for the response, reading chunks, left
   * because the reader reported `done`, or left by a throw into `.catch`.
   */
  datatype Phase = Connecting | Reading | Ended | Failed

  /** The returned promise; once settled, later `resolve`/`reject` calls have no effect. */
  datatype Settlement<J> = Pending | Resolved(value: J) | Rejected(message: string)

  /** What the caller observes: the promise and the calls of `onProgress` and `onError`, in order. */
  datatype Observed<J> = Observed(phase: Phase, settlement: Settlement<J>, progress: seq<J>, errors: seq<string>)

  /** The read loop's text buffer together with what has been observed. */
  datatype Decoder<J> = Decoder(buffer: string, obs: Observed<J>)

  function Initial<J>(): Decoder<J>
  {
    Decoder("", Observed(Connecting, Pending, [], []))
  }

  /** Promise semantics: the first settlement wins. */
  function Settle<J>(current: Settlement<J>, next: Settlement<J>): Settlement<J>
  {
    if current.Pending? then next else current
  }

  /** The `.catch` handler: `onError(error.message)`, then `reject(error)`; the loop is left. */
  function Abort<J>(o: Observed<J>, message: string): Observed<J>
  {
    o.(phase := Failed, errors := o.errors + [message], settlement := Settle(o.settlement, Rejected(message)))
  }

  /**
   * One pass of the frame loop. Only a loop that is still reading dispatches.
   * A frame without an event is skipped; otherwise its payload is parsed
   * whatever the event type, and a parse failure throws into `.catch`, as
   * does reading `data.error` of an error payload that has no fields.
   */
  function DispatchFrame<J>(json: JsonOracle<J>, o: Observed<J>, frame: string): Observed<J>
  {
    if o.phase != Reading then o
    else match ParseFrame(frame)
      case None => o
      case Some(ev) =>
        match json.parse(ev.data)
        case SyntaxError(m) => Abort(o, m)
        case Parsed(v) =>
          if ev.eventType == "progress" then o.(progress := o.progress + [v])
          else if ev.eventType == "result" then o.(settlement := Settle(o.settlement, Resolved(v)))
          else if ev.eventType == "error" then
            match json.errorField(v)
            case Throws(m) => Abort(o, m)
            case Field(m) => o.(errors := o.errors + [m], settlement := Settle(o.settlement, Rejected(m)))
          else o
  }

  /** The frame loop over the frames of one chunk, in order. */
  function DispatchAll<J>(json: JsonOracle<J>, o: Observed<J>, frames: seq<string>): Observed<J>
  {
    if frames == [] then o
    else DispatchFrame(json, DispatchAll(json, o, frames[..|frames| - 1]), frames[|frames| - 1])
  }

  /** The response arrives: a failed fetch, a non-OK status or a missing body throws into `.catch`. */
  function ConnectStep<J>(o: Observed<J>, c: Connection): Observed<J>
  {
    if o.phase != Connecting then o
    else match c
      case FetchFailed(m) => Abort(o, m)
      case Responded(ok, hasBody) =>
        if !ok then Abort(o, "Failed to start processing")
        else if !hasBody then Abort(o, "No response body")
        else o.(phase := Reading)
  }

  /** One pass of the read loop: append the chunk, split, keep the tail, dispatch the frames. */
  function FeedStep<J>(json: JsonOracle<J>, d: Decoder<J>, chunk: string): Decoder<J>
  {
    if d.obs.phase != Reading then d
    else
      var (frames, rest) := Cut(d.buffer + chunk);
      Decoder(rest, DispatchAll(json, d.obs, frames))
  }

  /** The reader reports `done`: the loop is left and the buffer is dropped unparsed. */
  function EndStep<J>(o: Observed<J>): Observed<J>
  {
    if o.phase != Reading then o else o.(phase := Ended)
  }

  /** A read rejects: the rejection goes to `.catch`. */
  function ReadFailStep<J>(o: Observed<J>, message: string): Observed<J>
  {
    if o.phase != Reading then o else Abort(o, message)
  }

  // ---------------------------------------------------------------------------
  // processPageWithProgress: the running operation
  // ---------------------------------------------------------------------------

  /**
   * One call of `processPageWithProgress`: the loop's `buffer`, the promise,
   * and the calls made to `onProgress` and `onError`. The environment drives
   * it with the response, the chunks read, and end of stream or a read error.
   * `received` and `frames` record all text read and all frames split off.
   */
  class ProcessStream<J> {
    const json: JsonOracle<J>
    var phase: Phase
    var buffer: string
    var settlement: Settlement<J>
    var progressLog: seq<J>
    var errorLog: seq<string>
    ghost var received: string
    ghost var frames: seq<string>

    /** The buffer is always the unterminated tail of everything read. */
    ghost predicate Valid()
      reads this
    {
      SplitOnDelim(received) == frames + [buffer]
    }

    function State(): Decoder<J>
      reads this
    {
      Decoder(buffer, Observed(phase, settlement, progressLog, errorLog))
    }

    constructor (json: JsonOracle<J>)
      ensures Valid() && this.json == json
      ensures State() == Initial() && received == "" && frames == []
    {
      this.json := json;
      phase, buffer, settlement := Connecting, "", Pending;
      progressLog, errorLog := [], [];
      received, frames := "", [];
    }

    /** The `fetch` settles, and the `ok` and body checks run. */
    method Connect(c: Connection)
      requires Valid()
      modifies this
      ensures Valid() && received == old(received) && frames == old(frames)
      ensures State() == old(State()).(obs := ConnectStep(old(State()).obs, c))
    {
      if phase == Connecting {
        match c {
          case FetchFailed(m) =>
            Fail(m);
          case Responded(ok, hasBody) =>
            if !ok {
              Fail("Failed to start processing");
            } else if !hasBody {
              Fail("No response body");
            } else {
              phase := Reading;
            }
        }
      }
    }

    /** `.catch`: report the message, reject (first settlement wins) and leave the loop. */
    method Fail(message: string)
      requires Valid()
      modifies this
      ensures Valid() && received == old(received) && frames == old(frames) && buffer == old(buffer)
      ensures State().obs == Abort(old(State()).obs, message)
    {
      errorLog := errorLog + [message];
      if settlement.Pending? {
        settlement := Rejected(message);
      }
      phase := Failed;
    }

    /**
     * One chunk read: `buffer += chunk`, split on blank lines, keep the last
     * piece, then dispatch every complete frame in order until one throws.
     */
    method FeedChunk(chunk: string)
      requires Valid()
      modifies this
      ensures Valid()
      ensures State() == FeedStep(json, old(State()), chunk)
      ensures old(phase) == Reading ==>
        received == old(received) + chunk && frames == old(frames) + Cut(old(buffer) + chunk).0
      ensures old(phase) != Reading ==> received == old(received) && frames == old(frames)
    {
      if phase != Reading {
        return;
      }
      ghost var start := State().obs;
      var (lines, rest) := Cut(buffer + chunk);
      SplitExtend(received, frames, buffer, chunk);
      buffer := rest;
      received, frames := received + chunk, frames + lines;
      var i := 0;
      while i < |lines| && phase == Reading
        invariant 0 <= i <= |lines|
        invariant Valid() && buffer == rest
        invariant received == old(received) + chunk && frames == old(frames) + lines
        invariant State().obs == DispatchAll(json, start, lines[..i])
      {
        assert lines[..i + 1][..i] == lines[..i];
        Dispatch(lines[i]);
        i := i + 1;
      }
      DispatchAllSplit(json, start, lines, i);
    }

    /** The body of the frame loop for one frame. */
    method Dispatch(frame: string)
      requires Valid() && phase == Reading
      modifies this
      ensures Valid() && received == old(received) && frames == old(frames) && buffer == old(buffer)
      ensures State().obs == DispatchFrame(json, old(State()).obs, frame)
    {
      match ParseFrame(frame) {
        case None =>
        case Some(ev) =>
          match json.parse(ev.data) {
            case SyntaxError(m) =>
              Fail(m);
            case Parsed(v) =>
              if ev.eventType == "progress" {
                progressLog := progressLog + [v];
              } else if ev.eventType == "result" {
                if settlement.Pending? {
                  settlement := Resolved(v);
                }
              } else if ev.eventType == "error" {
                match json.errorField(v) {
                  case Throws(m) =>
                    Fail(m);
                  case Field(m) =>
                    errorLog := errorLog + [m];
                    if settlement.Pending? {
                      settlement := Rejected(m);
                    }
                }
              }
          }
      }
    }

    /** The reader reports `done`: the loop breaks, leaving the buffer unparsed. */
    method EndOfStream()
      requires Valid()
      modifies this
      ensures Valid() && received == old(received) && frames == old(frames)
      ensures State() == old(State()).(obs := EndStep(old(State()).obs))
    {
      if phase == Reading {
        phase := Ended;
      }
    }

    /** A read rejects with `message`. */
    method ReadFailure(message: string)
      requires Valid()
      modifies this
      ensures Valid() && received == old(received) && frames == old(frames)
      ensures State() == old(State()).(obs := ReadFailStep(old(State()).obs, message))
    {
      if phase == Reading {
        Fail(message);
      }
    }
  }

  // ---------------------------------------------------------------------------
  // Facts about the frame loop that FeedChunk relies on
  // ---------------------------------------------------------------------------

  /** Reading `chunk` keeps the buffer the unterminated tail of everything read. */
  lemma SplitExtend(received: string, frames: seq<string>, buffer: string, chunk: string)
    requires SplitOnDelim(received) == frames + [buffer]
    ensures SplitOnDelim(received + chunk) == frames + Cut(buffer + chunk).0 + [Cut(buffer + chunk).1]
  {
    SplitAppend(received, chunk);
    var ps := frames + [buffer];
    assert ps[..|ps| - 1] == frames && ps[|ps| - 1] == buffer;
  }

  /** Dispatching `a` then `b` is dispatching `a + b`. */
  lemma {:induction false} DispatchAllAppend<J>(json: JsonOracle<J>, o: Observed<J>, a: seq<string>, b: seq<string>)
    ensures DispatchAll(json, o, a + b) == DispatchAll(json, DispatchAll(json, o, a), b)
    decreases |b|
  {
    if b == [] {
      assert a + b == a;
    } else {
      assert (a + b)[..|a + b| - 1] == a + b[..|b| - 1];
      assert (a + b)[|a + b| - 1] == b[|b| - 1];
      DispatchAllAppend(json, o, a, b[..|b| - 1]);
    }
  }

  /** A loop that has stopped reading dispatches nothing more. */
  lemma {:induction false} DispatchAllInert<J>(json: JsonOracle<J>, o: Observed<J>, frames: seq<string>)
    requires o.phase != Reading
    ensures DispatchAll(json, o, frames) == o
    decreases |frames|
  {
    if frames != [] {
      DispatchAllInert(json, o, frames[..|frames| - 1]);
    }
  }

  /** Leaving the loop early after `i` frames because one threw is the same as dispatching all of them. */
  lemma DispatchAllSplit<J>(json: JsonOracle<J>, o: Observed<J>, frames: seq<string>, i: nat)
    requires i <= |frames|
    requires i < |frames| ==> DispatchAll(json, o, frames[..i]).phase != Reading
    ensures DispatchAll(json, o, frames) == DispatchAll(json, o, frames[..i])
  {
    if i < |frames| {
      assert frames == frames[..i] + frames[i..];
      DispatchAllAppend(json, o, frames[..i], frames[i..]);
      DispatchAllInert(json, DispatchAll(json, o, frames[..i]), frames[i..]);
    } else {
      assert frames[..i] == frames;
    }
  }
}
