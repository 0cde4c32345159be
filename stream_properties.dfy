/**
 * What `processPageWithProgress` guarantees over a whole stream: the frames
 * and the observable behaviour do not depend on how the response is cut into
 * chunks, the first terminal frame settles the promise, and progress and
 * error reports arrive once each and in stream order.
 */
module StreamProperties {
  import opened Wrappers
  import opened SseFrames
  import opened ApiService

  // ---------------------------------------------------------------------------
  // Feeding a sequence of chunks
  // ---------------------------------------------------------------------------

  function Concat(chunks: seq<string>): string
  {
    if chunks == [] then "" else Concat(chunks[..|chunks| - 1]) + chunks[|chunks| - 1]
  }

  /** The read loop over successive chunks. */
  function FeedAll<J>(json: JsonOracle<J>, d: Decoder<J>, chunks: seq<string>): Decoder<J>
  {
    if chunks == [] then d else FeedStep(json, FeedAll(json, d, chunks[..|chunks| - 1]), chunks[|chunks| - 1])
  }

  /** The splitting half of the read loop alone: all frames emitted, and the final buffer. */
  function Reassemble(buffer: string, chunks: seq<string>): (seq<string>, string)
  {
    if chunks == [] then ([], buffer)
    else
      var (frames, rest) := Reassemble(buffer, chunks[..|chunks| - 1]);
      var (more, rest') := Cut(rest + chunks[|chunks| - 1]);
      (frames + more, rest')
  }

  /**
   * Two decoders behave alike: they have observed the same, and if still
   * reading they hold the same buffer. (A buffer left behind by a loop that
   * has stopped is never looked at again.)
   */
  ghost predicate SameBehaviour<J>(a: Decoder<J>, b: Decoder<J>)
  {
    a.obs == b.obs && (a.obs.phase == Reading ==> a.buffer == b.buffer)
  }

  /** A buffer without a delimiter splits into itself. */
  lemma CutDelimFree(b: string)
    requires !HasDelim(b)
    ensures Cut(b) == ([], b)
  {
    assert FirstDelim(b).None?;
    assert SplitOnDelim(b) == [b];
  }

  /** Splitting `b + x` and then the tail with `c` is splitting `b + x + c`. */
  lemma CutTwice(bx: string, c: string)
    ensures var (fs, l) := Cut(bx); var (gs, l') := Cut(l + c); Cut(bx + c) == (fs + gs, l')
  {
    var l := Cut(bx).1;
    SplitAppend(bx, c);
    SnocAlgebra(SplitOnDelim(bx), Cut(bx).0, l, SplitOnDelim(l + c), Cut(l + c).0, Cut(l + c).1,
      SplitOnDelim(bx + c), Cut(bx + c).0, Cut(bx + c).1);
  }

  /** The sequence algebra behind CutTwice: re-splitting the last piece. */
  lemma SnocAlgebra<T>(ps: seq<T>, fs: seq<T>, l: T, qs: seq<T>, gs: seq<T>, l': T, rs: seq<T>, hs: seq<T>, l'': T)
    requires fs + [l] == ps && gs + [l'] == qs && hs + [l''] == rs
    requires rs == ps[..|ps| - 1] + qs
    ensures hs == fs + gs && l'' == l'
  {
    SnocParts(fs, l, ps);
    assert hs + [l''] == (fs + gs) + [l'];
    SnocInjective(hs, l'', fs + gs, l');
  }

  lemma SnocParts<T>(a: seq<T>, x: T, ps: seq<T>)
    requires a + [x] == ps
    ensures |ps| > 0 && ps[..|ps| - 1] == a && ps[|ps| - 1] == x
  {
    assert ps[..|ps| - 1] == (a + [x])[..|a|];
  }

  lemma SnocInjective<T>(a: seq<T>, x: T, b: seq<T>, y: T)
    requires a + [x] == b + [y]
    ensures a == b && x == y
  {
    assert a == (a + [x])[..|a|];
    assert b == (b + [y])[..|b|];
  }

  /**
   * Chunk-boundary invariance of the framing: whatever the chunking, the
   * frames emitted and the final buffer are those of the whole text read as
   * one chunk.
   */
  lemma {:induction false} FramingInvariance(buffer: string, chunks: seq<string>)
    requires !HasDelim(buffer)
    ensures Reassemble(buffer, chunks) == Cut(buffer + Concat(chunks))
    decreases |chunks|
  {
    if chunks == [] {
      CutDelimFree(buffer);
      assert buffer + "" == buffer;
    } else {
      var init, c := chunks[..|chunks| - 1], chunks[|chunks| - 1];
      var x := buffer + Concat(init);
      assert x + c == buffer + Concat(chunks) by {
        assert Concat(chunks) == Concat(init) + c;
      }
      FramingInvariance(buffer, init);
      ReassembleUnfold(buffer, chunks);
      CutTwice(x, c);
    }
  }

  lemma ReassembleUnfold(buffer: string, chunks: seq<string>)
    requires chunks != []
    ensures var prev := Reassemble(buffer, chunks[..|chunks| - 1]);
      var next := Cut(prev.1 + chunks[|chunks| - 1]);
      Reassemble(buffer, chunks) == (prev.0 + next.0, next.1)
  {
  }

  /** The same, stated as: feeding the chunks one by one emits what feeding their concatenation does. */
  lemma OneChunkSuffices(buffer: string, chunks: seq<string>)
    requires !HasDelim(buffer)
    ensures Reassemble(buffer, chunks) == Reassemble(buffer, [Concat(chunks)])
  {
    FramingInvariance(buffer, chunks);
    FramingInvariance(buffer, [Concat(chunks)]);
    assert [Concat(chunks)][..0] == [];
    assert Concat([Concat(chunks)]) == Concat(chunks);
  }

  /** Feeding respects SameBehaviour. */
  lemma FeedStepCongruent<J>(json: JsonOracle<J>, a: Decoder<J>, b: Decoder<J>, c: string)
    requires SameBehaviour(a, b)
    ensures SameBehaviour(FeedStep(json, a, c), FeedStep(json, b, c))
  {
    if a.obs.phase == Reading {
      assert a == b;
    }
  }

  /** Feeding `x` then `c` behaves like feeding `x + c`. */
  lemma FeedTwice<J>(json: JsonOracle<J>, d: Decoder<J>, x: string, c: string)
    ensures SameBehaviour(FeedStep(json, FeedStep(json, d, x), c), FeedStep(json, d, x + c))
  {
    if d.obs.phase == Reading {
      var (fs, l) := Cut(d.buffer + x);
      var (gs, l') := Cut(l + c);
      CutTwice(d.buffer + x, c);
      assert d.buffer + x + c == d.buffer + (x + c);
      var o1 := DispatchAll(json, d.obs, fs);
      DispatchAllAppend(json, d.obs, fs, gs);
      if o1.phase != Reading {
        DispatchAllInert(json, o1, gs);
      }
    }
  }

  /**
   * Chunk-boundary invariance of the whole operation: feeding the chunks one
   * by one and feeding their concatenation as one chunk observe the same
   * progress calls, error calls and settlement, and leave the same buffer
   * while still reading.
   */
  lemma {:induction false} ChunkingInvariance<J>(json: JsonOracle<J>, d: Decoder<J>, chunks: seq<string>)
    requires !HasDelim(d.buffer)
    ensures SameBehaviour(FeedAll(json, d, chunks), FeedStep(json, d, Concat(chunks)))
    decreases |chunks|
  {
    if chunks == [] {
      if d.obs.phase == Reading {
        CutDelimFree(d.buffer);
        assert d.buffer + "" == d.buffer;
      }
    } else {
      var init, c := chunks[..|chunks| - 1], chunks[|chunks| - 1];
      ChunkingInvariance(json, d, init);
      FeedStepCongruent(json, FeedAll(json, d, init), FeedStep(json, d, Concat(init)), c);
      FeedTwice(json, d, Concat(init), c);
    }
  }

  // ---------------------------------------------------------------------------
  // Settlement
  // ---------------------------------------------------------------------------

  /** Once settled, no frame changes the settlement. */
  lemma {:induction false} DispatchKeepsSettlement<J>(json: JsonOracle<J>, o: Observed<J>, frames: seq<string>)
    requires !o.settlement.Pending?
    ensures DispatchAll(json, o, frames).settlement == o.settlement
    decreases |frames|
  {
    if frames != [] {
      DispatchKeepsSettlement(json, o, frames[..|frames| - 1]);
    }
  }

  /**
   * First settlement wins over the whole stream: once the promise is settled,
   * later chunks, later terminal frames, end of stream and read failures
   * leave it as it is.
   */
  lemma {:induction false} SettledStaysSettled<J>(json: JsonOracle<J>, d: Decoder<J>, chunks: seq<string>, failure: string)
    requires !d.obs.settlement.Pending?
    ensures FeedAll(json, d, chunks).obs.settlement == d.obs.settlement
    ensures EndStep(d.obs).settlement == d.obs.settlement
    ensures ReadFailStep(d.obs, failure).settlement == d.obs.settlement
    decreases |chunks|
  {
    if chunks != [] {
      SettledStaysSettled(json, d, chunks[..|chunks| - 1], failure);
      var d' := FeedAll(json, d, chunks[..|chunks| - 1]);
      if d'.obs.phase == Reading {
        DispatchKeepsSettlement(json, d'.obs, Cut(d'.buffer + chunks[|chunks| - 1]).0);
      }
    }
  }

  // ---------------------------------------------------------------------------
  // Reports in stream order
  // ---------------------------------------------------------------------------

  /**
   * The message a frame throws into `.catch` when dispatched: its payload
   * does not parse, or it is an `error` event whose `data.error` cannot be
   * read. A frame without an event throws nothing.
   */
  function ThrowOf<J>(json: JsonOracle<J>, frame: string): Option<string>
  {
    match ParseFrame(frame)
    case None => None
    case Some(ev) =>
      match json.parse(ev.data)
      case SyntaxError(m) => Some(m)
      case Parsed(v) =>
        if ev.eventType == "error" && json.errorField(v).Throws? then Some(json.errorField(v).message)
        else None
  }

  predicate NoThrow<J>(json: JsonOracle<J>, frame: string)
  {
    ThrowOf(json, frame).None?
  }

  predicate NoneThrow<J>(json: JsonOracle<J>, frames: seq<string>)
  {
    forall k :: 0 <= k < |frames| ==> NoThrow(json, frames[k])
  }

  /** The frame is a `progress` event with a parsed payload: what `onProgress` receives. */
  function ProgressOf<J>(json: JsonOracle<J>, frame: string): seq<J>
  {
    match ParseFrame(frame)
    case Some(Event("progress", data)) =>
      (match json.parse(data) case Parsed(v) => [v] case SyntaxError(_) => [])
    case _ => []
  }

  /** The frame is an `error` event with a readable `data.error`: what `onError` receives. */
  function ErrorOf<J>(json: JsonOracle<J>, frame: string): seq<string>
  {
    match ParseFrame(frame)
    case Some(Event("error", data)) =>
      (match json.parse(data)
       case Parsed(v) => (match json.errorField(v) case Field(m) => [m] case Throws(_) => [])
       case SyntaxError(_) => [])
    case _ => []
  }

  /** How the frame alone would settle the promise: `result` resolves, `error` rejects. */
  function SettlementOf<J>(json: JsonOracle<J>, frame: string): Settlement<J>
  {
    match ParseFrame(frame)
    case Some(ev) =>
      (match json.parse(ev.data)
       case Parsed(v) =>
         if ev.eventType == "result" then Resolved(v)
         else if ev.eventType == "error" then
           (match json.errorField(v) case Field(m) => Rejected(m) case Throws(_) => Pending)
         else Pending
       case SyntaxError(_) => Pending)
    case None => Pending
  }

  /** Every progress payload of the frames, in stream order. */
  function ProgressReports<J>(json: JsonOracle<J>, frames: seq<string>): seq<J>
  {
    if frames == [] then [] else ProgressOf(json, frames[0]) + ProgressReports(json, frames[1..])
  }

  /** Every error message of the frames, in stream order. */
  function ErrorReports<J>(json: JsonOracle<J>, frames: seq<string>): seq<string>
  {
    if frames == [] then [] else ErrorOf(json, frames[0]) + ErrorReports(json, frames[1..])
  }

  /** The settlement of the first terminal frame, or Pending if there is none. */
  function FirstSettlement<J>(json: JsonOracle<J>, frames: seq<string>): Settlement<J>
  {
    if frames == [] then Pending
    else Settle(SettlementOf(json, frames[0]), FirstSettlement(json, frames[1..]))
  }

  /** FirstSettlement is the settlement of the frame at the first index that has one. */
  lemma {:induction false} FirstSettlementIsFirst<J>(json: JsonOracle<J>, frames: seq<string>)
    ensures var r := FirstSettlement(json, frames);
      (r.Pending? <==> forall k :: 0 <= k < |frames| ==> SettlementOf(json, frames[k]).Pending?)
      && (!r.Pending? ==>
        exists k :: (0 <= k < |frames| && r == SettlementOf(json, frames[k])
          && forall j :: 0 <= j < k ==> SettlementOf(json, frames[j]).Pending?))
    decreases |frames|
  {
    if frames != [] {
      var tail := frames[1..];
      FirstSettlementIsFirst(json, tail);
      assert forall k :: 1 <= k < |frames| ==> frames[k] == tail[k - 1];
      var r := FirstSettlement(json, frames);
      if SettlementOf(json, frames[0]).Pending? && !r.Pending? {
        var k :| 0 <= k < |tail| && r == SettlementOf(json, tail[k])
          && forall j :: 0 <= j < k ==> SettlementOf(json, tail[j]).Pending?;
        assert r == SettlementOf(json, frames[k + 1]);
        forall j | 0 <= j < k + 1 ensures SettlementOf(json, frames[j]).Pending? {
          if j > 0 { assert frames[j] == tail[j - 1]; }
        }
      }
    }
  }

  lemma Settle3<J>(a: Settlement<J>, b: Settlement<J>, c: Settlement<J>)
    ensures Settle(Settle(a, b), c) == Settle(a, Settle(b, c))
  {
  }

  /** The front-to-back report definitions extend at the back one frame at a time. */
  lemma {:induction false} ProgressSnoc<J>(json: JsonOracle<J>, frames: seq<string>, f: string)
    ensures ProgressReports(json, frames + [f]) == ProgressReports(json, frames) + ProgressOf(json, f)
    decreases |frames|
  {
    if frames == [] {
      assert [f][1..] == [];
    } else {
      assert (frames + [f])[1..] == frames[1..] + [f];
      ProgressSnoc(json, frames[1..], f);
    }
  }

  lemma {:induction false} ErrorSnoc<J>(json: JsonOracle<J>, frames: seq<string>, f: string)
    ensures ErrorReports(json, frames + [f]) == ErrorReports(json, frames) + ErrorOf(json, f)
    decreases |frames|
  {
    if frames == [] {
      assert [f][1..] == [];
    } else {
      assert (frames + [f])[1..] == frames[1..] + [f];
      ErrorSnoc(json, frames[1..], f);
    }
  }

  lemma {:induction false} SettlementSnoc<J>(json: JsonOracle<J>, frames: seq<string>, f: string)
    ensures FirstSettlement(json, frames + [f]) == Settle(FirstSettlement(json, frames), SettlementOf(json, f))
    decreases |frames|
  {
    if frames == [] {
      assert [f][1..] == [];
    } else {
      assert (frames + [f])[1..] == frames[1..] + [f];
      SettlementSnoc(json, frames[1..], f);
      Settle3(SettlementOf(json, frames[0]), FirstSettlement(json, frames[1..]), SettlementOf(json, f));
    }
  }

  /**
   * One frame of a loop still reading, when the frame does not throw (its
   * payload parses and, for an `error` frame, `data.error` can be read).
   */
  lemma DispatchFrameReports<J>(json: JsonOracle<J>, o: Observed<J>, f: string)
    requires o.phase == Reading && NoThrow(json, f)
    ensures DispatchFrame(json, o, f) == Observed(Reading, Settle(o.settlement, SettlementOf(json, f)),
      o.progress + ProgressOf(json, f), o.errors + ErrorOf(json, f))
  {
  }

  lemma NoneThrowInit<J>(json: JsonOracle<J>, frames: seq<string>)
    requires frames != [] && NoneThrow(json, frames)
    ensures NoneThrow(json, frames[..|frames| - 1]) && NoThrow(json, frames[|frames| - 1])
  {
    var init := frames[..|frames| - 1];
    forall k | 0 <= k < |init| ensures NoThrow(json, init[k]) {
      assert init[k] == frames[k];
    }
  }

  /**
   * When no frame throws (every payload parses and every `error` payload's
   * `data.error` can be read), the loop keeps reading; `onProgress` gets
   * every progress payload once and in order, including those after the
   * promise settled; `onError` gets every error message likewise; and the
   * first terminal frame decides the settlement (if not already settled).
   */
  lemma {:induction false} DispatchReports<J>(json: JsonOracle<J>, o: Observed<J>, frames: seq<string>)
    requires o.phase == Reading && NoneThrow(json, frames)
    ensures DispatchAll(json, o, frames) == Observed(Reading,
      Settle(o.settlement, FirstSettlement(json, frames)),
      o.progress + ProgressReports(json, frames), o.errors + ErrorReports(json, frames))
    decreases |frames|
  {
    if frames != [] {
      NoneThrowInit(json, frames);
      DispatchReports(json, o, frames[..|frames| - 1]);
      DispatchReportsStep(json, o, frames);
    }
  }

  /** The inductive step of DispatchReports: one more frame that does not throw, at the end. */
  lemma DispatchReportsStep<J>(json: JsonOracle<J>, o: Observed<J>, frames: seq<string>)
    requires o.phase == Reading && frames != [] && NoThrow(json, frames[|frames| - 1])
    requires var init := frames[..|frames| - 1];
      DispatchAll(json, o, init) == Observed(Reading,
        Settle(o.settlement, FirstSettlement(json, init)),
        o.progress + ProgressReports(json, init), o.errors + ErrorReports(json, init))
    ensures DispatchAll(json, o, frames) == Observed(Reading,
      Settle(o.settlement, FirstSettlement(json, frames)),
      o.progress + ProgressReports(json, frames), o.errors + ErrorReports(json, frames))
  {
    var init, f := frames[..|frames| - 1], frames[|frames| - 1];
    var mid := DispatchAll(json, o, init);
    DispatchFrameReports(json, mid, f);
    ReportsSnocLast(json, frames);
    ObservedGlue(o, mid, FirstSettlement(json, init), SettlementOf(json, f),
      ProgressReports(json, init), ProgressOf(json, f), ErrorReports(json, init), ErrorOf(json, f));
  }

  /** The three report definitions, split before the last frame. */
  lemma ReportsSnocLast<J>(json: JsonOracle<J>, frames: seq<string>)
    requires frames != []
    ensures var init, f := frames[..|frames| - 1], frames[|frames| - 1];
      && ProgressReports(json, frames) == ProgressReports(json, init) + ProgressOf(json, f)
      && ErrorReports(json, frames) == ErrorReports(json, init) + ErrorOf(json, f)
      && FirstSettlement(json, frames) == Settle(FirstSettlement(json, init), SettlementOf(json, f))
  {
    var init, f := frames[..|frames| - 1], frames[|frames| - 1];
    assert frames == init + [f];
    ProgressSnoc(json, init, f);
    ErrorSnoc(json, init, f);
    SettlementSnoc(json, init, f);
  }

  /** Reports of a prefix followed by one frame's reports add up as the reports of the whole. */
  lemma ObservedGlue<J>(o: Observed<J>, mid: Observed<J>, s0: Settlement<J>, s1: Settlement<J>,
                        p0: seq<J>, p1: seq<J>, e0: seq<string>, e1: seq<string>)
    requires mid == Observed(Reading, Settle(o.settlement, s0), o.progress + p0, o.errors + e0)
    ensures Observed(Reading, Settle(mid.settlement, s1), mid.progress + p1, mid.errors + e1)
      == Observed(Reading, Settle(o.settlement, Settle(s0, s1)), o.progress + (p0 + p1), o.errors + (e0 + e1))
  {
    Settle3(o.settlement, s0, s1);
    assert o.progress + p0 + p1 == o.progress + (p0 + p1);
    assert o.errors + e0 + e1 == o.errors + (e0 + e1);
  }

  /**
   * A frame that throws (a payload that does not parse, or an `error`
   * payload whose `data.error` cannot be read) leaves the loop: `onError`
   * gets the thrown message, the promise is rejected unless already settled,
   * and no later frame is dispatched at all, so `onProgress` is not called again.
   */
  lemma ThrowAborts<J>(json: JsonOracle<J>, o: Observed<J>, pre: seq<string>, f: string, post: seq<string>)
    requires o.phase == Reading && NoneThrow(json, pre)
    requires ThrowOf(json, f).Some?
    ensures var before := DispatchAll(json, o, pre);
      var after := DispatchAll(json, o, pre + [f] + post);
      && after == Abort(before, ThrowOf(json, f).value)
      && before.phase == Reading
      && after.phase == Failed && after.progress == before.progress
  {
    DispatchReports(json, o, pre);
    DispatchAllAppend(json, o, pre + [f], post);
    assert (pre + [f])[..|pre + [f]| - 1] == pre;
    DispatchAllInert(json, DispatchAll(json, o, pre + [f]), post);
  }

  /**
   * The whole stream from a successful response: the reports are those of
   * the frames of the concatenated text, whatever the chunking, provided
   * no frame throws (every payload parses and every `error` payload's
   * `data.error` can be read). The trailing unterminated text is never reported.
   */
  lemma StreamReports<J>(json: JsonOracle<J>, chunks: seq<string>)
    requires NoneThrow(json, Cut(Concat(chunks)).0)
    ensures var frames := Cut(Concat(chunks)).0;
      FeedAll(json, Decoder("", Observed(Reading, Pending, [], [])), chunks).obs
        == Observed(Reading, FirstSettlement(json, frames), ProgressReports(json, frames), ErrorReports(json, frames))
  {
    var d := Decoder("", Observed(Reading, Pending, [], []));
    CutDelimFree("");
    ChunkingInvariance(json, d, chunks);
    assert "" + Concat(chunks) == Concat(chunks);
    DispatchReports(json, d.obs, Cut(Concat(chunks)).0);
  }

  // ---------------------------------------------------------------------------
  // Ends of the operation
  // ---------------------------------------------------------------------------

  /** A loop that is no longer reading takes no more chunks. */
  lemma {:induction false} FeedAllInert<J>(json: JsonOracle<J>, d: Decoder<J>, chunks: seq<string>)
    requires d.obs.phase != Reading
    ensures FeedAll(json, d, chunks) == d
    decreases |chunks|
  {
    if chunks != [] {
      FeedAllInert(json, d, chunks[..|chunks| - 1]);
    }
  }

  /**
   * End of stream: the residual buffer is dropped unparsed, nothing is
   * reported, and a promise without a terminal frame stays pending for ever,
   * whatever is offered afterwards.
   */
  lemma EndOfStreamDropsBuffer<J>(json: JsonOracle<J>, d: Decoder<J>, later: seq<string>)
    requires d.obs.phase == Reading
    ensures var e := Decoder(d.buffer, EndStep(d.obs));
      e.obs == d.obs.(phase := Ended)
      && FeedAll(json, e, later) == e
  {
    FeedAllInert(json, Decoder(d.buffer, EndStep(d.obs)), later);
  }

  /**
   * A failed start (the fetch rejects, the status is not OK, or there is no
   * body): `onError` is called once with the thrown message, the promise is
   * rejected with it, and no chunk is ever read, so `onProgress` is never
   * called.
   */
  lemma FailedStartNeverProgresses<J>(json: JsonOracle<J>, c: Connection, chunks: seq<string>)
    requires !(c.Responded? && c.ok && c.hasBody)
    ensures var m := if c.FetchFailed? then c.message
      else if !c.ok then "Failed to start processing" else "No response body";
      var o := ConnectStep(Initial<J>().obs, c);
      o == Observed(Failed, Rejected(m), [], [m])
      && FeedAll(json, Decoder("", o), chunks).obs.progress == []
  {
    FeedAllInert(json, Decoder("", ConnectStep(Initial<J>().obs, c)), chunks);
  }
}
