/**
 * The framing layer of the progress stream of `processPageWithProgress`
 * (src/services/api.service.ts): the text buffer is cut on blank lines with
 * JavaScript's `String.prototype.split("\n\n")`, and each complete frame is
 * matched against `/^event: (\w+)\n/` and `/data: (.+)$/m`.
 */
module SseFrames {
  import opened Wrappers

  /** The frame delimiter: a blank line. */
  const Delim: string := "\n\n"

  // ---------------------------------------------------------------------------
  // Splitting on the delimiter
  // ---------------------------------------------------------------------------

  /** A delimiter occurrence starts at index `i` of `s`. */
  predicate DelimAt(s: string, i: int)
  {
    0 <= i && i + 1 < |s| && s[i] == '\n' && s[i + 1] == '\n'
  }

  ghost predicate HasDelim(s: string)
  {
    exists i :: DelimAt(s, i)
  }

  /** The leftmost delimiter occurrence at or after index `k`. */
  function FindDelimFrom(s: string, k: nat): (r: Option<nat>)
    ensures r.Some? ==> k <= r.value && DelimAt(s, r.value)
    ensures forall j :: k <= j && (r.None? || j < r.value) ==> !DelimAt(s, j)
    decreases |s| - k
  {
    if k + 1 >= |s| then None
    else if s[k] == '\n' && s[k + 1] == '\n' then Some(k)
    else FindDelimFrom(s, k + 1)
  }

  /** The leftmost delimiter occurrence in `s`, where `split` cuts first. */
  function FirstDelim(s: string): (r: Option<nat>)
    ensures r.Some? ==> DelimAt(s, r.value) && forall j :: 0 <= j < r.value ==> !DelimAt(s, j)
    ensures r.None? <==> !HasDelim(s)
  {
    FindDelimFrom(s, 0)
  }

  /** The pieces joined back with the delimiter between consecutive ones. */
  function JoinDelim(ps: seq<string>): string
  {
    if |ps| == 0 then ""
    else if |ps| == 1 then ps[0]
    else ps[0] + Delim + JoinDelim(ps[1..])
  }

  /**
   * `s.split("\n\n")`: the pieces between the delimiter occurrences found by a
   * left-to-right scan that resumes after each occurrence.
   */
  function SplitOnDelim(s: string): (r: seq<string>)
    ensures |r| >= 1
    decreases |s|
  {
    match FirstDelim(s)
    case None => [s]
    case Some(i) => [s[..i]] + SplitOnDelim(s[i + 2..])
  }

  /** Joining the pieces of a split with the delimiter gives the text back. */
  lemma {:induction false} SplitJoin(s: string)
    ensures JoinDelim(SplitOnDelim(s)) == s
    decreases |s|
  {
    if FirstDelim(s).Some? {
      var i := FirstDelim(s).value;
      SplitUnfold(s, i);
      SplitJoin(s[i + 2..]);
      assert s == s[..i] + Delim + s[i + 2..];
    }
  }

  /** No piece of a split holds a delimiter. */
  lemma {:induction false} SplitPiecesDelimFree(s: string)
    ensures forall k :: 0 <= k < |SplitOnDelim(s)| ==> !HasDelim(SplitOnDelim(s)[k])
    decreases |s|
  {
    if FirstDelim(s).Some? {
      var i := FirstDelim(s).value;
      SplitUnfold(s, i);
      SplitPiecesDelimFree(s[i + 2..]);
      assert !HasDelim(s[..i]) by {
        forall j | DelimAt(s[..i], j) ensures false {
          assert DelimAt(s, j);
        }
      }
    }
  }

  /** The piece ends in a line feed, so a delimiter could straddle its end. */
  predicate EndsInLineFeed(p: string)
  {
    |p| > 0 && p[|p| - 1] == '\n'
  }

  /**
   * The shape of every result of `split("\n\n")`: at least one piece, no
   * piece holding a delimiter, and no piece but the last ending in a line
   * feed (the leftmost scan would have cut one character earlier).
   */
  ghost predicate SplitShaped(ps: seq<string>)
  {
    && |ps| >= 1
    && (forall k :: 0 <= k < |ps| ==> !HasDelim(ps[k]))
    && (forall k :: 0 <= k < |ps| - 1 ==> !EndsInLineFeed(ps[k]))
  }

  /** Every split has that shape. */
  lemma {:induction false} SplitIsShaped(s: string)
    ensures SplitShaped(SplitOnDelim(s))
    decreases |s|
  {
    SplitPiecesDelimFree(s);
    if FirstDelim(s).Some? {
      var i := FirstDelim(s).value;
      SplitUnfold(s, i);
      SplitIsShaped(s[i + 2..]);
      var ps, tail := SplitOnDelim(s), SplitOnDelim(s[i + 2..]);
      assert !EndsInLineFeed(s[..i]) by {
        if EndsInLineFeed(s[..i]) {
          assert DelimAt(s, i - 1);
        }
      }
      forall k | 0 <= k < |ps| - 1 ensures !EndsInLineFeed(ps[k]) {
        if k > 0 { assert ps[k] == tail[k - 1]; }
      }
    }
  }

  /**
   * Splitting undoes joining, for pieces of that shape: so a split is the
   * only sequence of such pieces that joins back to the text.
   */
  lemma {:induction false} JoinSplit(ps: seq<string>)
    requires SplitShaped(ps)
    ensures SplitOnDelim(JoinDelim(ps)) == ps
    decreases |ps|
  {
    if |ps| == 1 {
      assert ps == [ps[0]];
    } else {
      var p, rest := ps[0], ps[1..];
      var s := JoinDelim(ps);
      assert s == p + Delim + JoinDelim(rest);
      assert DelimAt(s, |p|);
      forall j | 0 <= j < |p| ensures !DelimAt(s, j) {
        if j + 1 < |p| {
          if DelimAt(s, j) { assert DelimAt(p, j); }
        } else {
          assert !EndsInLineFeed(ps[0]);
        }
      }
      assert FirstDelim(s) == Some(|p|);
      SplitUnfold(s, |p|);
      assert s[..|p|] == p && s[|p| + 2..] == JoinDelim(rest);
      forall k | 0 <= k < |rest| ensures !HasDelim(rest[k]) && (k < |rest| - 1 ==> !EndsInLineFeed(rest[k])) {
        assert rest[k] == ps[k + 1];
      }
      JoinSplit(rest);
      assert ps == [p] + rest;
    }
  }

  /**
   * One pass of the read loop: the buffer after appending a chunk is split,
   * every piece but the last is a complete frame, and the last piece is the
   * new buffer (`lines.pop() || ''`, which is the last piece itself).
   */
  function Cut(text: string): (r: (seq<string>, string))
    ensures !HasDelim(r.1)
    ensures |r.0| == 0 ==> r.1 == text
    ensures |r.0| > 0 ==> JoinDelim(r.0) + Delim + r.1 == text
    ensures r.0 + [r.1] == SplitOnDelim(text)
  {
    var ps := SplitOnDelim(text);
    SplitJoin(text);
    SplitPiecesDelimFree(text);
    JoinSnoc(ps[..|ps| - 1], ps[|ps| - 1]);
    assert ps[..|ps| - 1] + [ps[|ps| - 1]] == ps;
    (ps[..|ps| - 1], ps[|ps| - 1])
  }

  /** Joining with one more piece at the end puts a delimiter before it. */
  lemma {:induction false} JoinSnoc(ps: seq<string>, last: string)
    ensures |ps| > 0 ==> JoinDelim(ps + [last]) == JoinDelim(ps) + Delim + last
    ensures |ps| == 0 ==> JoinDelim(ps + [last]) == last
  {
    if |ps| > 1 {
      assert (ps + [last])[1..] == ps[1..] + [last];
      JoinSnoc(ps[1..], last);
    } else if |ps| == 1 {
      assert ps + [last] == [ps[0], last];
      assert [ps[0], last][1..] == [last];
    }
  }

  /**
   * A delimiter found in `s` is still the leftmost one once more text is
   * appended: the appended text can only add occurrences further right.
   */
  lemma FirstDelimAppend(s: string, c: string)
    requires FirstDelim(s).Some?
    ensures FirstDelim(s + c) == FirstDelim(s)
  {
    var i := FirstDelim(s).value;
    assert DelimAt(s + c, i);
    forall j | 0 <= j < i ensures !DelimAt(s + c, j) {
      assert !DelimAt(s, j);
    }
    var r := FirstDelim(s + c);
    assert r.Some?;
    assert !(i < r.value);
  }

  /** The first piece of a split ends at the leftmost delimiter. */
  lemma SplitUnfold(s: string, i: nat)
    requires FirstDelim(s) == Some(i)
    ensures SplitOnDelim(s) == [s[..i]] + SplitOnDelim(s[i + 2..])
  {
  }

  /**
   * Splitting is insensitive to where the text is cut: the frames split off
   * `s` stay split off when `c` is appended, and only the trailing piece is
   * re-split together with `c`.
   */
  lemma {:induction false} SplitAppend(s: string, c: string)
    ensures var ps := SplitOnDelim(s);
      SplitOnDelim(s + c) == ps[..|ps| - 1] + SplitOnDelim(ps[|ps| - 1] + c)
    decreases |s|, 1
  {
    match FirstDelim(s)
    case Some(i) => SplitAppendAt(s, c, i);
    case None => assert SplitOnDelim(s) == [s];
  }

  /** SplitAppend when `s` has its leftmost delimiter at `i`. */
  lemma {:induction false} SplitAppendAt(s: string, c: string, i: nat)
    requires FirstDelim(s) == Some(i)
    ensures var ps := SplitOnDelim(s);
      SplitOnDelim(s + c) == ps[..|ps| - 1] + SplitOnDelim(ps[|ps| - 1] + c)
    decreases |s|, 0
  {
    FirstDelimAppend(s, c);
    SplitUnfold(s, i);
    SplitUnfold(s + c, i);
    assert (s + c)[..i] == s[..i];
    assert (s + c)[i + 2..] == s[i + 2..] + c;
    SplitAppend(s[i + 2..], c);
    var rest := SplitOnDelim(s[i + 2..]);
    ConsSplit(s[..i], rest, SplitOnDelim(s[i + 2..] + c), SplitOnDelim(rest[|rest| - 1] + c));
  }

  /** Sequence bookkeeping for the inductive step of SplitAppend. */
  lemma ConsSplit(head: string, rest: seq<string>, split: seq<string>, tail: seq<string>)
    requires |rest| >= 1 && split == rest[..|rest| - 1] + tail
    ensures var ps := [head] + rest; [head] + split == ps[..|ps| - 1] + tail
  {
    var ps := [head] + rest;
    assert ps[..|ps| - 1] == [head] + rest[..|rest| - 1];
  }

  // ---------------------------------------------------------------------------
  // Frame recognition
  // ---------------------------------------------------------------------------

  /** The characters `String.prototype.trim` removes (ECMAScript WhiteSpace and LineTerminator). */
  predicate IsJsWhitespace(c: char)
  {
    c == '\t' || c == '\n' || c == '\U{000B}' || c == '\U{000C}' || c == '\r' || c == ' '
    || c == '\U{00A0}' || c == '\U{1680}' || ('\U{2000}' <= c <= '\U{200A}')
    || c == '\U{2028}' || c == '\U{2029}' || c == '\U{202F}' || c == '\U{205F}'
    || c == '\U{3000}' || c == '\U{FEFF}'
  }

  /** `!s.trim()`: the frame is empty or whitespace only. */
  predicate IsBlank(s: string)
  {
    forall i :: 0 <= i < |s| ==> IsJsWhitespace(s[i])
  }

  /** The regex class `\w`. */
  predicate IsWordChar(c: char)
  {
    ('A' <= c <= 'Z') || ('a' <= c <= 'z') || ('0' <= c <= '9') || c == '_'
  }

  /** The characters the regex `.` does not match (and before which `$` matches in multiline mode). */
  predicate IsLineTerminator(c: char)
  {
    c == '\n' || c == '\r' || c == '\U{2028}' || c == '\U{2029}'
  }

  const EventPrefix: string := "event: "
  const DataPrefix: string := "data: "

  /** `/^event: (\w+)\n/` matches `s` with an event type of `n` characters. */
  ghost predicate EventHeader(s: string, n: nat)
  {
    n >= 1 && |EventPrefix| + n < |s| && s[..|EventPrefix|] == EventPrefix
    && (forall k :: |EventPrefix| <= k < |EventPrefix| + n ==> IsWordChar(s[k]))
    && s[|EventPrefix| + n] == '\n'
  }

  /** `data: ` starts at `p` and is followed by at least one character of the same line. */
  ghost predicate DataAt(s: string, p: int)
  {
    0 <= p && p + |DataPrefix| < |s| && s[p..p + |DataPrefix|] == DataPrefix
    && !IsLineTerminator(s[p + |DataPrefix|])
  }

  /** The number of consecutive word characters of `s` from index `k` on. */
  function WordRun(s: string, k: nat): (n: nat)
    requires k <= |s|
    ensures k + n <= |s|
    ensures forall j :: k <= j < k + n ==> IsWordChar(s[j])
    ensures k + n == |s| || !IsWordChar(s[k + n])
    decreases |s| - k
  {
    if k < |s| && IsWordChar(s[k]) then 1 + WordRun(s, k + 1) else 0
  }

  /** The index of the first line terminator of `s` at or after `k`, or `|s|`. */
  function LineEnd(s: string, k: nat): (e: nat)
    requires k <= |s|
    ensures k <= e <= |s|
    ensures forall j :: k <= j < e ==> !IsLineTerminator(s[j])
    ensures e == |s| || IsLineTerminator(s[e])
    decreases |s| - k
  {
    if k == |s| || IsLineTerminator(s[k]) then k else LineEnd(s, k + 1)
  }

  /**
   * The capture of `/^event: (\w+)\n/`. Greedy `\w+` cannot give back
   * characters to reach a `\n`, since `\n` is not a word character, so the
   * match is the maximal word run after the prefix.
   */
  function MatchEvent(s: string): Option<string>
  {
    if |s| >= |EventPrefix| && s[..|EventPrefix|] == EventPrefix then
      var n := WordRun(s, |EventPrefix|);
      if n >= 1 && |EventPrefix| + n < |s| && s[|EventPrefix| + n] == '\n' then
        Some(s[|EventPrefix|..|EventPrefix| + n])
      else
        None
    else
      None
  }

  /** MatchEvent matches exactly when some event header is present, and captures the whole word run. */
  lemma MatchEventMeaning(s: string)
    ensures MatchEvent(s).Some? <==> exists n :: EventHeader(s, n)
    ensures MatchEvent(s).Some? ==>
      var t := MatchEvent(s).value;
      EventHeader(s, |t|) && t == s[|EventPrefix|..|EventPrefix| + |t|]
  {
    if |s| >= |EventPrefix| && s[..|EventPrefix|] == EventPrefix {
      var n := WordRun(s, |EventPrefix|);
      if n >= 1 && |EventPrefix| + n < |s| && s[|EventPrefix| + n] == '\n' {
        assert EventHeader(s, n);
      } else {
        forall m: nat | EventHeader(s, m) ensures false {
        }
      }
    }
  }

  /** The leftmost position from `k` on where `/data: (.+)$/m` can match. */
  function FindDataFrom(s: string, k: nat): (r: Option<nat>)
    ensures r.Some? ==> k <= r.value && DataAt(s, r.value)
    ensures forall q :: k <= q && (r.None? || q < r.value) ==> !DataAt(s, q)
    decreases |s| - k
  {
    if k + |DataPrefix| >= |s| then None
    else if s[k..k + |DataPrefix|] == DataPrefix && !IsLineTerminator(s[k + |DataPrefix|]) then Some(k)
    else FindDataFrom(s, k + 1)
  }

  /**
   * The capture of `/data: (.+)$/m`: the engine tries positions left to
   * right; greedy `.+` takes the rest of the line and `$` then matches before
   * the line terminator or at the end of the frame.
   */
  function MatchData(s: string): Option<string>
  {
    match FindDataFrom(s, 0)
    case None => None
    case Some(p) => Some(s[p + |DataPrefix|..LineEnd(s, p + |DataPrefix|)])
  }

  /** MatchData matches exactly when some `data: ` line is present, and captures the rest of the leftmost one. */
  lemma MatchDataMeaning(s: string)
    ensures MatchData(s).Some? <==> exists p :: DataAt(s, p)
    ensures MatchData(s).Some? ==>
      exists p :: (DataAt(s, p) && (forall q :: 0 <= q < p ==> !DataAt(s, q))
        && MatchData(s).value == s[p + |DataPrefix|..LineEnd(s, p + |DataPrefix|)])
  {
  }

  /** A blank frame cannot start with `event: `. */
  lemma BlankHasNoEvent(frame: string)
    requires IsBlank(frame)
    ensures forall n :: !EventHeader(frame, n)
  {
    if |frame| > 0 {
      assert !IsJsWhitespace('e');
      assert frame[0] != 'e';
    }
  }

  /** One frame's event: its type and its (still unparsed) payload text. */
  datatype Event = Event(eventType: string, data: string)

  /**
   * The body of the frame loop up to `JSON.parse`: blank frames are skipped,
   * and a frame yields an event exactly when both regexes match. The event
   * type is the word run after `event: `; the payload is the rest of the line
   * of the leftmost `data: ` followed by a character of that line.
   */
  function ParseFrame(frame: string): Option<Event>
  {
    if IsBlank(frame) then None
    else
      match (MatchEvent(frame), MatchData(frame))
      case (Some(t), Some(d)) => Some(Event(t, d))
      case _ => None
  }

  /** What ParseFrame decides, in terms of the two regexes' match conditions. */
  lemma ParseFrameMeaning(frame: string)
    ensures IsBlank(frame) ==> ParseFrame(frame).None?
    ensures ParseFrame(frame).Some? <==> (exists n :: EventHeader(frame, n)) && (exists p :: DataAt(frame, p))
    ensures ParseFrame(frame).Some? ==>
      var t := ParseFrame(frame).value.eventType;
      EventHeader(frame, |t|) && t == frame[|EventPrefix|..|EventPrefix| + |t|]
    ensures ParseFrame(frame).Some? ==> |ParseFrame(frame).value.data| >= 1
    ensures ParseFrame(frame).Some? ==>
      exists p :: (DataAt(frame, p) && (forall q :: 0 <= q < p ==> !DataAt(frame, q))
        && ParseFrame(frame).value.data == frame[p + |DataPrefix|..LineEnd(frame, p + |DataPrefix|)])
  {
    MatchEventMeaning(frame);
    MatchDataMeaning(frame);
    if IsBlank(frame) {
      BlankHasNoEvent(frame);
    }
  }
}
