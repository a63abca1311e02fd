/**
 * The relay (MusicProxyMiddleware): one process-wide byte buffer filled by a background
 * writer from the upstream response, and range requests served out of it.
 *
 * The static fields of the middleware are the fields of one MusicProxy object. The request
 * handler is split into a pure part, PlanResponse (how the request is answered), and a
 * RangeReader object that runs the copy loop in the pieces between its awaits, so that writer
 * steps, reader steps and restarts can be interleaved in any order a caller chooses.
 */
module Relay {
  import opened Wrappers
  import opened Text

  newtype byte = b: int | 0 <= b < 256

  /** The writer reads the upstream stream into a 1024-byte scratch buffer. */
  const ChunkSize: nat := 1024
  const ProxyPath: string := "/musicproxy"

  // ------------------------------------------------------------------ request planning

  /** The parts of an HTTP request the handler looks at: Request.Path and the Range header values. */
  datatype Request = Request(path: string, range: seq<string>)

  /** `bytes=start-[end]` after parsing; a missing end is left to default. */
  datatype RangeSpec = RangeSpec(start: nat, end: Option<nat>)

  datatype Outcome =
    | Faulted                  // the handler throws while reading the Range header
    | NotSatisfiable           // status 416, nothing streamed
    | Stream(status: int, start: nat, contentLength: nat,
             contentLengthHeader: Option<int>, contentRange: Option<string>)

  datatype Plan =
    | PassThrough              // handed to the next middleware, nothing else touched
    | Handled(contentType: Option<string>, outcome: Outcome)

  function AsciiLower(c: char): char {
    if 'A' <= c <= 'Z' then (c as int + 32) as char else c
  }

  /**
   * PathString.StartsWithSegments(seg) with its default OrdinalIgnoreCase comparison, for an
   * ASCII segment: `seg` is a case-insensitive prefix that ends the path or is followed by '/'.
   */
  predicate StartsWithSegment(path: string, seg: string) {
    |seg| <= |path|
    && (forall k :: 0 <= k < |seg| ==> AsciiLower(path[k]) == AsciiLower(seg[k]))
    && (|path| == |seg| || path[|seg|] == '/')
  }

  /**
   * The relay answers `/musicproxy` and paths below it, in any case, but no other path
   * that merely starts with the same letters.
   */
  lemma ProxyPathMatches()
    ensures StartsWithSegment("/musicproxy", ProxyPath) && StartsWithSegment("/MusicProxy/a", ProxyPath)
    ensures !StartsWithSegment("/musicproxyx", ProxyPath) && !StartsWithSegment("/music", ProxyPath)
  {
    assert "/MusicProxy/a"[11] == '/';
    assert "/musicproxyx"[11] == 'x';
  }

  /** `Content-Range: bytes start-end/total`. */
  function ContentRange(start: int, end: int, total: int): string {
    "bytes " + IntToString(start) + "-" + IntToString(end) + "/" + IntToString(total)
  }

  /** Parsed text without a minus sign is never negative. */
  lemma ParseIntegerNoMinus(s: string, lo: int, hi: int)
    requires '-' !in s
    ensures ParseInteger(s, lo, hi).Some? ==> ParseInteger(s, lo, hi).value >= 0
  {
    var t0 := TrimStartNumberWhite(s);
    var t := TrimEndNumberWhite(t0);
    if |t| > 0 {
      assert t[0] == t0[0] == s[|s| - |t0|];
    }
  }

  /**
   * `header[6..].Split('-')`, then Convert.ToInt64 of the first piece and, unless it is empty,
   * of the second. None stands for every exception on the way: a header shorter than six
   * characters, text that is not a 64-bit integer, or no '-' at all. The first six characters
   * are skipped without being looked at.
   */
  function ParseRange(header: string): (r: Option<RangeSpec>)
    ensures r.Some? ==> r.value.start <= Int64Max && (r.value.end.Some? ==> r.value.end.value <= Int64Max)
  {
    if |header| < 6 then None
    else
      var ranges := Split(header[6..], '-');
      SplitJoin(header[6..], '-');
      ParseIntegerNoMinus(ranges[0], Int64Min, Int64Max);
      match ParseInteger(ranges[0], Int64Min, Int64Max)
      case None => None
      case Some(start) =>
        if |ranges| < 2 then None
        else if ranges[1] == "" then Some(RangeSpec(start, None))
        else
          ParseIntegerNoMinus(ranges[1], Int64Min, Int64Max);
          match ParseInteger(ranges[1], Int64Min, Int64Max)
          case None => None
          case Some(end) => Some(RangeSpec(start, Some(end)))
  }

  /**
   * The status line and headers for a parsed range (lines 36-57): the end defaults to the
   * last byte, and the length `end - start + 1` is computed on `long`, so it wraps for
   * start 0 and end long.MaxValue.
   */
  function RangeOutcome(spec: RangeSpec, currentLength: nat): (o: Outcome)
    requires 0 < currentLength <= Int64Max
    requires spec.start <= Int64Max && (spec.end.Some? ==> spec.end.value <= Int64Max)
    ensures o.NotSatisfiable? || o.Stream?
    ensures o.Stream? ==>
      && o.status == 206 && o.start == spec.start
      && 1 <= o.contentLength <= currentLength
      && o.contentLengthHeader == Some(o.contentLength)
      && o.contentRange == Some(ContentRange(o.start, o.start + o.contentLength - 1, currentLength))
  {
    var end := spec.end.GetOr(currentLength - 1);
    var x := end - spec.start + 1;
    var contentLength := WrapInt64(x);
    if contentLength > currentLength || contentLength <= 0 then NotSatisfiable
    else
      assert contentLength == x;
      Stream(206, spec.start, contentLength, Some(contentLength),
             Some(ContentRange(spec.start, end, currentLength)))
  }

  /**
   * InvokeAsync up to the copy loop (MusicProxyMiddleware.cs:20-57). `currentLength` and
   * `mimeType` are the static _currentLength and _currentMimeType at the time of the request.
   */
  function PlanResponse(req: Request, currentLength: nat, mimeType: Option<string>): (p: Plan)
    requires currentLength <= Int64Max
    ensures p.PassThrough? <==> !StartsWithSegment(req.path, ProxyPath) || currentLength == 0
    ensures p.Handled? ==> p.contentType == mimeType
    ensures p.Handled? && req.range == [] ==> p.outcome == Stream(200, 0, currentLength, None, None)
    ensures p.Handled? && req.range != [] && ParseRange(req.range[0]).None? ==> p.outcome == Faulted
  {
    if !StartsWithSegment(req.path, ProxyPath) || currentLength == 0 then PassThrough
    else Handled(mimeType,
      if req.range == [] then Stream(200, 0, currentLength, None, None)
      else match ParseRange(req.range[0])
        case None => Faulted
        case Some(spec) => RangeOutcome(spec, currentLength))
  }

  /** A well-formed `bytes=S-E` header parses to S and E. */
  lemma ParseRangeClosed(s: nat, e: nat)
    requires s <= Int64Max && e <= Int64Max
    ensures ParseRange("bytes=" + IntToString(s) + "-" + IntToString(e)) == Some(RangeSpec(s, Some(e)))
  {
    var h := "bytes=" + IntToString(s) + "-" + IntToString(e);
    SplitClosedRange(s, e);
    ParseIntegerRoundTrip(s, Int64Min, Int64Max);
    ParseIntegerRoundTrip(e, Int64Min, Int64Max);
    IntToStringChars(e);
    ParseRangeOfPieces(h, IntToString(s), IntToString(e), s, e);
  }

  lemma SplitClosedRange(s: nat, e: nat)
    ensures var h := "bytes=" + IntToString(s) + "-" + IntToString(e);
      |h| >= 6 && Split(h[6..], '-') == [IntToString(s), IntToString(e)]
  {
    var h := "bytes=" + IntToString(s) + "-" + IntToString(e);
    assert h[6..] == IntToString(s) + "-" + IntToString(e);
    NoMinusInRendering(s);
    NoMinusInRendering(e);
    SplitAtFirstSeparator(IntToString(s), '-', IntToString(e));
    SplitNoSeparator(IntToString(e), '-');
  }

  /** Two pieces that both parse give a closed range. */
  lemma ParseRangeOfPieces(h: string, a: string, b: string, sv: nat, ev: nat)
    requires |h| >= 6 && Split(h[6..], '-') == [a, b] && b != ""
    requires ParseInteger(a, Int64Min, Int64Max) == Some(sv) && ParseInteger(b, Int64Min, Int64Max) == Some(ev)
    ensures ParseRange(h) == Some(RangeSpec(sv, Some(ev)))
  {
  }

  /** A well-formed `bytes=S-` header parses to S with no end. */
  lemma ParseRangeOpen(s: nat)
    requires s <= Int64Max
    ensures ParseRange("bytes=" + IntToString(s) + "-") == Some(RangeSpec(s, None))
  {
    var h := "bytes=" + IntToString(s) + "-";
    assert h[6..] == IntToString(s) + "-" + "";
    NoMinusInRendering(s);
    SplitAtFirstSeparator(IntToString(s), '-', "");
    ParseIntegerRoundTrip(s, Int64Min, Int64Max);
  }

  lemma NoMinusInRendering(n: nat)
    ensures '-' !in IntToString(n)
  {
    IntToStringChars(n);
  }

  /** A header with no '-' after `bytes=` does not parse: `ranges[1]` is out of bounds. */
  lemma ParseRangeWithoutDash(h: string)
    requires |h| >= 6 && '-' !in h[6..]
    ensures ParseRange(h) == None
  {
    SplitNoSeparator(h[6..], '-');
  }

  /** A suffix range `bytes=-N` does not parse: the empty start is not a number. */
  lemma ParseRangeSuffix(n: nat)
    ensures ParseRange("bytes=-" + IntToString(n)) == None
  {
    var h := "bytes=-" + IntToString(n);
    assert h[6..] == [] + ['-'] + IntToString(n);
    SplitAtFirstSeparator([], '-', IntToString(n));
    assert ParseInteger([], Int64Min, Int64Max) == None;
  }

  /** A header that does not parse makes the handler throw. */
  lemma PlanForUnparsedHeader(path: string, h: string, n: nat, mime: Option<string>)
    requires 0 < n <= Int64Max && StartsWithSegment(path, ProxyPath)
    requires (|h| >= 6 && '-' !in h[6..]) || exists k: nat :: h == "bytes=-" + IntToString(k)
    ensures PlanResponse(Request(path, [h]), n, mime) == Handled(mime, Faulted)
  {
    if |h| >= 6 && '-' !in h[6..] {
      ParseRangeWithoutDash(h);
    } else {
      var k: nat :| h == "bytes=-" + IntToString(k);
      ParseRangeSuffix(k);
    }
  }

  /** A header that parses is answered by the range outcome of what it parses to. */
  lemma PlanForParsedHeader(path: string, h: string, spec: RangeSpec, n: nat, mime: Option<string>)
    requires 0 < n <= Int64Max && StartsWithSegment(path, ProxyPath)
    requires ParseRange(h) == Some(spec)
    ensures PlanResponse(Request(path, [h]), n, mime) == Handled(mime, RangeOutcome(spec, n))
  {
  }

  /** The range outcome of `S-E`: 416 exactly when E-S+1 exceeds the session or is not positive. */
  lemma RangeOutcomeClosed(s: nat, e: nat, n: nat)
    requires s <= Int64Max && e <= Int64Max && 0 < n <= Int64Max
    ensures RangeOutcome(RangeSpec(s, Some(e)), n) ==
      if e - s + 1 > n || e - s + 1 <= 0 then NotSatisfiable
      else Stream(206, s, e - s + 1, Some(e - s + 1), Some(ContentRange(s, e, n)))
  {
    var x := e - s + 1;
    if x > Int64Max {
      assert x == Int64Max + 1;
      assert WrapInt64(x) == Int64Min;
    } else {
      assert WrapInt64(x) == x;
    }
  }

  /**
   * For `bytes=S-E` on the relay path with a session of `n` bytes: 416 exactly when the
   * length E-S+1 exceeds n or is not positive; otherwise 206 with start S, E-S+1 bytes and
   * `Content-Range: bytes S-E/n`. Nothing compares S or E with n themselves.
   */
  lemma ClosedRangeVerdict(path: string, s: nat, e: nat, n: nat, mime: Option<string>)
    requires s <= Int64Max && e <= Int64Max && 0 < n <= Int64Max
    requires StartsWithSegment(path, ProxyPath)
    ensures var p := PlanResponse(Request(path, ["bytes=" + IntToString(s) + "-" + IntToString(e)]), n, mime);
      if e - s + 1 > n || e - s + 1 <= 0 then p == Handled(mime, NotSatisfiable)
      else p == Handled(mime, Stream(206, s, e - s + 1, Some(e - s + 1), Some(ContentRange(s, e, n))))
  {
    var h := "bytes=" + IntToString(s) + "-" + IntToString(e);
    ParseRangeClosed(s, e);
    PlanForParsedHeader(path, h, RangeSpec(s, Some(e)), n, mime);
    RangeOutcomeClosed(s, e, n);
  }

  /** For `bytes=S-` the range runs to the last byte of the session. */
  lemma OpenRangeVerdict(path: string, s: nat, n: nat, mime: Option<string>)
    requires s <= Int64Max && 0 < n <= Int64Max
    requires StartsWithSegment(path, ProxyPath)
    ensures var p := PlanResponse(Request(path, ["bytes=" + IntToString(s) + "-"]), n, mime);
      if s >= n then p == Handled(mime, NotSatisfiable)
      else p == Handled(mime, Stream(206, s, n - s, Some(n - s), Some(ContentRange(s, n - 1, n))))
  {
    var h := "bytes=" + IntToString(s) + "-";
    ParseRangeOpen(s);
    PlanForParsedHeader(path, h, RangeSpec(s, None), n, mime);
    RangeOutcomeOpen(s, n);
  }

  lemma RangeOutcomeOpen(s: nat, n: nat)
    requires s <= Int64Max && 0 < n <= Int64Max
    ensures RangeOutcome(RangeSpec(s, None), n) ==
      if s >= n then NotSatisfiable
      else Stream(206, s, n - s, Some(n - s), Some(ContentRange(s, n - 1, n)))
  {
    assert WrapInt64(n - 1 - s + 1) == n - s;
  }

  /** The 1000-byte example: `bytes=1000-1005` is not rejected, but answered 206 from offset 1000. */
  lemma RangePastEndAccepted()
    ensures PlanResponse(Request("/musicproxy", ["bytes=1000-1005"]), 1000, None)
         == Handled(None, Stream(206, 1000, 6, Some(6), Some("bytes 1000-1005/1000")))
  {
    ExampleTexts();
    assert StartsWithSegment("/musicproxy", ProxyPath);
    ClosedRangeVerdict("/musicproxy", 1000, 1005, 1000, None);
  }

  lemma ExampleTexts()
    ensures "bytes=" + IntToString(1000) + "-" + IntToString(1005) == "bytes=1000-1005"
    ensures ContentRange(1000, 1005, 1000) == "bytes 1000-1005/1000"
  {
    RenderExample();
    assert ContentRange(1000, 1005, 1000) == "bytes " + "1000" + "-" + "1005" + "/" + "1000";
  }

  lemma RenderExample()
    ensures IntToString(1000) == "1000" && IntToString(1005) == "1005"
  {
    assert NatToString(1) == "1";
    assert NatToString(10) == "10";
    assert NatToString(100) == "100";
    assert NatToString(1000) == "1000";
    assert NatToString(1005) == "1005";
  }

  // ------------------------------------------------------------------ the shared buffer

  datatype WriteOutcome =
    | Wrote           // the chunk was copied and published
    | EndOfStream     // the upstream read returned 0 bytes
    | Stopped         // the current token had been cancelled
    | Overflowed      // Array.Copy threw: the chunk does not fit behind the received bytes

  /** The bytes of successive upstream reads, in order. */
  function Concat(chunks: seq<seq<byte>>): (r: seq<byte>)
    decreases |chunks|
  {
    if chunks == [] then [] else Concat(chunks[..|chunks| - 1]) + chunks[|chunks| - 1]
  }

  /**
   * The buffer `now`, with `read` bytes received, is `initial` (which had `r0`) with the
   * first `n` chunks of `stream` written behind its received bytes.
   */
  ghost predicate Appended(initial: seq<byte>, r0: nat, stream: seq<seq<byte>>, n: nat, now: seq<byte>, read: nat) {
    && n <= |stream| && read == r0 + |Concat(stream[..n])| && read <= |initial|
    && now == initial[..r0] + Concat(stream[..n]) + initial[read..]
  }

  /** One more chunk written behind the received bytes extends the concatenation by it. */
  lemma AppendStep(initial: seq<byte>, r0: nat, stream: seq<seq<byte>>, n: nat, before: seq<byte>, readBefore: nat,
                   after: seq<byte>, readAfter: nat)
    requires Appended(initial, r0, stream, n, before, readBefore) && n < |stream|
    requires |before| == |initial| && readAfter == readBefore + |stream[n]| <= |initial|
    requires after == before[..readBefore] + stream[n] + before[readAfter..]
    ensures Appended(initial, r0, stream, n + 1, after, readAfter)
  {
    assert stream[..n + 1] == stream[..n] + [stream[n]];
    assert Concat(stream[..n + 1]) == Concat(stream[..n]) + stream[n];
    var m := r0 + |Concat(stream[..n])|;
    assert before[..m] == initial[..r0] + Concat(stream[..n]);
    assert before[m..][|stream[n]|..] == initial[m + |stream[n]|..];
  }

  /** The static state of the middleware. */
  class MusicProxy {
    var buf: array<byte>           // _currentBuf (an empty array before the first start)
    var read: nat                  // _read: bytes received into buf
    var currentLength: nat         // _currentLength
    var mimeType: Option<string>   // _currentMimeType
    var tokens: seq<bool>          // IsCancellationRequested of every token source so far; the last is _tokenSource

    ghost predicate Valid()
      reads this
    {
      read <= buf.Length && currentLength == buf.Length && currentLength <= Int64Max && |tokens| > 0
    }

    /** _tokenSource.IsCancellationRequested, as every writer and reader sees it. */
    predicate Cancelled()
      reads this
      requires |tokens| > 0
    {
      tokens[|tokens| - 1]
    }

    constructor ()
      ensures Valid() && fresh(buf)
      ensures buf.Length == 0 && read == 0 && currentLength == 0 && mimeType == None && tokens == [false]
    {
      buf := new byte[0];
      read := 0;
      currentLength := 0;
      mimeType := None;
      tokens := [false];
    }

    /** `_tokenSource.Cancel()` (line 87). */
    method CancelCurrent()
      requires Valid()
      modifies this
      ensures Valid() && Cancelled()
      ensures tokens == old(tokens)[..|old(tokens)| - 1] + [true]
      ensures buf == old(buf) && read == old(read) && currentLength == old(currentLength) && mimeType == old(mimeType)
    {
      tokens := tokens[..|tokens| - 1] + [true];
    }

    /** A fresh token source and the new mime type (lines 88-91). */
    method Renew(mime: string)
      requires Valid()
      modifies this
      ensures Valid() && !Cancelled()
      ensures tokens == old(tokens) + [false] && mimeType == Some(mime)
      ensures buf == old(buf) && read == old(read) && currentLength == old(currentLength)
    {
      tokens := tokens + [false];
      mimeType := Some(mime);
    }

    /** A zeroed buffer of the declared length and nothing received (lines 122-124). */
    method Attach(declared: nat)
      requires Valid() && declared <= Int64Max
      modifies this
      ensures Valid() && fresh(buf)
      ensures buf.Length == declared && currentLength == declared && read == 0
      ensures forall k :: 0 <= k < buf.Length ==> buf[k] == 0
      ensures tokens == old(tokens) && mimeType == old(mimeType)
    {
      currentLength := declared;
      buf := new byte[declared](_ => 0);
      read := 0;
    }

    /**
     * StartProxyAsync without the upstream request itself: `declared` is the upstream
     * Content-Length, None when it is missing or does not parse (long.Parse throws, after the
     * token and the mime type were already replaced). The background writer is started by
     * the caller with RunWriter or WriterStep; nothing ties it to this session.
     */
    method Start(mime: string, declared: Option<nat>) returns (attached: bool)
      requires Valid()
      requires declared.Some? ==> declared.value <= Int64Max
      modifies this
      ensures Valid() && !Cancelled()
      ensures tokens == old(tokens)[..|old(tokens)| - 1] + [true, false]
      ensures mimeType == Some(mime)
      ensures attached == declared.Some?
      ensures attached ==> fresh(buf) && buf.Length == declared.value && currentLength == declared.value && read == 0
      ensures attached ==> forall k :: 0 <= k < buf.Length ==> buf[k] == 0
      ensures !attached ==> buf == old(buf) && read == old(read) && currentLength == old(currentLength)
    {
      CancelCurrent();
      Renew(mime);
      attached := declared.Some?;
      if attached {
        Attach(declared.value);
      }
    }

    /**
     * One iteration of the writer loop (lines 130-134): an upstream read of `chunk`, the
     * cancellation test, WriteBuffer at offset `read`, then publishing the new count.
     */
    method WriterStep(chunk: seq<byte>) returns (outcome: WriteOutcome)
      requires Valid() && |chunk| <= ChunkSize
      modifies this, buf
      ensures Valid() && buf == old(buf)
      ensures currentLength == old(currentLength) && mimeType == old(mimeType) && tokens == old(tokens)
      ensures outcome == EndOfStream <==> |chunk| == 0
      ensures outcome == Stopped <==> |chunk| > 0 && Cancelled()
      ensures outcome == Overflowed <==> |chunk| > 0 && !Cancelled() && old(read) + |chunk| > buf.Length
      ensures outcome == Wrote ==> read == old(read) + |chunk|
      ensures outcome == Wrote ==> buf[..] == old(buf[..])[..old(read)] + chunk + old(buf[..])[read..]
      ensures outcome != Wrote ==> read == old(read) && buf[..] == old(buf[..])
    {
      if |chunk| == 0 {
        return EndOfStream;
      }
      if Cancelled() {
        return Stopped;
      }
      if read + |chunk| > buf.Length {
        return Overflowed;
      }
      forall k | 0 <= k < |chunk| {
        buf[read + k] := chunk[k];
      }
      read := read + |chunk|;
      outcome := Wrote;
    }

    /**
     * The whole background task (lines 125-138) with no other step interleaved: `stream`
     * holds the non-empty upstream reads, after which the stream ends.
     */
    method RunWriter(stream: seq<seq<byte>>) returns (outcome: WriteOutcome, consumed: nat)
      requires Valid()
      requires forall k :: 0 <= k < |stream| ==> 0 < |stream[k]| <= ChunkSize
      modifies this, buf
      ensures Valid() && buf == old(buf)
      ensures currentLength == old(currentLength) && mimeType == old(mimeType) && tokens == old(tokens)
      ensures consumed <= |stream| && outcome != Wrote
      ensures read == old(read) + |Concat(stream[..consumed])|
      ensures buf[..] == old(buf[..])[..old(read)] + Concat(stream[..consumed]) + old(buf[..])[read..]
      ensures outcome == EndOfStream <==> consumed == |stream|
      ensures outcome == Stopped <==> |stream| > 0 && Cancelled()
      ensures Cancelled() ==> consumed == 0
      ensures outcome == Overflowed ==> consumed < |stream| && read + |stream[consumed]| > buf.Length
    {
      ghost var initial, r0 := buf[..], read;
      consumed := 0;
      outcome := Wrote;
      while consumed < |stream|
        invariant Valid() && buf == old(buf)
        invariant currentLength == old(currentLength) && mimeType == old(mimeType) && tokens == old(tokens)
        invariant consumed <= |stream|
        invariant Appended(initial, r0, stream, consumed, buf[..], read)
        invariant Cancelled() ==> consumed == 0
        decreases |stream| - consumed
      {
        ghost var before, readBefore := buf[..], read;
        outcome := WriterStep(stream[consumed]);
        if outcome != Wrote {
          return;
        }
        AppendStep(initial, r0, stream, consumed, before, readBefore, buf[..], read);
        consumed := consumed + 1;
      }
      outcome := EndOfStream;
    }
  }

  // ------------------------------------------------------------------ serving a range

  /** Where a response is in the copy loop of lines 60-82. */
  datatype Phase =
    | AtTop        // about to test the loop condition and the token
    | Waiting      // polling until `read` passes `i` (the wait does not look at the token)
    | Sending      // the write of line 78 is awaited; `i` has not yet been moved on
    | Completed    // CompleteAsync reached
    | Aborted      // Context.Abort() after cancellation was seen

  /**
   * `body` is what the response has written: the buffer's bytes from `start`, all of them
   * below the received count.
   */
  ghost predicate Delivered(body: seq<byte>, start: nat, data: seq<byte>, received: nat) {
    |body| == 0 || (start + |body| <= received <= |data| && body == data[start..start + |body|])
  }

  /**
   * Bytes below the received count never change while the writer appends, so what a response
   * has delivered stays a faithful copy of the buffer as the writer goes on.
   */
  lemma DeliveredStable(body: seq<byte>, start: nat, d1: seq<byte>, r1: nat, d2: seq<byte>, r2: nat)
    requires Delivered(body, start, d1, r1)
    requires r1 <= r2 <= |d2| && r1 <= |d1| && d2[..r1] == d1[..r1]
    ensures Delivered(body, start, d2, r2)
  {
    if |body| > 0 {
      assert d2[start..start + |body|] == d2[..r1][start..start + |body|];
      assert d1[start..start + |body|] == d1[..r1][start..start + |body|];
    }
  }

  /** Writing the received bytes from `i` to `j` extends what a response has delivered. */
  lemma DeliveredExtend(body: seq<byte>, start: nat, data: seq<byte>, received: nat, i: nat, j: nat)
    requires Delivered(body, start, data, received) && received <= |data|
    requires i == start + |body| && i <= j <= received
    ensures Delivered(body + data[i..j], start, data, received)
  {
    assert data[start..j] == data[start..i] + data[i..j];
  }

  /**
   * One response being streamed by InvokeAsync (lines 60-82). The steps are the pieces of
   * the loop between its awaits: Check (lines 61-67), Poll (the wait of lines 69-70, then
   * lines 71-78 up to the awaited write) and Resume (line 79, after the write of line 78).
   */
  class RangeReader {
    const start: nat
    const contentLength: nat
    var i: int
    var body: seq<byte>
    var phase: Phase

    /** The range ends within the `long` range. */
    predicate Fits() {
      start + contentLength <= Int64Max
    }

    /**
     * The loop bound `contentLength + start` of line 61, a `long` sum: a range ending past
     * long.MaxValue wraps to a negative bound.
     */
    function Limit(): (l: int)
      requires start <= Int64Max && contentLength <= Int64Max
      ensures Fits() ==> l == start + contentLength
      ensures !Fits() ==> l < 0
    {
      var x := start + contentLength;
      var l := WrapInt64(x);
      if !Fits() then
        assert l == x - 0x1_0000_0000_0000_0000 by {
          assert Int64Max < x < 0x1_0000_0000_0000_0000;
          var d := (l - x) / 0x1_0000_0000_0000_0000;
          assert l - x == d * 0x1_0000_0000_0000_0000;
        }
        l
      else l
    }

    /**
     * What holds of a response under every interleaving. `i` is the last received count the
     * loop took, so after a restart or a write racing line 79 it need not be `start + |body|`.
     */
    ghost predicate Valid()
      reads this
    {
      && 0 <= i && 0 < contentLength && start <= Int64Max && contentLength <= Int64Max
      && (!Fits() ==> i == start && body == [])
      && ((phase == Waiting || phase == Sending) ==> i < Limit())
    }

    /**
     * What the response has written so far is the current buffer's bytes from `start`, and
     * the received count the loop last took is still the current one: `i` follows the bytes
     * written, and a write in progress ends at the received count.
     */
    ghost predicate Mirrors(proxy: MusicProxy)
      reads this, proxy, proxy.buf
    {
      && Delivered(body, start, proxy.buf[..], proxy.read)
      && |body| <= contentLength
      && ((phase == AtTop || phase == Waiting) ==> |body| == i - start)
      && (phase == Sending ==> start + |body| == proxy.read)
      && (phase == Completed && Fits() ==> |body| == contentLength)
    }

    /** `var i = start;` before the loop, for a Stream plan (whose length is positive). */
    constructor (start: nat, contentLength: nat)
      requires 0 < contentLength <= Int64Max && start <= Int64Max
      ensures Valid() && this.start == start && this.contentLength == contentLength
      ensures i == start && body == [] && phase == AtTop
    {
      this.start := start;
      this.contentLength := contentLength;
      i := start;
      body := [];
      phase := AtTop;
    }

    /** The loop test on the `long` bound, then the token test (lines 61-67). */
    method Check(proxy: MusicProxy)
      requires Valid() && phase == AtTop && |proxy.tokens| > 0
      modifies this
      ensures Valid() && i == old(i) && body == old(body)
      ensures old(Mirrors(proxy)) ==> Mirrors(proxy)
      ensures phase == (if i >= Limit() then Completed else if proxy.Cancelled() then Aborted else Waiting)
      ensures !Fits() ==> phase == Completed && body == []
    {
      if i >= Limit() {
        phase := Completed;
      } else if proxy.Cancelled() {
        phase := Aborted;
      } else {
        phase := Waiting;
      }
    }

    /**
     * One poll of the wait, then what follows it up to the awaited write (lines 69-78):
     * nothing happens while `read` has not passed `i` (the token is not looked at); then the
     * bytes up to the received count are written, or only up to the end of the range if more
     * than that has arrived, which ends the loop. The reader reads whatever buffer is current,
     * so after a restart it goes on from `i` in the new one.
     */
    method Poll(proxy: MusicProxy)
      requires Valid() && phase == Waiting && proxy.Valid()
      modifies this
      ensures Valid() && i == old(i)
      ensures old(Mirrors(proxy)) ==> Mirrors(proxy)
      ensures old(i) >= proxy.read ==> phase == Waiting && body == old(body)
      ensures old(i) < proxy.read && proxy.read > start + contentLength ==>
        phase == Completed && body == old(body) + proxy.buf[old(i)..start + contentLength]
      ensures old(i) < proxy.read <= start + contentLength ==>
        phase == Sending && body == old(body) + proxy.buf[old(i)..proxy.read]
    {
      if i < proxy.read {
        assert Fits() && Limit() == start + contentLength;
        var canRead := Limit() - i;
        var data := proxy.buf[..];
        var last := proxy.read - i > canRead;
        var upTo := if last then i + canRead else proxy.read;
        if Mirrors(proxy) {
          DeliveredExtend(body, start, data, proxy.read, i, upTo);
        }
        body := body + data[i..upTo];
        phase := if last then Completed else Sending;
      }
    }

    /**
     * `i = _read;` (line 79), once the write of line 78 has finished: the received count is
     * read again, so bytes that arrived during that write are passed over.
     */
    method Resume(proxy: MusicProxy)
      requires Valid() && phase == Sending
      modifies this
      ensures Valid() && phase == AtTop && i == proxy.read && body == old(body)
      ensures old(Mirrors(proxy)) ==> Mirrors(proxy)
    {
      i := proxy.read;
      phase := AtTop;
    }

    /**
     * The loop run until it finishes or has to wait for bytes not yet received, with no
     * writer step in between.
     */
    method Run(proxy: MusicProxy)
      requires Valid() && proxy.Valid() && (phase == AtTop || phase == Waiting)
      modifies this
      ensures Valid() && phase != AtTop && phase != Sending
      ensures old(Mirrors(proxy)) ==> Mirrors(proxy)
      ensures phase == Waiting ==> i >= proxy.read
      ensures phase == Aborted ==> proxy.Cancelled()
      ensures phase == Completed && Fits() && old(Mirrors(proxy)) ==>
        start + contentLength <= proxy.buf.Length && body == proxy.buf[start..start + contentLength]
      ensures Fits() && start + contentLength > proxy.buf.Length && old(Mirrors(proxy)) ==> phase != Completed
      ensures !proxy.Cancelled() && Fits() && start + contentLength <= proxy.read ==> phase == Completed
      ensures !Fits() ==> phase == Completed && body == []
    {
      ghost var mirrored := Mirrors(proxy);
      while phase == AtTop || (phase == Waiting && i < proxy.read) || phase == Sending
        invariant Valid()
        invariant mirrored ==> Mirrors(proxy)
        invariant phase == Aborted ==> proxy.Cancelled()
        invariant phase == Sending ==> i < proxy.read <= Limit()
        invariant !proxy.Cancelled() && Fits() && start + contentLength <= proxy.read ==> phase != Waiting || i < proxy.read
        invariant !proxy.Cancelled() && Fits() && start + contentLength <= proxy.read ==> phase != Aborted
        invariant !Fits() ==> phase == AtTop || phase == Completed
        decreases if i <= Limit() then Limit() - i else 0,
          if phase == AtTop then 3 else if phase == Waiting then 2 else if phase == Sending then 1 else 0
      {
        if phase == AtTop {
          Check(proxy);
        } else if phase == Waiting {
          Poll(proxy);
        } else {
          Resume(proxy);
        }
      }
    }
  }

  /**
   * `bytes=9223372036854775806-9223372036854775807` asks for two bytes, so it is answered 206
   * on any session of at least two bytes; its end `start + contentLength` is past the `long`
   * range, so the loop bound wraps and the response completes with nothing written.
   */
  lemma WrappedRangeAccepted(n: nat)
    requires 2 <= n <= Int64Max
    ensures RangeOutcome(RangeSpec(Int64Max - 1, Some(Int64Max)), n)
         == Stream(206, Int64Max - 1, 2, Some(2), Some(ContentRange(Int64Max - 1, Int64Max, n)))
    ensures (Int64Max - 1) + 2 > Int64Max
  {
    RangeOutcomeClosed(Int64Max - 1, Int64Max, n);
  }

  /** The response of a range ending past long.MaxValue: completed at once, with an empty body. */
  method ServeWrappedRange(proxy: MusicProxy) returns (phase: Phase, body: seq<byte>)
    requires proxy.Valid()
    ensures phase == Completed && body == []
  {
    var reader := new RangeReader(Int64Max - 1, 2);
    reader.Run(proxy);
    phase, body := reader.phase, reader.body;
  }

  /**
   * One response that spans a restart: a reader of the first ten bytes receives 1, 2, 3 of
   * the first track, `Start` attaches a new buffer for the next track, and the reader, whose
   * new token is not cancelled, goes on from offset 3 in the new buffer. The one response
   * carries bytes of both tracks.
   */
  method ResponseSpansRestart() returns (body: seq<byte>)
    ensures body == [1, 2, 3, 7]
  {
    var proxy := new MusicProxy();
    var reader := SendFirstChunk(proxy, [1, 2, 3]);
    reader.Resume(proxy);
    var attached := proxy.Start("audio/mp4", Some(10));
    assert proxy.read == 0 && !proxy.Cancelled();
    reader.Check(proxy);
    assert reader.phase == Waiting;
    var w2 := proxy.WriterStep([7, 7, 7, 7]);
    assert proxy.read == 4 && proxy.buf[..4] == [7, 7, 7, 7];
    reader.Poll(proxy);
    assert reader.body == [1, 2, 3] + proxy.buf[3..4];
    body := reader.body;
  }

  /**
   * A fresh ten-byte session receives its first chunk, and a reader of those ten bytes sends
   * all of it and awaits that write.
   */
  method SendFirstChunk(proxy: MusicProxy, chunk: seq<byte>) returns (reader: RangeReader)
    requires proxy.Valid() && !proxy.Cancelled() && 0 < |chunk| <= 10
    modifies proxy
    ensures proxy.Valid() && !proxy.Cancelled() && fresh(reader) && fresh(proxy.buf)
    ensures proxy.read == |chunk| && proxy.buf.Length == 10 && proxy.buf[..|chunk|] == chunk
    ensures reader.Valid() && reader.start == 0 && reader.contentLength == 10
    ensures reader.phase == Sending && reader.i == 0 && reader.body == chunk
  {
    proxy.Attach(10);
    var written := proxy.WriterStep(chunk);
    assert proxy.buf[..|chunk|] == chunk;
    reader := new RangeReader(0, 10);
    reader.Check(proxy);
    reader.Poll(proxy);
  }

  /**
   * A chunk the writer appends while the write of line 78 is awaited is passed over: line 79
   * moves `i` to the new received count, so the response never carries those bytes.
   */
  method SendInterrupted(proxy: MusicProxy, reader: RangeReader, chunk: seq<byte>) returns (outcome: WriteOutcome)
    requires proxy.Valid() && reader.Valid() && reader.phase == Sending && reader.Mirrors(proxy)
    requires |chunk| <= ChunkSize
    modifies proxy, proxy.buf, reader
    ensures reader.Valid() && reader.phase == AtTop && reader.body == old(reader.body)
    ensures outcome == Wrote ==> reader.i == reader.start + |reader.body| + |chunk|
    ensures outcome != Wrote ==> reader.Mirrors(proxy)
  {
    outcome := proxy.WriterStep(chunk);
    if outcome != Wrote {
      assert proxy.buf[..] == old(proxy.buf[..]);
    }
    reader.Resume(proxy);
  }

  /**
   * Two bytes are sent; bytes 3 and 4 arrive during that write; the reader then sends byte 5.
   * The response lacks the chunk received while its write was awaited.
   */
  method ResponseSkipsChunk() returns (body: seq<byte>, received: seq<byte>)
    ensures body == [1, 2, 5] && received == [1, 2, 3, 4, 5]
  {
    var proxy := new MusicProxy();
    var reader := SendFirstChunk(proxy, [1, 2]);
    var w2 := proxy.WriterStep([3, 4]);
    assert proxy.read == 4 && proxy.buf[..4] == [1, 2, 3, 4];
    reader.Resume(proxy);
    reader.Check(proxy);
    assert reader.phase == Waiting;
    var w3 := proxy.WriterStep([5]);
    assert proxy.read == 5 && proxy.buf[..5] == [1, 2, 3, 4, 5];
    reader.Poll(proxy);
    assert reader.body == [1, 2] + proxy.buf[4..5];
    body := reader.body;
    received := proxy.buf[..proxy.read];
  }
}
