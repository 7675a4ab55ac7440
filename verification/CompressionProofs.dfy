/** The buffering writer sends what the identity writer would, decoded. */
module CompressionProofs {
  import opened Journals
  import opened CompressionSpec

  /** The decoded content of what was sent. */
  function Body(wire: seq<Sent>): Bytes {
    if wire == [] then []
    else
      Body(wire[..|wire| - 1])
      + match wire[|wire| - 1] case Plain(data) => data case Zipped(data) => data case _ => []
  }

  predicate IsPart(s: Sent) {
    s.Plain? || s.Zipped? || s.ZipFlush? || s.ZipClose? || s.Flushed?
  }

  /** Informational statuses, then nothing else. */
  predicate Heading(wire: seq<Sent>, informationals: seq<nat>) {
    |wire| == |informationals| && forall i :: 0 <= i < |wire| ==> wire[i] == Informational(informationals[i])
  }

  /** Informational statuses, one final status, then parts of one coding only. */
  predicate Response(wire: seq<Sent>, informationals: seq<nat>, status: nat, coded: bool) {
    var n := |informationals|;
    && |wire| > n && Heading(wire[..n], informationals)
    && wire[n].Final? && wire[n].status == status && (coded ==> wire[n].headers.encoding == "gzip" && wire[n].headers.length.None?)
    && forall i :: n < i < |wire| ==>
         IsPart(wire[i]) && (if coded then !wire[i].Plain? else wire[i].Plain? || wire[i].Flushed?)
  }

  lemma BodyMore(wire: seq<Sent>, s: Sent)
    ensures Body(wire + [s]) == Body(wire) + match s case Plain(data) => data case Zipped(data) => data case _ => []
  {
  }

  lemma {:induction false} HeadingHasNoBody(wire: seq<Sent>, informationals: seq<nat>)
    requires Heading(wire, informationals)
    ensures Body(wire) == []
    decreases |wire|
  {
    if wire != [] {
      HeadingHasNoBody(wire[..|wire| - 1], informationals[..|informationals| - 1]);
    }
  }

  /** Where the writer stands, by mode. */
  predicate Stands(w: Writer, written: Bytes, final: Option<nat>, informationals: seq<nat>) {
    match w.mode
    case Undecided =>
      final.None? && w.status == 0 && !w.headerSent && w.buffer == written == [] && Heading(w.wire, informationals)
    case Buffering =>
      && final == Some(w.status) && w.status != 0 && !w.headerSent && Heading(w.wire, informationals)
      && w.buffer == written && |written| < THRESHOLD
    case PassThrough =>
      && final == Some(w.status) && w.status != 0 && w.headerSent && w.buffer == []
      && Response(w.wire, informationals, w.status, false) && Body(w.wire) == written
    case Gzip =>
      && final == Some(w.status) && w.status != 0 && w.headerSent && w.buffer == []
      && Response(w.wire, informationals, w.status, true) && Body(w.wire) == written
      && forall i :: 0 <= i < |w.wire| ==> !w.wire[i].ZipClose?
  }

  lemma PartAdded(wire: seq<Sent>, informationals: seq<nat>, status: nat, coded: bool, s: Sent)
    requires Response(wire, informationals, status, coded) && IsPart(s)
    requires if coded then !s.Plain? else s.Plain? || s.Flushed?
    ensures Response(wire + [s], informationals, status, coded)
  {
  }

  lemma HeaderAdded(wire: seq<Sent>, informationals: seq<nat>, status: nat, headers: Headers, coded: bool)
    requires Heading(wire, informationals) && (coded ==> headers.encoding == "gzip" && headers.length.None?)
    ensures Response(wire + [Final(status, headers)], informationals, status, coded) && Body(wire + [Final(status, headers)]) == []
  {
    assert (wire + [Final(status, headers)])[..|informationals|] == wire;
    HeadingHasNoBody(wire, informationals);
    BodyMore(wire, Final(status, headers));
  }

  lemma StatusStands(w: Writer, status: nat, written: Bytes, final: Option<nat>, informationals: seq<nat>)
    requires Stands(w, written, final, informationals) && 100 <= status <= 999
    ensures Stands(WriteHeader(w, status), written,
                   if final.Some? then final else if status < 200 then None else Some(status),
                   if final.None? && status < 200 then informationals + [status] else informationals)
  {
    if w.mode == Undecided && status >= 200 {
      var decided := Decide(w.(status := status));
      HeaderAdded(w.wire, informationals, status, decided.headers, false);
    }
  }

  lemma BeginStands(w: Writer, written: Bytes, final: Option<nat>, informationals: seq<nat>)
    requires Stands(w, written, final, informationals)
    ensures Begin(w).mode != Undecided
    ensures Stands(Begin(w), written, if final.Some? then final else Some(OK), informationals)
  {
    StatusStands(w, OK, written, final, informationals);
  }

  lemma GzipStands(w: Writer, written: Bytes, final: Option<nat>, informationals: seq<nat>)
    requires w.mode == Buffering && final == Some(w.status) && w.status != 0 && !w.headerSent
    requires Heading(w.wire, informationals) && w.buffer == written
    ensures Stands(StartGzip(w), written, final, informationals) && StartGzip(w).mode == Gzip
  {
    var headers := w.headers.(encoding := "gzip", length := None, etag := Weaken(w.headers.etag));
    var sent := w.wire + [Final(w.status, headers)];
    HeaderAdded(w.wire, informationals, w.status, headers, true);
    PartAdded(sent, informationals, w.status, true, Zipped(w.buffer));
    BodyMore(sent, Zipped(w.buffer));
    assert StartGzip(w).wire == sent + [Zipped(w.buffer)];
  }

  lemma WriteStands(w: Writer, data: Bytes, written: Bytes, final: Option<nat>, informationals: seq<nat>)
    requires Stands(w, written, final, informationals)
    ensures Stands(WriteData(w, data), written + data, if final.Some? then final else Some(OK), informationals)
  {
    var begun := Begin(w);
    BeginStands(w, written, final, informationals);
    match begun.mode
    case PassThrough =>
      PartAdded(begun.wire, informationals, begun.status, false, Plain(data));
      BodyMore(begun.wire, Plain(data));
    case Gzip =>
      PartAdded(begun.wire, informationals, begun.status, true, Zipped(data));
      BodyMore(begun.wire, Zipped(data));
    case Buffering =>
      var held := begun.(buffer := begun.buffer + data);
      if |held.buffer| >= THRESHOLD { GzipStands(held, written + data, Some(begun.status), informationals); }
  }

  lemma ControlStands(w: Writer, s: Sent, written: Bytes, final: Option<nat>, informationals: seq<nat>)
    requires Stands(w, written, final, informationals)
    requires (w.mode == Gzip && (s.ZipFlush? || s.Flushed?)) || (w.mode == PassThrough && s.Flushed?)
    ensures Stands(Send(w, s), written, final, informationals)
  {
  }

  lemma FlushStands(w: Writer, written: Bytes, final: Option<nat>, informationals: seq<nat>)
    requires Stands(w, written, final, informationals)
    ensures Stands(Flush(w), written, if final.Some? then final else Some(OK), informationals)
  {
    var begun := Begin(w);
    var status := if final.Some? then final else Some(OK);
    BeginStands(w, written, final, informationals);
    if begun.mode == Buffering && begun.buffer != [] {
      var coded := StartGzip(begun);
      GzipStands(begun, written, status, informationals);
      ControlStands(coded, ZipFlush, written, status, informationals);
      ControlStands(Send(coded, ZipFlush), Flushed, written, status, informationals);
    } else if begun.mode == Buffering {
      var sent := SendHeader(begun.(mode := PassThrough));
      HeaderAdded(begun.wire, informationals, begun.status, begun.headers, false);
      ControlStands(sent, Flushed, written, status, informationals);
    } else if begun.mode == Gzip {
      ControlStands(begun, ZipFlush, written, status, informationals);
      ControlStands(Send(begun, ZipFlush), Flushed, written, status, informationals);
    } else {
      ControlStands(begun, Flushed, written, status, informationals);
    }
  }

  lemma {:induction false} RunStands(headers: Headers, ops: seq<Op>)
    requires forall i :: 0 <= i < |ops| ==> ValidOp(ops[i])
    ensures Stands(Run(NewWriter(headers), ops), Written(ops), FinalStatus(ops), Informationals(ops))
    decreases |ops|
  {
    if ops != [] {
      var before, op := ops[..|ops| - 1], ops[|ops| - 1];
      var w := Run(NewWriter(headers), before);
      RunStands(headers, before);
      match op
      case OpStatus(status) => StatusStands(w, status, Written(before), FinalStatus(before), Informationals(before));
      case OpWrite(data) => WriteStands(w, data, Written(before), FinalStatus(before), Informationals(before));
      case OpFlush => FlushStands(w, Written(before), FinalStatus(before), Informationals(before));
      case OpHeaders(_) =>
    }
  }

  lemma FlushEnds(w: Writer, written: Bytes, final: Option<nat>, informationals: seq<nat>)
    requires Stands(w, written, final, informationals)
    ensures var d := Flush(w);
            && (d.mode == PassThrough || (d.mode == Gzip && |d.wire| > 1 && d.wire[|d.wire| - 2].ZipFlush?))
            && d.wire != [] && d.wire[|d.wire| - 1].Flushed?
  {
    BeginStands(w, written, final, informationals);
  }

  lemma PlainHasNoZip(wire: seq<Sent>, informationals: seq<nat>, status: nat, i: nat)
    requires Response(wire, informationals, status, false) && i < |wire|
    ensures !wire[i].Zipped?
  {
    var n := |informationals|;
    if i < n { assert wire[i] == wire[..n][i] == Informational(informationals[i]); }
  }

  /** A flushed response is streamed: after a flush, everything written so far is sent, and
      the coder, if it is used, was flushed before the connection. */
  lemma FlushDelivers(headers: Headers, ops: seq<Op>)
    requires forall i :: 0 <= i < |ops| ==> ValidOp(ops[i])
    requires ops != [] && ops[|ops| - 1].OpFlush?
    ensures var wire := Run(NewWriter(headers), ops).wire;
            && Body(wire) == Written(ops) && wire != [] && wire[|wire| - 1].Flushed?
            && forall i :: 0 <= i < |wire| && wire[i].Zipped? ==> |wire| > 1 && wire[|wire| - 2].ZipFlush?
  {
    var before, w := ops[..|ops| - 1], Run(NewWriter(headers), ops);
    RunStands(headers, before);
    RunStands(headers, ops);
    FlushEnds(Run(NewWriter(headers), before), Written(before), FinalStatus(before), Informationals(before));
    if w.mode == PassThrough {
      forall i | 0 <= i < |w.wire| ensures !w.wire[i].Zipped? {
        PlainHasNoZip(w.wire, Informationals(ops), w.status, i);
      }
    }
  }

  // ---- the finished response

  /** Exactly one close, and nothing after it. */
  predicate ClosedAtEnd(wire: seq<Sent>) {
    |wire| > 0 && wire[|wire| - 1].ZipClose? && forall i :: 0 <= i < |wire| - 1 ==> !wire[i].ZipClose?
  }

  lemma FinishStands(w: Writer, written: Bytes, final: Option<nat>, informationals: seq<nat>)
    requires Stands(w, written, final, informationals)
    ensures var d := Finish(w);
            && d.mode == (if w.mode == Gzip then Gzip else if final.Some? then PassThrough else Undecided)
            && (final.None? ==> written == [] && Heading(d.wire, informationals))
            && (final.Some? ==> Response(d.wire, informationals, final.value, d.mode == Gzip) && Body(d.wire) == written)
            && (d.mode == Gzip ==> ClosedAtEnd(d.wire))
  {
    match w.mode
    case Buffering =>
      var sent := w.wire + [Final(w.status, w.headers)];
      HeaderAdded(w.wire, informationals, w.status, w.headers, false);
      PartAdded(sent, informationals, w.status, false, Plain(w.buffer));
      BodyMore(sent, Plain(w.buffer));
    case Gzip =>
      PartAdded(w.wire, informationals, w.status, true, ZipClose);
      BodyMore(w.wire, ZipClose);
    case _ =>
  }

  /** Same bytes, same statuses: for any calls a handler makes, the finished response has
      the identity writer's informational and final statuses in order, before any body
      part, and its decoded body is the concatenation of all writes. */
  lemma SameAsIdentity(headers: Headers, ops: seq<Op>)
    requires forall i :: 0 <= i < |ops| ==> ValidOp(ops[i])
    ensures var d := Finish(Run(NewWriter(headers), ops));
            && (FinalStatus(ops).None? ==> Written(ops) == [] && Heading(d.wire, Informationals(ops)))
            && (FinalStatus(ops).Some? ==>
                  && Response(d.wire, Informationals(ops), FinalStatus(ops).value, d.mode == Gzip)
                  && Body(d.wire) == Written(ops) && (d.mode == Gzip ==> ClosedAtEnd(d.wire)))
  {
    RunStands(headers, ops);
    FinishStands(Run(NewWriter(headers), ops), Written(ops), FinalStatus(ops), Informationals(ops));
  }

  // ---- when a body is coded

  /** What the header and the status allow to be compressed. */
  predicate Eligible(headers: Headers, status: nat) {
    && headers.compressible && status != 204 && status != 304 && headers.encoding == "" && !headers.noTransform
    && (headers.length.None? || headers.length.value >= 1024)
  }

  /** The header in force when the final status is given. */
  function DecidingHeaders(headers: Headers, ops: seq<Op>): Headers {
    if ops == [] then headers
    else
      var before, op := DecidingHeaders(headers, ops[..|ops| - 1]), ops[|ops| - 1];
      if op.OpHeaders? && FinalStatus(ops[..|ops| - 1]).None? then op.headers else before
  }

  /** What the body says: it asks for coding when it reaches the threshold or is flushed with
      something in it, and against it when it is flushed first with nothing in it. */
  function BodyAsks(ops: seq<Op>): Option<bool> {
    if ops == [] then None
    else
      var before := BodyAsks(ops[..|ops| - 1]);
      if before.Some? then before
      else
        match ops[|ops| - 1]
        case OpWrite(_) => if |Written(ops)| >= 1024 then Some(true) else None
        case OpFlush => Some(Written(ops) != [])
        case _ => None
  }

  predicate Decided(w: Writer, deciding: Headers, asks: Option<bool>) {
    match w.mode
    case Undecided => w.headers == deciding && asks.None?
    case Buffering => Eligible(deciding, w.status) && asks.None?
    case PassThrough => !Eligible(deciding, w.status) || asks == Some(false)
    case Gzip => Eligible(deciding, w.status) && asks == Some(true)
  }

  lemma ApplyDecided(w: Writer, op: Op, d: Writer, deciding: Headers, asks: Option<bool>, written: Bytes, final: Option<nat>,
                     informationals: seq<nat>)
    requires Stands(w, written, final, informationals) && Decided(w, deciding, asks) && ValidOp(op) && d == Apply(w, op)
    ensures Decided(d, if op.OpHeaders? && final.None? then op.headers else deciding,
                    if asks.Some? then asks
                    else if op.OpFlush? then Some(written != [])
                    else if op.OpWrite? && |written + op.data| >= THRESHOLD then Some(true) else None)
  {
  }

  lemma {:induction false} RunDecided(headers: Headers, ops: seq<Op>)
    requires forall i :: 0 <= i < |ops| ==> ValidOp(ops[i])
    ensures Decided(Run(NewWriter(headers), ops), DecidingHeaders(headers, ops), BodyAsks(ops))
    decreases |ops|
  {
    if ops != [] {
      var before := ops[..|ops| - 1];
      RunStands(headers, before);
      RunDecided(headers, before);
      ApplyDecided(Run(NewWriter(headers), before), ops[|ops| - 1], Run(NewWriter(headers), ops), DecidingHeaders(headers, before),
                   BodyAsks(before), Written(before), FinalStatus(before), Informationals(before));
    }
  }

  /** For any calls, the body is coded if and only if the header in force at the final status
      and that status allow it, and the body asks for it. */
  lemma CodedExactlyWhenAsked(headers: Headers, ops: seq<Op>)
    requires forall i :: 0 <= i < |ops| ==> ValidOp(ops[i])
    ensures Finish(Run(NewWriter(headers), ops)).mode == Gzip
            <==> FinalStatus(ops).Some? && Eligible(DecidingHeaders(headers, ops), FinalStatus(ops).value)
                 && BodyAsks(ops) == Some(true)
  {
    RunStands(headers, ops);
    RunDecided(headers, ops);
  }

  lemma {:induction false} UnflushedAsks(ops: seq<Op>)
    requires FlushesNever(ops)
    ensures BodyAsks(ops) == if |Written(ops)| >= 1024 then Some(true) else None
    decreases |ops|
  {
    if ops != [] { UnflushedAsks(ops[..|ops| - 1]); }
  }

  /** A body that is never flushed is coded exactly when header and status allow it and it
      reaches the threshold; a shorter one goes out unencoded. */
  lemma CodedExactlyWhenLong(headers: Headers, ops: seq<Op>)
    requires forall i :: 0 <= i < |ops| ==> ValidOp(ops[i])
    requires FlushesNever(ops)
    ensures Finish(Run(NewWriter(headers), ops)).mode == Gzip
            <==> FinalStatus(ops).Some? && Eligible(DecidingHeaders(headers, ops), FinalStatus(ops).value)
                 && |Written(ops)| >= 1024
  {
    CodedExactlyWhenAsked(headers, ops);
    UnflushedAsks(ops);
  }

  // ---- the header that is sent

  /** The handler is done with the header when it gives the final status. */
  predicate HeaderDone(ops: seq<Op>) {
    forall i :: 0 <= i < |ops| && ops[i].OpHeaders? ==> FinalStatus(ops[..i]).None?
  }

  /** The tag of the coded representation: a strong one becomes weak, a weak or missing one stays. */
  predicate CodedTag(tag: string, coded: string) {
    if tag == "" || "W/" <= tag then coded == tag else coded == "W/" + tag
  }

  /** The handler's header, with one more Vary entry for a compressible type, and for a coded
      body with its encoding named, its length dropped and its tag weakened. */
  predicate SentFor(sent: Headers, given: Headers, coded: bool) {
    && sent.vary == given.vary + (if given.compressible then 1 else 0)
    && sent.compressible == given.compressible && sent.noTransform == given.noTransform
    && (if coded then sent.encoding == "gzip" && sent.length.None? && CodedTag(given.etag, sent.etag)
        else sent.encoding == given.encoding && sent.length == given.length && sent.etag == given.etag)
  }

  predicate HeaderStands(w: Writer, given: Headers, n: nat) {
    if w.mode == Undecided then w.headers == given
    else if !w.headerSent then SentFor(w.headers, given, false)
    else n < |w.wire| && w.wire[n].Final? && SentFor(w.wire[n].headers, given, w.mode == Gzip)
  }

  lemma BeginHeader(w: Writer, d: Writer, given: Headers, written: Bytes, final: Option<nat>, informationals: seq<nat>)
    requires Stands(w, written, final, informationals) && HeaderStands(w, given, |informationals|) && d == Begin(w)
    ensures HeaderStands(d, given, |informationals|)
  {
  }

  lemma GzipHeader(w: Writer, given: Headers, informationals: seq<nat>)
    requires w.mode == Buffering && !w.headerSent && Heading(w.wire, informationals) && SentFor(w.headers, given, false)
    ensures HeaderStands(StartGzip(w), given, |informationals|) && |StartGzip(w).wire| > |informationals|
  {
  }

  lemma FlushHeader(w: Writer, given: Headers, written: Bytes, final: Option<nat>, informationals: seq<nat>)
    requires Stands(w, written, final, informationals) && HeaderStands(w, given, |informationals|)
    ensures HeaderStands(Flush(w), given, |informationals|)
  {
    var begun := Begin(w);
    BeginStands(w, written, final, informationals);
    BeginHeader(w, begun, given, written, final, informationals);
    if begun.mode == Buffering && begun.buffer != [] { GzipHeader(begun, given, informationals); }
  }

  lemma WriteKeepsHeader(w: Writer, data: Bytes, given: Headers, written: Bytes, final: Option<nat>, informationals: seq<nat>)
    requires Stands(w, written, final, informationals) && HeaderStands(w, given, |informationals|)
    ensures HeaderStands(WriteData(w, data), given, |informationals|)
  {
    var begun := Begin(w);
    BeginStands(w, written, final, informationals);
    BeginHeader(w, begun, given, written, final, informationals);
    if begun.mode == Buffering { GzipHeader(begun.(buffer := begun.buffer + data), given, informationals); }
  }

  lemma ApplyHeader(w: Writer, op: Op, d: Writer, given: Headers, written: Bytes, final: Option<nat>, informationals: seq<nat>)
    requires Stands(w, written, final, informationals) && ValidOp(op) && d == Apply(w, op)
    requires HeaderStands(w, given, |informationals|) && (op.OpHeaders? ==> final.None?)
    ensures HeaderStands(d, if op.OpHeaders? then op.headers else given,
                         |if final.None? && op.OpStatus? && op.status < 200 then informationals + [op.status] else informationals|)
  {
    match op
    case OpWrite(data) => WriteKeepsHeader(w, data, given, written, final, informationals);
    case OpFlush => FlushHeader(w, given, written, final, informationals);
    case _ =>
  }

  lemma {:induction false} RunHeader(headers: Headers, ops: seq<Op>)
    requires (forall i :: 0 <= i < |ops| ==> ValidOp(ops[i])) && HeaderDone(ops)
    ensures HeaderStands(Run(NewWriter(headers), ops), DecidingHeaders(headers, ops), |Informationals(ops)|)
    decreases |ops|
  {
    if ops != [] {
      var before, op := ops[..|ops| - 1], ops[|ops| - 1];
      assert forall i :: 0 <= i < |before| ==> before[i] == ops[i] && before[..i] == ops[..i];
      assert op.OpHeaders? ==> FinalStatus(before).None?;
      RunStands(headers, before);
      RunHeader(headers, before);
      ApplyHeader(Run(NewWriter(headers), before), op, Run(NewWriter(headers), ops), DecidingHeaders(headers, before),
                  Written(before), FinalStatus(before), Informationals(before));
    }
  }

  /** For any calls of a handler that is done with the header by its final status, the header
      that is sent is the handler's but for the changes that the coding calls for. */
  lemma HeaderIsHandlers(headers: Headers, ops: seq<Op>)
    requires (forall i :: 0 <= i < |ops| ==> ValidOp(ops[i])) && HeaderDone(ops) && FinalStatus(ops).Some?
    ensures var d, n := Finish(Run(NewWriter(headers), ops)), |Informationals(ops)|;
            n < |d.wire| && d.wire[n].Final? && SentFor(d.wire[n].headers, DecidingHeaders(headers, ops), d.mode == Gzip)
  {
    RunStands(headers, ops);
    RunHeader(headers, ops);
    FinishStands(Run(NewWriter(headers), ops), Written(ops), FinalStatus(ops), Informationals(ops));
  }

  // ---- the Content-Encoding field

  predicate SetsNoEncoding(ops: seq<Op>) {
    forall i :: 0 <= i < |ops| && ops[i].OpHeaders? ==> ops[i].headers.encoding == ""
  }

  /** Until the header is sent the handler's value stands; a sent one names gzip exactly
      when the body is coded. */
  predicate EncodingStands(w: Writer, n: nat) {
    if !w.headerSent then w.headers.encoding == ""
    else n < |w.wire| && w.wire[n].Final? && w.wire[n].headers.encoding == (if w.mode == Gzip then "gzip" else "")
  }

  lemma ApplyEncoding(w: Writer, op: Op, written: Bytes, final: Option<nat>, informationals: seq<nat>)
    requires Stands(w, written, final, informationals) && ValidOp(op) && EncodingStands(w, |informationals|)
    requires op.OpHeaders? ==> op.headers.encoding == ""
    ensures EncodingStands(Apply(w, op),
                           |if final.None? && op.OpStatus? && op.status < 200 then informationals + [op.status] else informationals|)
  {
  }

  lemma {:induction false} RunEncoding(headers: Headers, ops: seq<Op>)
    requires forall i :: 0 <= i < |ops| ==> ValidOp(ops[i])
    requires headers.encoding == "" && SetsNoEncoding(ops)
    ensures EncodingStands(Run(NewWriter(headers), ops), |Informationals(ops)|)
    decreases |ops|
  {
    if ops != [] {
      var before, op := ops[..|ops| - 1], ops[|ops| - 1];
      RunStands(headers, before);
      RunEncoding(headers, before);
      ApplyEncoding(Run(NewWriter(headers), before), op, Written(before), FinalStatus(before), Informationals(before));
    }
  }

  /** The writer adds Content-Encoding gzip exactly when it sends the body through gzip
      (section 8.4.1.3 of RFC 9110). */
  lemma EncodingNamesTheCoding(headers: Headers, ops: seq<Op>)
    requires forall i :: 0 <= i < |ops| ==> ValidOp(ops[i])
    requires headers.encoding == "" && SetsNoEncoding(ops) && FinalStatus(ops).Some?
    ensures var d := Finish(Run(NewWriter(headers), ops));
            var n := |Informationals(ops)|;
            && n < |d.wire| && d.wire[n].Final?
            && (d.wire[n].headers.encoding == "gzip" <==> d.mode == Gzip) && (d.mode != Gzip ==> d.wire[n].headers.encoding == "")
  {
    RunStands(headers, ops);
    RunEncoding(headers, ops);
  }
}
