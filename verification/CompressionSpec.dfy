/** The buffering response writer as a value: what it holds back and what it sends. */
module CompressionSpec {
  import opened Journals

  const THRESHOLD := 1024
  const OK := 200
  const NO_CONTENT := 204
  const NOT_MODIFIED := 304

  type Bytes = seq<bv8>

  /** The parts of the header the writer reads or changes. */
  datatype Headers = Headers(compressible: bool, encoding: string, length: Option<int>, noTransform: bool, etag: string, vary: nat)

  /** Everything that reaches the connection, in order. Gzip parts carry the bytes that the
      coder was given; decoding a closed gzip stream gives their concatenation. */
  datatype Sent =
    | Informational(status: nat)
    | Final(status: nat, headers: Headers)
    | Plain(data: Bytes)
    | Zipped(data: Bytes)
    | ZipFlush
    | ZipClose
    | Flushed

  datatype Mode = Undecided | Buffering | PassThrough | Gzip

  datatype Writer = Writer(
    mode: Mode, status: nat, buffer: Bytes, headerSent: bool, headers: Headers, wire: seq<Sent>)

  function Send(w: Writer, s: Sent): Writer {
    w.(wire := w.wire + [s])
  }

  function Decide(w: Writer): Writer {
    if w.mode != Undecided then w
    else if !w.headers.compressible then w.(mode := PassThrough)
    else
      var varied := w.(headers := w.headers.(vary := w.headers.vary + 1));
      if w.status == NO_CONTENT || w.status == NOT_MODIFIED || w.headers.encoding != "" || w.headers.noTransform
         || (w.headers.length.Some? && w.headers.length.value < THRESHOLD)
      then varied.(mode := PassThrough)
      else varied.(mode := Buffering)
  }

  function SendHeader(w: Writer): Writer {
    if w.headerSent then w
    else Send(w.(headerSent := true), Final(if w.status == 0 then OK else w.status, w.headers))
  }

  function WriteHeader(w: Writer, status: nat): Writer {
    if w.status != 0 || w.headerSent then w
    else if 100 <= status < 200 then Send(w, Informational(status))
    else
      var decided := Decide(w.(status := status));
      if decided.mode == PassThrough then SendHeader(decided) else decided
  }

  /** A Write or Flush without a status answers 200. */
  function Begin(w: Writer): Writer {
    if w.status == 0 && !w.headerSent then WriteHeader(w, OK) else w
  }

  function Weaken(etag: string): string {
    if etag == "" || (|etag| >= 2 && etag[..2] == "W/") then etag else "W/" + etag
  }

  function StartGzip(w: Writer): Writer {
    var coded := w.(headers := w.headers.(encoding := "gzip", length := None, etag := Weaken(w.headers.etag)));
    Send(SendHeader(coded).(mode := Gzip, buffer := []), Zipped(w.buffer))
  }

  function WriteData(w: Writer, data: Bytes): Writer {
    var begun := Begin(w);
    match begun.mode
    case PassThrough => Send(SendHeader(begun), Plain(data))
    case Gzip => Send(begun, Zipped(data))
    case _ =>
      var held := begun.(buffer := begun.buffer + data);
      if |held.buffer| >= THRESHOLD then StartGzip(held) else held
  }

  function Flush(w: Writer): Writer {
    var begun := Begin(w);
    var ready :=
      if begun.mode != Buffering then begun
      else if begun.buffer != [] then StartGzip(begun)
      else SendHeader(begun.(mode := PassThrough));
    Send(if ready.mode == Gzip then Send(ready, ZipFlush) else ready, Flushed)
  }

  function Finish(w: Writer): Writer {
    match w.mode
    case Buffering =>
      var sent := SendHeader(w.(mode := PassThrough));
      if w.buffer != [] then Send(sent, Plain(w.buffer)).(buffer := []) else sent
    case Gzip => Send(w, ZipClose)
    case Undecided => if w.status != 0 then SendHeader(w.(mode := PassThrough)) else w
    case PassThrough => w
  }

  // ---- what a handler does

  datatype Op =
    | OpStatus(status: nat)
    | OpWrite(data: Bytes)
    | OpFlush
    | OpHeaders(headers: Headers)

  /** The statuses the server accepts. */
  predicate ValidOp(op: Op) {
    op.OpStatus? ==> 100 <= op.status <= 999
  }

  function Apply(w: Writer, op: Op): Writer {
    match op
    case OpStatus(status) => WriteHeader(w, status)
    case OpWrite(data) => WriteData(w, data)
    case OpFlush => Flush(w)
    case OpHeaders(headers) => w.(headers := headers)
  }

  function Run(w: Writer, ops: seq<Op>): Writer {
    if ops == [] then w else Apply(Run(w, ops[..|ops| - 1]), ops[|ops| - 1])
  }

  function NewWriter(headers: Headers): Writer {
    Writer(Undecided, 0, [], false, headers, [])
  }

  // ---- the identity writer: what the handler means to send

  function Written(ops: seq<Op>): Bytes {
    if ops == [] then []
    else Written(ops[..|ops| - 1]) + if ops[|ops| - 1].OpWrite? then ops[|ops| - 1].data else []
  }

  /** The first status from 200 up, or 200 at the first write or flush, or none. */
  function FinalStatus(ops: seq<Op>): Option<nat> {
    if ops == [] then None
    else
      var before := FinalStatus(ops[..|ops| - 1]);
      if before.Some? then before
      else
        match ops[|ops| - 1]
        case OpStatus(status) => if 100 <= status < 200 then None else Some(status)
        case OpHeaders(_) => None
        case _ => Some(OK)
  }

  function Informationals(ops: seq<Op>): seq<nat> {
    if ops == [] then []
    else
      var before := Informationals(ops[..|ops| - 1]);
      var op := ops[|ops| - 1];
      if FinalStatus(ops[..|ops| - 1]).None? && op.OpStatus? && 100 <= op.status < 200 then before + [op.status] else before
  }

  predicate FlushesNever(ops: seq<Op>) {
    forall i :: 0 <= i < |ops| ==> !ops[i].OpFlush?
  }
}
