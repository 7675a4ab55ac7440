/** The writer's fields changed call by call. */
module CompressingWriter {
  import opened Journals
  import opened CompressionSpec

  class CompressingWriter {
    var mode: Mode
    var status: nat
    var buffer: Bytes
    var headerSent: bool
    // The wrapped response writer: its header map and everything it was told to send.
    var header: Headers
    var sent: seq<Sent>

    ghost function View(): Writer
      reads this
    {
      Writer(mode, status, buffer, headerSent, header, sent)
    }

    constructor (header: Headers)
      ensures View() == NewWriter(header)
    {
      mode, status, buffer, headerSent, sent := Undecided, 0, [], false, [];
      this.header := header;
    }

    method DecideMode()
      modifies this`mode, this`header
      ensures View() == Decide(old(View()))
    {
      if mode != Undecided { return; }
      if !header.compressible {
        mode := PassThrough;
        return;
      }
      var previous := header;
      header := header.(vary := header.vary + 1);
      if status == NO_CONTENT || status == NOT_MODIFIED || previous.encoding != "" || previous.noTransform {
        mode := PassThrough;
        return;
      }
      if previous.length.Some? && previous.length.value < THRESHOLD {
        mode := PassThrough;
        return;
      }
      mode := Buffering;
    }

    method SendHeaderOnce()
      modifies this`headerSent, this`sent
      ensures View() == SendHeader(old(View()))
    {
      if headerSent { return; }
      headerSent := true;
      sent := sent + [Final(if status == 0 then OK else status, header)];
    }

    method WriteStatus(code: nat)
      modifies this
      ensures View() == WriteHeader(old(View()), code)
    {
      if status != 0 || headerSent { return; }
      status := code;
      if 100 <= code < 200 {
        status := 0;
        sent := sent + [Informational(code)];
        return;
      }
      DecideMode();
      if mode == PassThrough { SendHeaderOnce(); }
    }

    method BeginGzip()
      modifies this
      ensures View() == StartGzip(old(View()))
    {
      header := header.(encoding := "gzip", length := None);
      if header.etag != "" && !(|header.etag| >= 2 && header.etag[..2] == "W/") {
        header := header.(etag := "W/" + header.etag);
      }
      SendHeaderOnce();
      mode := Gzip;
      var buffered := buffer;
      buffer := [];
      sent := sent + [Zipped(buffered)];
    }

    method WriteBody(data: Bytes)
      modifies this
      ensures View() == WriteData(old(View()), data)
    {
      if status == 0 && !headerSent { WriteStatus(OK); }
      if mode == PassThrough {
        SendHeaderOnce();
        sent := sent + [Plain(data)];
        return;
      }
      if mode == Gzip {
        sent := sent + [Zipped(data)];
        return;
      }
      buffer := buffer + data;
      if |buffer| >= THRESHOLD { BeginGzip(); }
    }

    method FlushBody()
      modifies this
      ensures View() == Flush(old(View()))
    {
      if status == 0 && !headerSent { WriteStatus(OK); }
      if mode == Buffering {
        if |buffer| > 0 {
          BeginGzip();
        } else {
          mode := PassThrough;
          SendHeaderOnce();
        }
      }
      if mode == Gzip { sent := sent + [ZipFlush]; }
      sent := sent + [Flushed];
    }

    method FinishBody()
      modifies this
      ensures View() == Finish(old(View()))
    {
      if mode == Buffering {
        mode := PassThrough;
        SendHeaderOnce();
        if |buffer| > 0 {
          sent := sent + [Plain(buffer)];
          buffer := [];
        }
      } else if mode == Gzip {
        sent := sent + [ZipClose];
      } else if mode == Undecided && status != 0 {
        mode := PassThrough;
        SendHeaderOnce();
      }
    }
  }
}
