/** The response object of curl_http/happyhttp/happyhttp.cpp. */
module HttpObject {
  import opened HttpText
  import M = HttpMachine

  class Response {
    var state: M.State
    const verb: string
    var versionString: string
    var version: int
    var status: int
    var reason: string
    var headers: map<string, string>
    var bytesRead: nat
    var chunked: bool
    var chunkLeft: int
    var length: int
    var willClose: bool
    var lineBuf: string
    var headerAccum: string
    /** The callbacks made, adjacent pieces of body data put together. */
    ghost var log: seq<M.Event>

    ghost function Now(): M.Response
      reads this
    {
      M.Response(
        state, verb, versionString, version, status, reason, headers, bytesRead, chunked, chunkLeft, length, willClose,
        lineBuf, headerAccum, log)
    }

    /** What every response that has been pumped keeps. */
    ghost predicate Valid()
      reads this
    {
      M.WellFormed(Now())
    }

    constructor (verb: string)
      ensures Valid() && Now() == M.Fresh(verb)
    {
      this.verb := verb;
      state, versionString, version, status, reason, headers := M.StatusLine, [], 0, 0, [], map[];
      bytesRead, chunked, chunkLeft, length, willClose, lineBuf, headerAccum := 0, false, 0, -1, false, [], [];
      log := [];
    }

    ghost method Call(e: M.Event)
      modifies `log
      ensures log == if e.Data? then M.Emit(old(log), e.bytes) else old(log) + [e]
    {
      log := if e.Data? then M.Emit(log, e.bytes) else log + [e];
    }

    method Finish()
      modifies this
      ensures Now() == M.Finish(old(Now()))
    {
      state := M.Complete;
      Call(M.Done);
    }

    /** The three words of a status line. */
    method SplitStatusLine(line: string) returns (protocol: string, digits: string, rest: string)
      ensures M.Words(line) == (protocol, digits, rest)
    {
      var p := DropBlanks(CString(line));
      protocol, p := Scan(p, ' ');
      p := DropBlanks(p);
      digits, p := Scan(p, ' ');
      rest := DropBlanks(p);
    }

    /** The assignments of ProcessStatusLine up to the first check. */
    method StoreStatusLine(line: string)
      modifies `versionString, `reason, `status
      ensures var (protocol, digits, rest) := M.Words(line);
        && versionString == old(versionString) + protocol && reason == old(reason) + rest && status == Atoi(digits)
    {
      var protocol, digits, rest := SplitStatusLine(line);
      versionString := versionString + protocol;
      reason := reason + rest;
      status := Atoi(digits);
    }

    /** The checks of ProcessStatusLine. */
    method CheckStatus() returns (threw: bool)
      modifies `version, `state, `headerAccum
      ensures var f := M.CheckStatus(old(Now())); if threw then f == M.Threw else f == M.Lives(Now())
      ensures threw ==> state == old(state)
    {
      if status < 100 || status > 999 {
        return true;
      }
      if versionString == "HTTP:/1.0" {
        version := 10;
      } else if "HTTP/1." <= versionString {
        version := 11;
      } else {
        return true;
      }
      state, headerAccum := M.Headers, [];
      threw := false;
    }

    method ProcessStatusLine(line: string) returns (threw: bool)
      modifies `versionString, `reason, `status, `version, `state, `headerAccum
      ensures var f := M.ProcessStatusLine(old(Now()), line); if threw then f == M.Threw else f == M.Lives(Now())
      ensures threw ==> state == old(state)
    {
      StoreStatusLine(line);
      threw := CheckStatus();
    }

    method FlushHeader()
      modifies this
      ensures Now() == M.FlushHeader(old(Now()))
    {
      if headerAccum == [] {
        return;
      }
      var name, value := Scan(CString(headerAccum), ':');
      if value != [] {
        value := value[1..];
      }
      value := DropBlanksAndTabs(value);
      headers := headers[Lower(name) := value];
      headerAccum := [];
    }

    method ProcessHeaderLine(line: string)
      modifies this
      ensures Now() == M.ProcessHeaderLine(old(Now()), line)
    {
      if line == [] {
        FlushHeader();
        if status == 100 {
          state := M.StatusLine;
        } else {
          BeginBody();
        }
      } else if IsSpace(line[0]) {
        var p := DropSpaces(CString(line[1..]));
        headerAccum := headerAccum + " " + p;
      } else {
        FlushHeader();
        headerAccum := CString(line);
      }
    }

    method ProcessTrailerLine(line: string)
      modifies this
      ensures Now() == M.ProcessTrailerLine(old(Now()), line)
    {
      if line == [] {
        Finish();
      }
    }

    /** What BeginBody learns from the status line and the headers. */
    method Framing() returns (encoded: bool, size: int, closes: bool)
      ensures encoded == M.IsChunked(Now()) && size == M.BodyLength(Now())
      ensures closes == (M.CheckClose(Now()) || (!encoded && size == -1))
    {
      encoded := "transfer-encoding" in headers && SameIgnoringCase(headers["transfer-encoding"], "chunked");
      size := -1;
      closes := CheckClose();
      if "content-length" in headers && !encoded {
        size := Atoi(headers["content-length"]);
      }
      if status == 204 || status == 304 || 100 <= status < 200 || verb == "HEAD" {
        size := 0;
      }
      if !closes && !encoded && size == -1 {
        closes := true;
      }
    }

    method BeginBody()
      modifies `chunked, `chunkLeft, `length, `willClose, `log, `state
      ensures Now() == M.BeginBody(old(Now()))
    {
      var encoded, size, closes := Framing();
      chunkLeft := if encoded then -1 else chunkLeft;
      chunked, length, willClose := encoded, size, closes;
      log := log + [M.Begin];
      state := if encoded then M.ChunkLen else M.Body;
    }

    method CheckClose() returns (b: bool)
      ensures b == M.CheckClose(Now())
    {
      if version == 11 {
        return "connection" in headers && SameIgnoringCase(headers["connection"], "close");
      }
      b := "keep-alive" !in headers;
    }

    method ProcessChunkLenLine(line: string)
      modifies this
      ensures Now() == M.ProcessChunkLenLine(old(Now()), line)
    {
      chunkLeft := ToInt(StrToL(line, 16));
      if chunkLeft == 0 {
        state := M.Trailers;
        headerAccum := [];
      } else {
        state := M.Body;
      }
    }

    /** What happens at the end of a line. */
    method EndLine() returns (threw: bool)
      modifies this
      ensures var f := M.EndLine(old(Now())); if threw then f == M.Threw else f == M.Lives(Now())
      ensures threw ==> state == M.StatusLine == old(state) && bytesRead == old(bytesRead)
    {
      threw := false;
      match state {
        case StatusLine => threw := ProcessStatusLine(lineBuf);
        case Headers => ProcessHeaderLine(lineBuf);
        case Trailers => ProcessTrailerLine(lineBuf);
        case ChunkLen => ProcessChunkLenLine(lineBuf);
        case ChunkEnd => state := M.ChunkLen;
        case _ =>
      }
      if !threw {
        lineBuf := [];
      }
    }

    // ----- Bodies -----------------------------------------------------------------------------

    method ProcessDataChunked(data: string) returns (n: nat)
      requires chunked && chunkLeft >= 0 && state == M.Body
      modifies `log, `bytesRead, `chunkLeft, `state
      ensures n == (if |data| <= old(chunkLeft) then |data| else old(chunkLeft))
        && Now() == M.Eat(old(Now()), data[..n])
    {
      n := |data|;
      if n > chunkLeft {
        n := chunkLeft;
      }
      Call(M.Data(data[..n]));
      bytesRead, chunkLeft := bytesRead + n, chunkLeft - n;
      assert chunkLeft >= 0;
      if chunkLeft == 0 {
        state := M.ChunkEnd;
      }
    }

    method ProcessDataNonChunked(data: string) returns (n: nat)
      requires !chunked && (length == -1 || bytesRead <= length) && state == M.Body
      modifies `log, `bytesRead, `state
      ensures n == (if old(length) == -1 || |data| <= old(length - bytesRead) then |data| else old(length - bytesRead))
      ensures Now() == M.Eat(old(Now()), data[..n])
    {
      n := |data|;
      if length != -1 {
        var remaining := length - bytesRead;
        if n > remaining {
          n := remaining;
        }
      }
      Call(M.Data(data[..n]));
      bytesRead := bytesRead + n;
      if length != -1 && bytesRead == length {
        state := M.Complete;
        Call(M.Done);
      }
    }

    /** Some body data. */
    method ProcessData(data: string) returns (n: nat)
      requires state == M.Body && data != [] && !M.Negative(Now())
      modifies `log, `bytesRead, `chunkLeft, `state
      ensures Valid()
      ensures n <= |data| && M.Pump(old(Now()), data) == M.More(M.Pump(Now(), data[n..]), n)
      ensures n == 0 ==> state != M.Body
    {
      ghost var r := Now();
      if chunked {
        n := ProcessDataChunked(data);
      } else {
        n := ProcessDataNonChunked(data);
      }
      if n > 0 {
        M.PumpBlock(r, data, n);
      } else {
        assert data[..0] == [] && data[0..] == data;
      }
    }

    /** The line accumulation: whether an exception was thrown, and the bytes used. */
    method TakeLine(data: string) returns (n: nat, threw: bool)
      requires Valid() && state != M.Body && state != M.Complete && data != []
      modifies this
      ensures Valid()
      ensures 0 < n <= |data|
      ensures var p := M.Pump(old(Now()), data);
        if threw then p.fate == M.Threw else p == M.More(M.Pump(Now(), data[n..]), n)
    {
      n, threw := 0, false;
      while n < |data|
        invariant n <= |data| && state == old(state) && Valid()
        invariant M.Pump(old(Now()), data) == M.More(M.Pump(Now(), data[n..]), n)
      {
        var c := data[n];
        assert data[n..][0] == c && data[n..][1..] == data[n + 1..] && data[n..][..1] == [c];
        n := n + 1;
        if c == LF {
          ghost var r := Now();
          threw := EndLine();
          if !threw {
            M.EndLineKeeps(r);
          }
          return;
        } else if c != CR {
          lineBuf := lineBuf + [c];
        }
      }
    }

    /** One round of the outer loop. */
    method Advance(data: string) returns (n: nat, threw: bool)
      requires Valid() && state != M.Complete && data != [] && !M.Negative(Now())
      modifies this
      ensures Valid()
      ensures n <= |data| && (n == 0 ==> old(state) == M.Body && state != M.Body)
      ensures var p := M.Pump(old(Now()), data);
        if threw then p.fate == M.Threw else p == M.More(M.Pump(Now(), data[n..]), n)
    {
      if state == M.Body {
        n := ProcessData(data);
        threw := false;
      } else {
        n, threw := TakeLine(data);
      }
    }

    /** Response::pump, if no line gives a negative size to a body that goes on. */
    method Pump(data: string) returns (used: nat, threw: bool)
      requires Valid() && data != [] && !M.RunsAway(Now(), data)
      modifies this
      ensures Valid()
      ensures var p := M.Pump(old(Now()), data);
        if threw then p.fate == M.Threw else p == M.Pumped(M.Lives(Now()), used)
    {
      used, threw := 0, false;
      assert data[0..] == data;
      M.UndefinedWhen(Now(), data);
      while used < |data| && state != M.Complete
        invariant used <= |data| && Valid()
        invariant M.Pump(old(Now()), data) == M.More(M.Pump(Now(), data[used..]), used)
        decreases |data| - used, if state == M.Body then 1 else 0
      {
        var n;
        n, threw := Advance(data[used..]);
        if threw {
          return;
        }
        assert data[used..][n..] == data[used + n..];
        used := used + n;
      }
    }

    /** Response::notifyconnectionclosed */
    method NotifyConnectionClosed() returns (threw: bool)
      modifies this
      ensures var f := M.Closed(old(Now())); if threw then f == M.Threw else f == M.Lives(Now())
      ensures old(Valid()) ==> Valid()
    {
      threw := false;
      if state == M.Complete {
        return;
      }
      if state == M.Body && !chunked && length == -1 {
        Finish();
      } else {
        threw := true;
      }
    }
  }
}
