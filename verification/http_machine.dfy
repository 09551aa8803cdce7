/** The response parser of curl_http/happyhttp/happyhttp.cpp, byte by byte. */
module HttpMachine {
  import opened HttpText

  datatype State = StatusLine | Headers | Body | ChunkLen | ChunkEnd | Trailers | Complete

  /** A call of one of the callbacks; adjacent pieces of body data are one. */
  datatype Event = Begin | Data(bytes: string) | Done

  datatype Response = Response(
    state: State, verb: string, versionString: string, version: int, status: int, reason: string,
    headers: map<string, string>, bytesRead: nat, chunked: bool, chunkLeft: int, length: int, willClose: bool,
    lineBuf: string, accum: string, log: seq<Event>)

  /** The response goes on, or an exception is thrown, or the code would hand a negative number of bytes to the
      callback and step back by as many, before what it has been given. */
  datatype Fate = Lives(r: Response) | Threw | Undefined

  function Fresh(verb: string): Response {
    Response(StatusLine, verb, [], 0, 0, [], map[], 0, false, 0, -1, false, [], [], [])
  }

  function Emit(log: seq<Event>, bytes: string): seq<Event> {
    if log != [] && log[|log| - 1].Data? then log[..|log| - 1] + [Data(log[|log| - 1].bytes + bytes)]
    else log + [Data(bytes)]
  }

  // ----- Lines --------------------------------------------------------------------------------

  function Finish(r: Response): Response {
    r.(state := Complete, log := r.log + [Done])
  }

  /** The version, the status code and the reason in a status line. */
  function Words(line: string): (string, string, string) {
    var (version, afterVersion) := Until(SkipBlanks(CString(line)), ' ');
    var (status, afterStatus) := Until(SkipBlanks(afterVersion), ' ');
    (version, status, SkipBlanks(afterStatus))
  }

  /** 10 or 11, or 0 for a version that is not known. */
  function Version(text: string): int {
    if text == "HTTP:/1.0" then 10 else if "HTTP/1." <= text then 11 else 0
  }

  /** The checks of ProcessStatusLine. */
  function CheckStatus(r: Response): Fate {
    var version := Version(r.versionString);
    if r.status < 100 || r.status > 999 || version == 0 then Threw
    else Lives(r.(version := version, state := Headers, accum := []))
  }

  function ProcessStatusLine(r: Response, line: string): Fate {
    var (version, status, reason) := Words(line);
    CheckStatus(
      r.(versionString := r.versionString + version, reason := r.reason + reason, status := Atoi(status)))
  }

  function FlushHeader(r: Response): Response {
    if r.accum == [] then r
    else
      var (name, rest) := Until(CString(r.accum), ':');
      var value := SkipBlanksAndTabs(if rest != [] then rest[1..] else rest);
      r.(headers := r.headers[Lower(name) := value], accum := [])
  }

  function Header(r: Response, name: string, otherwise: string): string {
    if name in r.headers then r.headers[name] else otherwise
  }

  predicate CheckClose(r: Response) {
    if r.version == 11 then "connection" in r.headers && SameIgnoringCase(r.headers["connection"], "close")
    else "keep-alive" !in r.headers
  }

  predicate IsChunked(r: Response) {
    "transfer-encoding" in r.headers && SameIgnoringCase(r.headers["transfer-encoding"], "chunked")
  }

  predicate HasNoBody(r: Response) {
    r.status == 204 || r.status == 304 || 100 <= r.status < 200 || r.verb == "HEAD"
  }

  function BodyLength(r: Response): int {
    if HasNoBody(r) then 0
    else if "content-length" in r.headers && !IsChunked(r) then Atoi(r.headers["content-length"])
    else -1
  }

  function BeginBody(r: Response): Response {
    var chunked, length := IsChunked(r), BodyLength(r);
    r.(
      chunked := chunked, chunkLeft := if chunked then -1 else r.chunkLeft, length := length,
      willClose := CheckClose(r) || (!chunked && length == -1),
      log := r.log + [Begin], state := if chunked then ChunkLen else Body)
  }

  function ProcessHeaderLine(r: Response, line: string): Response {
    if line == [] then
      var r1 := FlushHeader(r);
      if r1.status == 100 then r1.(state := StatusLine) else BeginBody(r1)
    else if IsSpace(line[0]) then r.(accum := r.accum + " " + SkipSpaces(CString(line[1..])))
    else FlushHeader(r).(accum := CString(line))
  }

  function ProcessTrailerLine(r: Response, line: string): Response {
    if line == [] then Finish(r) else r
  }

  function ProcessChunkLenLine(r: Response, line: string): Response {
    var left := ToInt(StrToL(line, 16));
    if left == 0 then r.(chunkLeft := 0, state := Trailers, accum := []) else r.(chunkLeft := left, state := Body)
  }

  /** A whole line in a state that wants lines. */
  function ProcessLine(r: Response): Fate {
    match r.state
    case StatusLine => ProcessStatusLine(r, r.lineBuf)
    case Headers => Lives(ProcessHeaderLine(r, r.lineBuf))
    case Trailers => Lives(ProcessTrailerLine(r, r.lineBuf))
    case ChunkLen => Lives(ProcessChunkLenLine(r, r.lineBuf))
    case ChunkEnd => Lives(r.(state := ChunkLen))
    case _ => Lives(r)
  }

  function EndLine(r: Response): Fate {
    match ProcessLine(r)
    case Lives(r1) => Lives(r1.(lineBuf := []))
    case f => f
  }

  // ----- Bodies -------------------------------------------------------------------------------

  predicate Unlimited(r: Response) {
    !r.chunked && r.length == -1
  }

  /** The bytes left in this chunk, or in a body of known length. */
  function Left(r: Response): int {
    if r.chunked then r.chunkLeft else r.length - r.bytesRead
  }

  /** Body bytes are passed to the callback. */
  function Eat(r: Response, bytes: string): Response {
    var r1 := r.(log := Emit(r.log, bytes), bytesRead := r.bytesRead + |bytes|);
    if r.chunked then
      var left := r.chunkLeft - |bytes|;
      r1.(chunkLeft := left, state := if left == 0 then ChunkEnd else r.state)
    else if r.length != -1 && r1.bytesRead == r.length then Finish(r1)
    else r1
  }

  /** Response::notifyconnectionclosed */
  function Closed(r: Response): Fate {
    if r.state == Complete then Lives(r)
    else if r.state == Body && Unlimited(r) then Lives(Finish(r))
    else Threw
  }

  // ----- Byte by byte -------------------------------------------------------------------------

  datatype Pumped = Pumped(fate: Fate, used: nat)

  function More(p: Pumped, n: nat): Pumped {
    p.(used := p.used + n)
  }

  /** Response::pump, taking one byte at a time. */
  function Pump(r: Response, d: string): Pumped
    decreases |d|, if r.state == Body then 1 else 0
  {
    if d == [] || r.state == Complete then Pumped(Lives(r), 0)
    else if r.state == Body then
      if !Unlimited(r) && Left(r) < 0 then Pumped(Undefined, 0)
      else if !Unlimited(r) && Left(r) == 0 then Pump(Eat(r, []), d)
      else More(Pump(Eat(r, d[..1]), d[1..]), 1)
    else if d[0] == LF then
      match EndLine(r)
      case Lives(r1) => More(Pump(r1, d[1..]), 1)
      case f => Pumped(f, 1)
    else More(Pump(if d[0] == CR then r else r.(lineBuf := r.lineBuf + d[..1]), d[1..]), 1)
  }

  lemma {:induction false} PumpUses(r: Response, d: string)
    ensures var p := Pump(r, d);
      p.used <= |d| && (p.fate.Lives? ==> p.used == |d| || p.fate.r.state == Complete)
    decreases |d|, if r.state == Body then 1 else 0
  {
    if d != [] && r.state != Complete {
      if r.state == Body {
        if Unlimited(r) || Left(r) > 0 {
          PumpUses(Eat(r, d[..1]), d[1..]);
        } else if Left(r) == 0 {
          PumpUses(Eat(r, []), d);
        }
      } else if d[0] == LF {
        if EndLine(r).Lives? {
          PumpUses(EndLine(r).r, d[1..]);
        }
      } else {
        PumpUses(if d[0] == CR then r else r.(lineBuf := r.lineBuf + d[..1]), d[1..]);
      }
    }
  }

  /** Then the rest of the data, if the response is alive and has used up what it got. */
  function Then(p: Pumped, n: nat, d: string): Pumped {
    if p.fate.Lives? && p.used == n then More(Pump(p.fate.r, d), n) else p
  }

  /** Pumping two pieces one after the other is pumping them together. */
  lemma {:induction false} Segments(r: Response, x: string, y: string)
    ensures Pump(r, x + y) == Then(Pump(r, x), |x|, y)
    decreases |x|, if r.state == Body then 1 else 0
  {
    if x == [] {
      assert x + y == y;
    } else if r.state != Complete {
      assert (x + y)[0] == x[0] && (x + y)[..1] == x[..1] && (x + y)[1..] == x[1..] + y;
      if r.state == Body {
        if Unlimited(r) || Left(r) > 0 {
          Segments(Eat(r, x[..1]), x[1..], y);
        } else if Left(r) == 0 {
          Segments(Eat(r, []), x, y);
        }
      } else if x[0] == LF {
        if EndLine(r).Lives? {
          Segments(EndLine(r).r, x[1..], y);
        }
      } else {
        Segments(if x[0] == CR then r else r.(lineBuf := r.lineBuf + x[..1]), x[1..], y);
      }
    }
  }

  // ----- Many body bytes at once --------------------------------------------------------------

  lemma {:induction false} EmitTwice(log: seq<Event>, x: string, y: string)
    ensures Emit(Emit(log, x), y) == Emit(log, x + y)
  {
    if log != [] && log[|log| - 1].Data? {
      var l := log[|log| - 1].bytes;
      assert (l + x) + y == l + (x + y);
      assert Emit(log, x)[..|log| - 1] == log[..|log| - 1];
    } else {
      assert (log + [Data(x)])[..|log|] == log;
    }
  }

  lemma {:induction false} EatTwice(r: Response, x: string, y: string)
    requires r.state == Body && (Unlimited(r) || |x| < Left(r))
    ensures Eat(r, x).state == Body && Eat(Eat(r, x), y) == Eat(r, x + y)
    ensures Unlimited(Eat(r, x)) == Unlimited(r) && (!Unlimited(r) ==> Left(Eat(r, x)) == Left(r) - |x|)
  {
    EmitTwice(r.log, x, y);
    var r1 := Eat(r, x);
    assert r1.state == Body && r1.log == Emit(r.log, x) && r1.bytesRead == r.bytesRead + |x|;
    assert Eat(r1, y).log == Eat(r, x + y).log;
  }

  lemma {:induction false} PumpByte(r: Response, d: string)
    requires r.state == Body && d != [] && (Unlimited(r) || 0 < Left(r))
    ensures Pump(r, d) == More(Pump(Eat(r, d[..1]), d[1..]), 1)
  {
  }

  lemma {:induction false} MoreTwice(p: Pumped, n: nat, k: nat)
    ensures More(More(p, n), k) == More(p, n + k)
  {
  }

  /** Handing over a block is handing over its bytes one by one. */
  lemma {:induction false} PumpBlock(r: Response, d: string, n: nat)
    requires r.state == Body && 0 < n <= |d| && (Unlimited(r) || n <= Left(r))
    ensures Pump(r, d) == More(Pump(Eat(r, d[..n]), d[n..]), n)
    decreases n
  {
    PumpByte(r, d);
    if n > 1 {
      EatTwice(r, d[..1], d[1..n]);
      Slices(d, n);
      PumpBlock(Eat(r, d[..1]), d[1..], n - 1);
      MoreTwice(Pump(Eat(r, d[..n]), d[n..]), n - 1, 1);
    }
  }

  lemma {:induction false} Slices(d: string, n: nat)
    requires 0 < n <= |d|
    ensures d[..1] + d[1..n] == d[..n] && d[1..][..n - 1] == d[1..n] && d[1..][n - 1..] == d[n..]
  {
  }

  // ----- Stepping back --------------------------------------------------------------------------

  /** What holds of every response that has come about by pumping. */
  predicate WellFormed(r: Response) {
    && (r.state == StatusLine || r.state == Headers ==> r.bytesRead == 0)
    && (r.state == ChunkLen || r.state == ChunkEnd ==> r.chunked)
  }

  /** The body is said to be shorter than nothing. */
  predicate Negative(r: Response) {
    r.state == Body && !Unlimited(r) && Left(r) < 0
  }

  /** The line that ends here has the size of a chunk, or ends the headers of a body with a length, that as an
      int of 32 bits is negative; a length of -1 is the one that stands for no length. */
  predicate NegativeSize(r: Response) {
    || (r.state == ChunkLen && ToInt(StrToL(r.lineBuf, 16)) < 0)
    || (r.state == Headers && r.lineBuf == [] && FlushHeader(r).status != 100 && BodyLength(FlushHeader(r)) < -1)
  }

  /** Byte n of d ends such a line, and another byte follows. */
  predicate NegativeSizeAt(r: Response, d: string, n: nat) {
    && n + 1 < |d| && d[n] == LF
    && var p := Pump(r, d[..n]);
      p.fate.Lives? && p.used == n && NegativeSize(p.fate.r)
  }

  predicate RunsAway(r: Response, d: string) {
    (d != [] && Negative(r)) || exists n | 0 <= n < |d| :: NegativeSizeAt(r, d, n)
  }

  lemma {:induction false} EndLineKeeps(r: Response)
    requires WellFormed(r) && r.state != Body && r.state != Complete && EndLine(r).Lives?
    ensures WellFormed(EndLine(r).r)
    ensures Negative(EndLine(r).r) <==> NegativeSize(r)
  {
    if r.state == Headers && r.lineBuf == [] && FlushHeader(r).status != 100 {
      var f := FlushHeader(r);
      assert EndLine(r).r == BeginBody(f).(lineBuf := []);
      assert f.bytesRead == 0;
    }
  }

  /** Every response made by pumping is well-formed. */
  lemma {:induction false} PumpKeeps(r: Response, d: string)
    requires WellFormed(r)
    ensures Pump(r, d).fate.Lives? ==> WellFormed(Pump(r, d).fate.r)
    decreases |d|, if r.state == Body then 1 else 0
  {
    if d != [] && r.state != Complete {
      if r.state == Body {
        if Unlimited(r) || Left(r) > 0 {
          PumpKeeps(Eat(r, d[..1]), d[1..]);
        } else if Left(r) == 0 {
          PumpKeeps(Eat(r, []), d);
        }
      } else if d[0] == LF {
        if EndLine(r).Lives? {
          EndLineKeeps(r);
          PumpKeeps(EndLine(r).r, d[1..]);
        }
      } else {
        PumpKeeps(if d[0] == CR then r else r.(lineBuf := r.lineBuf + d[..1]), d[1..]);
      }
    }
  }

  /** One byte goes from r to r1, with no exception. */
  lemma {:induction false} LaterNegativeSize(r: Response, d: string, r1: Response)
    requires d != [] && Pump(r, d[..1]) == Pumped(Lives(r1), 1)
    ensures forall n: nat :: NegativeSizeAt(r, d, n + 1) <==> NegativeSizeAt(r1, d[1..], n)
  {
    forall n: nat | n + 2 < |d|
      ensures NegativeSizeAt(r, d, n + 1) <==> NegativeSizeAt(r1, d[1..], n)
    {
      assert d[..n + 1] == d[..1] + d[1..][..n];
      Segments(r, d[..1], d[1..][..n]);
    }
  }

  lemma {:induction false} RunsAwayLater(r: Response, d: string, r1: Response)
    requires d != [] && Pump(r, d[..1]) == Pumped(Lives(r1), 1)
    requires !Negative(r) && (|d| > 1 ==> (Negative(r1) <==> NegativeSizeAt(r, d, 0)))
    ensures RunsAway(r, d) <==> RunsAway(r1, d[1..])
  {
    LaterNegativeSize(r, d, r1);
    if n: nat :| NegativeSizeAt(r, d, n) {
      if n > 0 {
        assert NegativeSizeAt(r1, d[1..], n - 1);
      } else {
        assert d[1..] != [] && Negative(r1);
      }
    }
    if n: nat :| NegativeSizeAt(r1, d[1..], n) {
      assert NegativeSizeAt(r, d, n + 1);
    }
    if d[1..] != [] && Negative(r1) {
      assert NegativeSizeAt(r, d, 0);
    }
  }

  lemma {:induction false} NeverLater(r: Response, d: string)
    requires d != [] && (!Pump(r, d[..1]).fate.Lives? || r.state == Complete)
    ensures forall n: nat | n > 0 :: !NegativeSizeAt(r, d, n)
  {
    forall n: nat | 0 < n < |d|
      ensures !NegativeSizeAt(r, d, n)
    {
      assert d[..n] == d[..1] + d[1..n];
      Segments(r, d[..1], d[1..n]);
    }
  }

  lemma {:induction false} SameLater(r: Response, d: string, r1: Response)
    requires r.state == Body && !Unlimited(r) && Left(r) == 0 && r1 == Eat(r, [])
    ensures RunsAway(r, d) <==> RunsAway(r1, d)
  {
    forall n | 0 <= n < |d|
      ensures NegativeSizeAt(r, d, n) <==> NegativeSizeAt(r1, d, n)
    {
      if n == 0 {
        assert Pump(r, d[..0]) == Pumped(Lives(r), 0) && Pump(r1, d[..0]) == Pumped(Lives(r1), 0);
      } else {
        assert Pump(r, d[..n]) == Pump(r1, d[..n]);
      }
    }
  }

  /** Pumping steps back exactly if a line with a negative size has been read and another byte follows. */
  lemma {:induction false} UndefinedWhen(r: Response, d: string)
    requires WellFormed(r)
    ensures Pump(r, d).fate.Undefined? <==> RunsAway(r, d)
    decreases |d|, if r.state == Body then 2 else 1
  {
    if d == [] || Negative(r) {
    } else if r.state == Complete {
      NeverLater(r, d);
    } else if r.state == Body {
      if Unlimited(r) || Left(r) > 0 {
        assert d[..1][..1] == d[..1] && d[..1][1..] == [];
        StepUndefined(r, d, Eat(r, d[..1]));
      } else {
        var r1 := Eat(r, []);
        SameLater(r, d, r1);
        UndefinedWhen(r1, d);
      }
    } else if d[0] == LF {
      assert d[..1] == [LF] && [LF][1..] == [];
      if EndLine(r).Lives? {
        EndLineKeeps(r);
        StepUndefined(r, d, EndLine(r).r);
      } else {
        NeverLater(r, d);
      }
    } else {
      var r1 := if d[0] == CR then r else r.(lineBuf := r.lineBuf + d[..1]);
      assert d[..1][..1] == d[..1] && d[..1][1..] == [] && Pump(r1, []) == Pumped(Lives(r1), 0);
      StepUndefined(r, d, r1);
    }
  }

  lemma {:induction false} StepUndefined(r: Response, d: string, r1: Response)
    requires d != [] && r.state != Complete && WellFormed(r) && !Negative(r)
    requires Pump(r, d[..1]) == Pumped(Lives(r1), 1) && Pump(r, d) == More(Pump(r1, d[1..]), 1)
    requires |d| > 1 ==> (Negative(r1) <==> NegativeSizeAt(r, d, 0))
    ensures Pump(r, d).fate.Undefined? <==> RunsAway(r, d)
    decreases |d|, 0
  {
    PumpKeeps(r, d[..1]);
    RunsAwayLater(r, d, r1);
    UndefinedWhen(r1, d[1..]);
  }
}
