/** What responses written as section 3 and section 4.1 of RFC 7230 say are read as. */
module HttpExchange {
  import opened HttpText
  import opened HttpMachine

  const CRLF: string := [CR, LF]

  /** Pumping x makes r into r', and all of x is used. */
  predicate Reaches(r: Response, x: string, r': Response) {
    Pump(r, x) == Pumped(Lives(r'), |x|)
  }

  lemma {:induction false} ReachesThrough(r: Response, x: string, r1: Response, y: string, r2: Response)
    requires Reaches(r, x, r1) && Reaches(r1, y, r2)
    ensures Reaches(r, x + y, r2)
  {
    Segments(r, x, y);
  }

  predicate WantsLine(r: Response) {
    r.state != Body && r.state != Complete
  }

  predicate OneLine(t: string) {
    CR !in t && LF !in t
  }

  lemma {:induction false} TextRead(r: Response, t: string)
    requires WantsLine(r) && OneLine(t)
    ensures Reaches(r, t, r.(lineBuf := r.lineBuf + t))
    decreases t
  {
    if t == [] {
      assert r.lineBuf + t == r.lineBuf;
    } else {
      var r1 := r.(lineBuf := r.lineBuf + t[..1]);
      TextRead(r1, t[1..]);
      assert r1.lineBuf + t[1..] == r.lineBuf + t;
      assert t[0] in t;
    }
  }

  /** A line, ended by CRLF. */
  lemma {:induction false} LineRead(r: Response, t: string, r': Response)
    requires WantsLine(r) && OneLine(t) && r.lineBuf == [] && EndLine(r.(lineBuf := t)) == Lives(r')
    ensures Reaches(r, t + CRLF, r')
  {
    var r1 := r.(lineBuf := t);
    TextRead(r, t);
    assert r.lineBuf + t == t;
    assert Reaches(r1, CRLF, r') by {
      assert CRLF[1..] == [LF] && [LF][1..] == [];
      assert Pump(r1, [LF]) == More(Pump(r', []), 1);
    }
    ReachesThrough(r, t, r1, CRLF, r');
  }

  // ----- Chunked bodies -----------------------------------------------------------------------

  datatype Chunk = Chunk(bytes: string, extension: string)

  /** A chunk extension, if any, starts with a semicolon. */
  predicate GoodExtension(e: string) {
    OneLine(e) && Plain(e) && (e == [] || e[0] == ';')
  }

  predicate GoodChunk(c: Chunk) {
    0 < |c.bytes| < 0x8000_0000 && GoodExtension(c.extension)
  }

  predicate GoodTrailer(t: string) {
    OneLine(t) && t != []
  }

  function ChunkHead(n: nat, extension: string): string {
    Numeral(n, 16) + extension + CRLF
  }

  function WriteChunk(c: Chunk): string {
    ChunkHead(|c.bytes|, c.extension) + c.bytes + CRLF
  }

  function WriteChunks(cs: seq<Chunk>): string {
    if cs == [] then [] else WriteChunk(cs[0]) + WriteChunks(cs[1..])
  }

  function WriteLines(ts: seq<string>): string {
    if ts == [] then [] else (ts[0] + CRLF) + WriteLines(ts[1..])
  }

  function WriteChunked(cs: seq<Chunk>, extension: string, trailers: seq<string>): string {
    WriteChunks(cs) + (ChunkHead(0, extension) + (WriteLines(trailers) + CRLF))
  }

  function Bytes(cs: seq<Chunk>): string {
    if cs == [] then [] else cs[0].bytes + Bytes(cs[1..])
  }

  /** The callbacks for a body, however many pieces it comes in. */
  function Delivered(log: seq<Event>, bytes: string): seq<Event> {
    if bytes == [] then log else Emit(log, bytes)
  }

  predicate AtChunk(r: Response) {
    r.state == ChunkLen && r.chunked && r.lineBuf == []
  }

  lemma {:induction false} NumeralIsOneLine(n: nat, base: nat)
    requires IsBase(base)
    ensures OneLine(Numeral(n, base)) && Plain(Numeral(n, base))
  {
    NumeralDigits(n, base);
    var s := Numeral(n, base);
    forall c | c in s ensures Digit(c) < 36 {
      var i :| 0 <= i < |s| && s[i] == c;
    }
    assert Digit(CR) == 36 && Digit(LF) == 36 && Digit('\0') == 36;
  }

  lemma {:induction false} ChunkHeadRead(r: Response, n: nat, extension: string)
    requires AtChunk(r) && n < 0x8000_0000 && GoodExtension(extension)
    ensures Reaches(r, ChunkHead(n, extension),
      if n == 0 then r.(chunkLeft := 0, state := Trailers, accum := []) else r.(chunkLeft := n, state := Body))
  {
    var line := Numeral(n, 16) + extension;
    NumeralIsOneLine(n, 16);
    assert OneLine(line);
    ReadsBack(n, 16, extension);
    LineRead(r, line,
      if n == 0 then r.(chunkLeft := 0, state := Trailers, accum := []) else r.(chunkLeft := n, state := Body));
  }

  lemma {:induction false} ChunkBytesRead(r: Response, bytes: string)
    requires r.state == Body && r.chunked && r.chunkLeft == |bytes| > 0
    ensures Reaches(r, bytes, Eat(r, bytes)) && Eat(r, bytes).state == ChunkEnd && Eat(r, bytes).chunkLeft == 0
  {
    PumpBlock(r, bytes, |bytes|);
    assert bytes[..|bytes|] == bytes && bytes[|bytes|..] == [];
  }

  /** After a chunk has been read: its bytes are delivered. */
  function AfterChunk(r: Response, bytes: string): Response {
    r.(log := Emit(r.log, bytes), bytesRead := r.bytesRead + |bytes|, chunkLeft := 0)
  }

  lemma {:induction false} ChunkRead(r: Response, c: Chunk)
    requires AtChunk(r) && GoodChunk(c)
    ensures Reaches(r, WriteChunk(c), AfterChunk(r, c.bytes)) && AtChunk(AfterChunk(r, c.bytes))
  {
    var r1 := r.(chunkLeft := |c.bytes|, state := Body);
    var r2, r3 := Eat(r1, c.bytes), AfterChunk(r, c.bytes);
    ChunkHeadRead(r, |c.bytes|, c.extension);
    ChunkBytesRead(r1, c.bytes);
    assert [] + CRLF == CRLF;
    LineRead(r2, [], r3);
    ReachesThrough(r, ChunkHead(|c.bytes|, c.extension), r1, c.bytes, r2);
    ReachesThrough(r, ChunkHead(|c.bytes|, c.extension) + c.bytes, r2, CRLF, r3);
  }

  /** After several chunks: all their bytes are delivered, in order. */
  function AfterChunks(r: Response, cs: seq<Chunk>): Response
    decreases cs
  {
    if cs == [] then r else AfterChunks(AfterChunk(r, cs[0].bytes), cs[1..])
  }

  lemma {:induction false} ChunksRead(r: Response, cs: seq<Chunk>)
    requires AtChunk(r) && forall i {:trigger cs[i]} | 0 <= i < |cs| :: GoodChunk(cs[i])
    ensures Reaches(r, WriteChunks(cs), AfterChunks(r, cs)) && AtChunk(AfterChunks(r, cs))
    decreases cs
  {
    if cs != [] {
      var r1 := AfterChunk(r, cs[0].bytes);
      ChunkRead(r, cs[0]);
      ChunksRead(r1, cs[1..]);
      ReachesThrough(r, WriteChunk(cs[0]), r1, WriteChunks(cs[1..]), AfterChunks(r, cs));
    }
  }

  lemma {:induction false} AllDelivered(r: Response, cs: seq<Chunk>)
    requires forall i {:trigger cs[i]} | 0 <= i < |cs| :: GoodChunk(cs[i])
    ensures var s := AfterChunks(r, cs);
      && s.log == Delivered(r.log, Bytes(cs)) && s.bytesRead == r.bytesRead + |Bytes(cs)|
      && s == r.(log := s.log, bytesRead := s.bytesRead, chunkLeft := s.chunkLeft)
    decreases cs
  {
    if cs != [] {
      AllDelivered(AfterChunk(r, cs[0].bytes), cs[1..]);
      EmitTwice(r.log, cs[0].bytes, Bytes(cs[1..]));
      if Bytes(cs[1..]) == [] {
        assert cs[0].bytes + [] == cs[0].bytes;
      }
    }
  }

  lemma {:induction false} TrailersRead(r: Response, ts: seq<string>)
    requires r.state == Trailers && r.lineBuf == [] && forall i {:trigger ts[i]} | 0 <= i < |ts| :: GoodTrailer(ts[i])
    ensures Reaches(r, WriteLines(ts), r)
    decreases ts
  {
    if ts != [] {
      LineRead(r, ts[0], r);
      TrailersRead(r, ts[1..]);
      ReachesThrough(r, ts[0] + CRLF, r, WriteLines(ts[1..]), r);
    }
  }

  lemma {:induction false} TrailersEnd(r: Response, ts: seq<string>)
    requires r.state == Trailers && r.lineBuf == [] && forall i {:trigger ts[i]} | 0 <= i < |ts| :: GoodTrailer(ts[i])
    ensures Reaches(r, WriteLines(ts) + CRLF, Finish(r))
  {
    TrailersRead(r, ts);
    assert [] + CRLF == CRLF;
    LineRead(r, [], Finish(r));
    ReachesThrough(r, WriteLines(ts), r, CRLF, Finish(r));
  }

  /** The last chunk and the trailers. */
  lemma {:induction false} EndRead(r: Response, extension: string, ts: seq<string>)
    requires AtChunk(r) && GoodExtension(extension) && forall i {:trigger ts[i]} | 0 <= i < |ts| :: GoodTrailer(ts[i])
    ensures Reaches(r, ChunkHead(0, extension) + (WriteLines(ts) + CRLF),
      Finish(r.(chunkLeft := 0, state := Trailers, accum := [])))
  {
    var r1 := r.(chunkLeft := 0, state := Trailers, accum := []);
    ChunkHeadRead(r, 0, extension);
    TrailersEnd(r1, ts);
    ReachesThrough(r, ChunkHead(0, extension), r1, WriteLines(ts) + CRLF, Finish(r1));
  }

  /** Any body cut into any non-empty chunks, with any extensions and trailers, is delivered as it was,
      and then the response is complete and has used exactly these bytes. */
  lemma {:induction false} ChunkedBody(
      r: Response, cs: seq<Chunk>, extension: string, ts: seq<string>)
    returns (r': Response)
    requires AtChunk(r) && (forall i {:trigger cs[i]} | 0 <= i < |cs| :: GoodChunk(cs[i]))
    requires GoodExtension(extension) && forall i {:trigger ts[i]} | 0 <= i < |ts| :: GoodTrailer(ts[i])
    ensures Reaches(r, WriteChunked(cs, extension, ts), r') && r'.state == Complete
    ensures r'.log == Delivered(r.log, Bytes(cs)) + [Done] && r'.bytesRead == r.bytesRead + |Bytes(cs)|
    ensures r' == r.(state := Complete, log := r'.log, bytesRead := r'.bytesRead, chunkLeft := 0, accum := [])
  {
    var s := AfterChunks(r, cs);
    ChunksRead(r, cs);
    AllDelivered(r, cs);
    EndRead(s, extension, ts);
    r' := Finish(s.(chunkLeft := 0, state := Trailers, accum := []));
    ReachesThrough(r, WriteChunks(cs), s, ChunkHead(0, extension) + (WriteLines(ts) + CRLF), r');
  }

  // ----- Bodies of known length, and bodies up to the end -------------------------------------

  /** A positive length delivers exactly the next so many bytes. */
  lemma {:induction false} KnownLength(r: Response, body: string)
    requires r.state == Body && !r.chunked && r.bytesRead == 0 && r.length == |body| > 0
    ensures Reaches(r, body, Finish(r.(log := Emit(r.log, body), bytesRead := |body|)))
  {
    PumpBlock(r, body, |body|);
    assert body[..|body|] == body && body[|body|..] == [];
  }

  /** With length 0 the response is complete only when something else arrives, of which it uses nothing. */
  lemma {:induction false} ZeroLength(r: Response, d: string)
    requires r.state == Body && !r.chunked && r.bytesRead == 0 && r.length == 0
    ensures Pump(r, d) == if d == [] then Pumped(Lives(r), 0) else Pumped(Lives(Finish(r.(log := Emit(r.log, [])))), 0)
  {
  }

  /** Without a length everything that arrives is delivered. */
  lemma {:induction false} UntilClosed(r: Response, d: string)
    requires r.state == Body && Unlimited(r)
    ensures Reaches(r, d, r.(log := Delivered(r.log, d), bytesRead := r.bytesRead + |d|))
  {
    if d != [] {
      PumpBlock(r, d, |d|);
      assert d[..|d|] == d && d[|d|..] == [];
    }
  }

  // ----- Heads --------------------------------------------------------------------------------

  /** A header as it is sent: blanks are spaces and tabs between the colon and the value. */
  datatype Field = Field(name: string, blanks: string, value: string)

  predicate Blank(c: char) {
    c == ' ' || c == '\t'
  }

  predicate GoodField(f: Field) {
    && OneLine(f.name) && Plain(f.name) && ':' !in f.name && f.name != [] && !IsSpace(f.name[0])
    && (forall i {:trigger f.blanks[i]} | 0 <= i < |f.blanks| :: Blank(f.blanks[i]))
    && OneLine(f.value) && Plain(f.value) && (f.value == [] || !Blank(f.value[0]))
  }

  function WriteField(f: Field): string {
    f.name + ([':'] + (f.blanks + f.value))
  }

  function WriteFields(fs: seq<Field>): string {
    if fs == [] then [] else (WriteField(fs[0]) + CRLF) + WriteFields(fs[1..])
  }

  /** The headers as a map, names in lower case, the last of the same name winning. */
  function HeaderMap(headers: map<string, string>, fs: seq<Field>): map<string, string>
    decreases fs
  {
    if fs == [] then headers else HeaderMap(headers[Lower(fs[0].name) := fs[0].value], fs[1..])
  }

  lemma {:induction false} UntilStop(s: string, stop: char, rest: string)
    requires stop !in s
    ensures Until(s + [stop] + rest, stop) == (s, [stop] + rest)
    decreases s
  {
    var t := s + [stop] + rest;
    if s == [] {
      assert t == [stop] + rest;
    } else {
      assert t[0] == s[0] && s[0] in s && t[1..] == s[1..] + [stop] + rest;
      UntilStop(s[1..], stop, rest);
      assert [s[0]] + s[1..] == s;
    }
  }

  lemma {:induction false} SkipsBlanks(blanks: string, s: string)
    requires forall i {:trigger blanks[i]} | 0 <= i < |blanks| :: Blank(blanks[i])
    requires s == [] || !Blank(s[0])
    ensures SkipBlanksAndTabs(blanks + s) == s
    decreases blanks
  {
    if blanks == [] {
      assert blanks + s == s;
    } else {
      assert (blanks + s)[1..] == blanks[1..] + s;
      SkipsBlanks(blanks[1..], s);
    }
  }

  lemma {:induction false} FlushField(r: Response, f: Field)
    requires GoodField(f) && r.accum == WriteField(f)
    ensures FlushHeader(r) == r.(headers := r.headers[Lower(f.name) := f.value], accum := [])
  {
    var rest := f.blanks + f.value;
    assert Plain(r.accum) by {
      forall i | 0 <= i < |f.blanks| ensures f.blanks[i] != '\0' {
        assert Blank(f.blanks[i]);
      }
    }
    PlainCString(r.accum);
    assert r.accum == f.name + [':'] + rest;
    UntilStop(f.name, ':', rest);
    assert ([':'] + rest)[1..] == rest;
    SkipsBlanks(f.blanks, f.value);
  }

  predicate InHeaders(r: Response) {
    r.state == Headers && r.lineBuf == []
  }

  lemma {:induction false} FieldLine(f: Field)
    requires GoodField(f)
    ensures OneLine(WriteField(f)) && Plain(WriteField(f)) && WriteField(f) != [] && !IsSpace(WriteField(f)[0])
  {
    forall i | 0 <= i < |f.blanks| ensures f.blanks[i] != CR && f.blanks[i] != LF && f.blanks[i] != '\0' {
      assert Blank(f.blanks[i]);
    }
  }

  /** A header line puts away the one before it and is put away by the next. */
  lemma {:induction false} FieldRead(r: Response, f: Field)
    requires InHeaders(r) && GoodField(f)
    ensures Reaches(r, WriteField(f) + CRLF, FlushHeader(r).(accum := WriteField(f)))
  {
    FieldLine(f);
    PlainCString(WriteField(f));
    LineRead(r, WriteField(f), FlushHeader(r).(accum := WriteField(f)));
  }

  lemma {:induction false} FieldsRead(r: Response, fs: seq<Field>) returns (r': Response)
    requires InHeaders(r) && forall i {:trigger fs[i]} | 0 <= i < |fs| :: GoodField(fs[i])
    ensures Reaches(r, WriteFields(fs), r') && InHeaders(r')
    ensures FlushHeader(r') == FlushHeader(r).(headers := HeaderMap(FlushHeader(r).headers, fs))
    decreases fs
  {
    if fs == [] {
      return r;
    }
    var r1 := FlushHeader(r).(accum := WriteField(fs[0]));
    FieldRead(r, fs[0]);
    FlushField(r1, fs[0]);
    r' := FieldsRead(r1, fs[1..]);
    ReachesThrough(r, WriteField(fs[0]) + CRLF, r1, WriteFields(fs[1..]), r');
  }

  /** The empty line behind the headers. */
  lemma {:induction false} HeadersEnd(r: Response)
    requires InHeaders(r)
    ensures var r1 := FlushHeader(r);
      Reaches(r, CRLF, if r1.status == 100 then r1.(state := StatusLine) else BeginBody(r1))
  {
    var r1 := FlushHeader(r);
    assert [] + CRLF == CRLF;
    LineRead(r, [], if r1.status == 100 then r1.(state := StatusLine) else BeginBody(r1));
  }

  predicate GoodReason(reason: string) {
    OneLine(reason) && Plain(reason) && (reason == [] || reason[0] != ' ')
  }

  function WriteStatusLine(code: nat, reason: string): string {
    "HTTP/1.1" + ([' '] + (Numeral(code, 10) + ([' '] + reason)))
  }

  function WriteHead(code: nat, reason: string, fs: seq<Field>): string {
    (WriteStatusLine(code, reason) + CRLF) + (WriteFields(fs) + CRLF)
  }

  /** A word, a space, and the rest. */
  lemma {:induction false} WordSplit(word: string, rest: string)
    requires word != [] && ' ' !in word && (rest == [] || rest[0] != ' ')
    ensures var line := word + ([' '] + rest);
      Until(SkipBlanks(line), ' ') == (word, [' '] + rest) && SkipBlanks([' '] + rest) == rest
  {
    var line := word + ([' '] + rest);
    assert line[0] == word[0] && word[0] in word;
    assert SkipBlanks(line) == line;
    assert line == word + [' '] + rest;
    UntilStop(word, ' ', rest);
    assert ([' '] + rest)[1..] == rest;
    assert SkipBlanks(rest) == rest;
  }

  lemma {:induction false} StatusIsPlain(code: nat, reason: string)
    requires GoodReason(reason)
    ensures var line := WriteStatusLine(code, reason); OneLine(line) && CString(line) == line
    ensures ' ' !in Numeral(code, 10) && Numeral(code, 10)[0] != ' '
  {
    var digits := Numeral(code, 10);
    NumeralIsOneLine(code, 10);
    NumeralDigits(code, 10);
    forall i | 0 <= i < |digits| ensures digits[i] != ' ' {
      assert Digit(' ') == 36;
    }
    PlainCString(WriteStatusLine(code, reason));
  }

  lemma {:induction false} StatusWords(code: nat, reason: string)
    requires GoodReason(reason)
    ensures Words(WriteStatusLine(code, reason)) == ("HTTP/1.1", Numeral(code, 10), reason)
    ensures OneLine(WriteStatusLine(code, reason))
  {
    var digits := Numeral(code, 10);
    var rest := digits + ([' '] + reason);
    StatusIsPlain(code, reason);
    assert rest[0] == digits[0];
    WordSplit("HTTP/1.1", rest);
    WordSplit(digits, reason);
    assert SkipBlanks(rest) == rest;
  }

  /** A status line adds to what may be left of an earlier one with status 100. */
  function AfterStatus(r: Response, code: nat, reason: string): Response {
    r.(
      versionString := r.versionString + "HTTP/1.1", version := 11, status := code, reason := r.reason + reason,
      accum := [], state := Headers)
  }

  lemma {:induction false} StatusRead(r: Response, code: nat, reason: string)
    requires r.state == StatusLine && r.lineBuf == [] && 100 <= code <= 999 && GoodReason(reason)
    requires r.versionString == [] || "HTTP/1." <= r.versionString
    ensures Reaches(r, WriteStatusLine(code, reason) + CRLF, AfterStatus(r, code, reason))
  {
    StatusWords(code, reason);
    ReadsBack(code, 10, []);
    assert Numeral(code, 10) + [] == Numeral(code, 10);
    VersionIsKnown(r.versionString);
    LineRead(r, WriteStatusLine(code, reason), AfterStatus(r, code, reason));
  }

  lemma {:induction false} HeadersRead(r: Response, fs: seq<Field>)
    requires InHeaders(r) && r.accum == [] && forall i {:trigger fs[i]} | 0 <= i < |fs| :: GoodField(fs[i])
    ensures var r1 := r.(headers := HeaderMap(r.headers, fs));
      Reaches(r, WriteFields(fs) + CRLF, if r.status == 100 then r1.(state := StatusLine) else BeginBody(r1))
  {
    var r2 := FieldsRead(r, fs);
    HeadersEnd(r2);
    var r1 := FlushHeader(r2);
    ReachesThrough(r, WriteFields(fs), r2, CRLF, if r1.status == 100 then r1.(state := StatusLine) else BeginBody(r1));
  }

  /** The response as its head says. */
  function Headed(r: Response, code: nat, reason: string, fs: seq<Field>): Response {
    AfterStatus(r, code, reason).(headers := HeaderMap(r.headers, fs))
  }

  /** The head of a response. */
  lemma {:induction false} HeadRead(r: Response, code: nat, reason: string, fs: seq<Field>)
    requires r.state == StatusLine && r.lineBuf == [] && 100 <= code <= 999 && GoodReason(reason)
    requires r.versionString == [] || "HTTP/1." <= r.versionString
    requires forall i {:trigger fs[i]} | 0 <= i < |fs| :: GoodField(fs[i])
    ensures var r1 := Headed(r, code, reason, fs);
      Reaches(r, WriteHead(code, reason, fs), if code == 100 then r1.(state := StatusLine) else BeginBody(r1))
  {
    var r0, r1 := AfterStatus(r, code, reason), Headed(r, code, reason, fs);
    StatusRead(r, code, reason);
    HeadersRead(r0, fs);
    ReachesThrough(r, WriteStatusLine(code, reason) + CRLF, r0, WriteFields(fs) + CRLF,
      if code == 100 then r1.(state := StatusLine) else BeginBody(r1));
  }

  lemma {:induction false} VersionIsKnown(v: string)
    requires v == [] || "HTTP/1." <= v
    ensures "HTTP/1." <= v + "HTTP/1.1" && v + "HTTP/1.1" != "HTTP:/1.0"
  {
    var w := v + "HTTP/1.1";
    assert w[4] == '/';
  }

  // ----- Whole responses ----------------------------------------------------------------------

  predicate GoodHead(code: nat, reason: string, fs: seq<Field>) {
    && 100 < code <= 999 && GoodReason(reason)
    && (forall i {:trigger fs[i]} | 0 <= i < |fs| :: GoodField(fs[i]))
  }

  /** A response is read as it was sent: status, reason, headers and body, and is complete. */
  predicate ReadAs(r: Response, code: nat, reason: string, fs: seq<Field>, body: string) {
    && r.state == Complete && r.status == code && r.reason == reason && r.headers == HeaderMap(map[], fs)
    && r.log == Delivered([Begin], body) + [Done]
  }

  predicate NotChunked(h: map<string, string>) {
    !("transfer-encoding" in h && SameIgnoringCase(h["transfer-encoding"], "chunked"))
  }

  /** What is known behind a head whose headers say that the body has chunks. */
  lemma {:induction false} ChunksBegin(r: Response)
    requires IsChunked(r) && r.lineBuf == [] && r.log == []
    ensures var b := BeginBody(r);
      && AtChunk(b) && Closed(b) == Threw && b.log == [Begin]
      && b.status == r.status && b.reason == r.reason && b.headers == r.headers
  {
    assert r.log + [Begin] == [Begin];
  }

  lemma {:induction false} FreshlyHeaded(verb: string, code: nat, reason: string, fs: seq<Field>)
    ensures var r := Headed(Fresh(verb), code, reason, fs);
      && r.status == code && r.reason == reason && r.headers == HeaderMap(map[], fs)
      && r.log == [] && r.lineBuf == [] && (IsChunked(r) <==> !NotChunked(HeaderMap(map[], fs)))
  {
    assert [] + reason == reason;
  }

  /** A response in chunks, as sent in any pieces. */
  lemma {:induction false} ChunkedResponse(
      verb: string, code: nat, reason: string, fs: seq<Field>, cs: seq<Chunk>, extension: string, ts: seq<string>)
    returns (r: Response)
    requires GoodHead(code, reason, fs) && (forall i {:trigger cs[i]} | 0 <= i < |cs| :: GoodChunk(cs[i]))
    requires GoodExtension(extension) && forall i {:trigger ts[i]} | 0 <= i < |ts| :: GoodTrailer(ts[i])
    requires !NotChunked(HeaderMap(map[], fs))
    ensures Reaches(Fresh(verb), WriteHead(code, reason, fs) + WriteChunked(cs, extension, ts), r)
    ensures ReadAs(r, code, reason, fs, Bytes(cs))
  {
    var r1 := Headed(Fresh(verb), code, reason, fs);
    var r2 := BeginBody(r1);
    HeadRead(Fresh(verb), code, reason, fs);
    FreshlyHeaded(verb, code, reason, fs);
    ChunksBegin(r1);
    r := ChunkedBody(r2, cs, extension, ts);
    ReachesThrough(Fresh(verb), WriteHead(code, reason, fs), r2, WriteChunked(cs, extension, ts), r);
  }

  /** A response that has no body, whatever its headers say of a length. */
  predicate NoBody(verb: string, code: nat) {
    code == 204 || code == 304 || 100 <= code < 200 || verb == "HEAD"
  }

  /** A response whose body has n bytes, by its headers or because it has none. */
  predicate HasLength(verb: string, code: nat, fs: seq<Field>, n: nat) {
    var h := HeaderMap(map[], fs);
    && NotChunked(h)
    && if NoBody(verb, code) then n == 0
      else "content-length" in h && h["content-length"] == Numeral(n, 10) && n < 0x8000_0000
  }

  lemma {:induction false} LengthIsRead(r: Response, n: nat)
    requires !IsChunked(r) && !HasNoBody(r) && n < 0x8000_0000
    requires "content-length" in r.headers && r.headers["content-length"] == Numeral(n, 10)
    ensures BodyLength(r) == n
  {
    ReadsBack(n, 10, []);
    assert Numeral(n, 10) + [] == Numeral(n, 10);
  }

  lemma {:induction false} BodyBegins(verb: string, code: nat, reason: string, fs: seq<Field>, n: nat)
    requires GoodHead(code, reason, fs) && HasLength(verb, code, fs, n)
    ensures var r := BeginBody(Headed(Fresh(verb), code, reason, fs));
      && Reaches(Fresh(verb), WriteHead(code, reason, fs), r)
      && r.state == Body && !r.chunked && r.bytesRead == 0 && r.length == n && r.log == [Begin]
      && r.status == code && r.reason == reason && r.headers == HeaderMap(map[], fs)
  {
    HeadRead(Fresh(verb), code, reason, fs);
    if !NoBody(verb, code) {
      LengthIsRead(Headed(Fresh(verb), code, reason, fs), n);
    }
    assert [] + reason == reason && [] + [Begin] == [Begin];
  }

  /** A response with the length of its body is read as it was sent if the body is not empty.  If it is
      empty, by its length or because there is none to such a request or with such a status and the headers do
      not say that it has chunks, then all of the response has arrived but it is not complete: the end of the
      connection is an error then, and whatever arrives next completes it without being used. */
  lemma {:induction false} LengthResponse(
      verb: string, code: nat, reason: string, fs: seq<Field>, body: string)
    returns (r: Response)
    requires GoodHead(code, reason, fs) && HasLength(verb, code, fs, |body|)
    ensures Reaches(Fresh(verb), WriteHead(code, reason, fs) + body, r)
    ensures ReadAs(r, code, reason, fs, body) <==> body != []
    ensures Closed(r) != Threw <==> body != []
    ensures body == [] ==> forall d: string | d != [] ::
      Pump(r, d).used == 0 && Pump(r, d).fate.Lives? && Pump(r, d).fate.r.state == Complete
  {
    BodyBegins(verb, code, reason, fs, |body|);
    var r1 := BeginBody(Headed(Fresh(verb), code, reason, fs));
    if body == [] {
      r := r1;
      assert WriteHead(code, reason, fs) + body == WriteHead(code, reason, fs);
      forall d: string | d != []
        ensures Pump(r, d).used == 0 && Pump(r, d).fate.Lives? && Pump(r, d).fate.r.state == Complete
      {
        ZeroLength(r, d);
      }
    } else {
      KnownLength(r1, body);
      r := Finish(r1.(log := Emit(r1.log, body), bytesRead := |body|));
      ReachesThrough(Fresh(verb), WriteHead(code, reason, fs), r1, body, r);
    }
  }

  /** What the head of a response says. */
  predicate HeadReadAs(r: Response, code: nat, reason: string, fs: seq<Field>) {
    r.status == code && r.reason == reason && r.headers == HeaderMap(map[], fs)
  }

  /** A response up to the end of the connection is read as it was sent when that comes. */
  lemma {:induction false} ClosedResponse(
      verb: string, code: nat, reason: string, fs: seq<Field>, body: string)
    returns (r: Response)
    requires GoodHead(code, reason, fs) && !NoBody(verb, code) && NotChunked(HeaderMap(map[], fs))
    requires "content-length" !in HeaderMap(map[], fs)
    ensures Reaches(Fresh(verb), WriteHead(code, reason, fs) + body, r)
    ensures Closed(r).Lives? && ReadAs(Closed(r).r, code, reason, fs, body)
  {
    var r1 := BeginBody(Headed(Fresh(verb), code, reason, fs));
    HeadRead(Fresh(verb), code, reason, fs);
    UntilClosed(r1, body);
    r := r1.(log := Delivered(r1.log, body), bytesRead := r1.bytesRead + |body|);
    ReachesThrough(Fresh(verb), WriteHead(code, reason, fs), r1, body, r);
    assert [] + reason == reason && [] + [Begin] == [Begin];
  }

  /** A response without a body whose headers say that it has chunks, all of it arrived: the code waits for the
      size of a chunk, and the end of the connection is an error. */
  lemma {:induction false} ChunksAwaited(verb: string, code: nat, reason: string, fs: seq<Field>) returns (r: Response)
    requires GoodHead(code, reason, fs) && !NotChunked(HeaderMap(map[], fs))
    ensures Reaches(Fresh(verb), WriteHead(code, reason, fs), r)
    ensures AtChunk(r) && Closed(r) == Threw && HeadReadAs(r, code, reason, fs) && r.log == [Begin]
  {
    HeadRead(Fresh(verb), code, reason, fs);
    FreshlyHeaded(verb, code, reason, fs);
    ChunksBegin(Headed(Fresh(verb), code, reason, fs));
    r := BeginBody(Headed(Fresh(verb), code, reason, fs));
  }

  lemma {:induction false} FieldIsTrailer(f: Field)
    requires GoodField(f)
    ensures GoodTrailer(WriteField(f))
  {
    FieldLine(f);
  }

  function FieldLines(fs: seq<Field>): (ts: seq<string>)
    ensures |ts| == |fs| && forall i | 0 <= i < |fs| :: ts[i] == WriteField(fs[i])
  {
    if fs == [] then [] else [WriteField(fs[0])] + FieldLines(fs[1..])
  }

  lemma {:induction false} FieldsAreLines(fs: seq<Field>)
    ensures WriteFields(fs) == WriteLines(FieldLines(fs))
    decreases fs
  {
    if fs != [] {
      FieldsAreLines(fs[1..]);
      assert FieldLines(fs)[1..] == FieldLines(fs[1..]);
    }
  }

  /** A status line is no number: as the size of a chunk it is 0. */
  lemma {:induction false} StatusIsNoSize(code: nat, reason: string)
    requires GoodReason(reason)
    ensures StrToL(WriteStatusLine(code, reason), 16) == 0
  {
    var line := WriteStatusLine(code, reason);
    StatusIsPlain(code, reason);
    assert line[0] == 'H' && Digit('H') == 17;
    assert SkipSpaces(line) == line;
  }

  lemma {:induction false} StatusAsSize(r: Response, code: nat, reason: string)
    requires AtChunk(r) && GoodReason(reason)
    ensures Reaches(r, WriteStatusLine(code, reason) + CRLF, r.(chunkLeft := 0, state := Trailers, accum := []))
  {
    StatusIsPlain(code, reason);
    StatusIsNoSize(code, reason);
    LineRead(r, WriteStatusLine(code, reason), r.(chunkLeft := 0, state := Trailers, accum := []));
  }

  /** A head behind the last chunk ends the response. */
  lemma {:induction false} HeadAsTrailers(r: Response, code: nat, reason: string, fs: seq<Field>)
    requires AtChunk(r) && GoodReason(reason) && forall i {:trigger fs[i]} | 0 <= i < |fs| :: GoodField(fs[i])
    ensures Reaches(r, WriteHead(code, reason, fs), Finish(r.(chunkLeft := 0, state := Trailers, accum := [])))
  {
    var r1 := r.(chunkLeft := 0, state := Trailers, accum := []);
    StatusAsSize(r, code, reason);
    FieldsAreLines(fs);
    var ts := FieldLines(fs);
    forall i {:trigger ts[i]} | 0 <= i < |ts| ensures GoodTrailer(ts[i]) {
      FieldIsTrailer(fs[i]);
    }
    TrailersEnd(r1, ts);
    ReachesThrough(r, WriteStatusLine(code, reason) + CRLF, r1, WriteFields(fs) + CRLF, Finish(r1));
  }

  /** If the next response follows on the connection, its head is taken for the last chunk and its trailers: it
      completes the response without a body, and is lost for its own. */
  lemma {:induction false} NextHeadSwallowed(
      verb: string, code: nat, reason: string, fs: seq<Field>, code': nat, reason': string, fs': seq<Field>)
    returns (r: Response)
    requires GoodHead(code, reason, fs) && !NotChunked(HeaderMap(map[], fs))
    requires GoodReason(reason') && forall i {:trigger fs'[i]} | 0 <= i < |fs'| :: GoodField(fs'[i])
    ensures Reaches(Fresh(verb), WriteHead(code, reason, fs) + WriteHead(code', reason', fs'), r)
    ensures ReadAs(r, code, reason, fs, [])
  {
    var r0 := ChunksAwaited(verb, code, reason, fs);
    HeadAsTrailers(r0, code', reason', fs');
    r := Finish(r0.(chunkLeft := 0, state := Trailers, accum := []));
    ReachesThrough(Fresh(verb), WriteHead(code, reason, fs), r0, WriteHead(code', reason', fs'), r);
  }

  // ----- Every way to say where a body ends ---------------------------------------------------

  /** A body in chunks, with its length, or up to the end of the connection. */
  datatype Framing =
    | InChunks(chunks: seq<Chunk>, extension: string, trailers: seq<string>)
    | WithLength(body: string)
    | ToTheEnd(body: string)

  /** The headers say so. If there is no body, they may say what they like of its length. */
  predicate Framed(verb: string, code: nat, fs: seq<Field>, f: Framing) {
    var h := HeaderMap(map[], fs);
    match f
    case InChunks(cs, extension, ts) =>
      && !NotChunked(h) && (forall i {:trigger cs[i]} | 0 <= i < |cs| :: GoodChunk(cs[i]))
      && GoodExtension(extension) && forall i {:trigger ts[i]} | 0 <= i < |ts| :: GoodTrailer(ts[i])
    case WithLength(body) =>
      && NotChunked(h) && "content-length" in h
      && (!NoBody(verb, code) ==> h["content-length"] == Numeral(|body|, 10) && |body| < 0x8000_0000)
    case ToTheEnd(_) => NotChunked(h) && "content-length" !in h
  }

  /** What is sent behind the head. */
  function Wire(verb: string, code: nat, f: Framing): string {
    if NoBody(verb, code) then []
    else
      match f
      case InChunks(cs, extension, ts) => WriteChunked(cs, extension, ts)
      case WithLength(body) => body
      case ToTheEnd(body) => body
  }

  /** The body that is sent. */
  function Content(verb: string, code: nat, f: Framing): string {
    if NoBody(verb, code) then []
    else
      match f
      case InChunks(cs, _, _) => Bytes(cs)
      case WithLength(body) => body
      case ToTheEnd(body) => body
  }

  /** All has been sent: the connection ends if that is the end of the body. */
  function AllSent(verb: string, code: nat, f: Framing, r: Response): Fate {
    if f.ToTheEnd? && !NoBody(verb, code) then Closed(r) else Lives(r)
  }

  lemma {:induction false} NothingSent(verb: string, code: nat, reason: string, fs: seq<Field>) returns (r: Response)
    requires GoodHead(code, reason, fs) && NoBody(verb, code)
    ensures Reaches(Fresh(verb), WriteHead(code, reason, fs), r)
    ensures r.state != Complete && Closed(r) == Threw
  {
    if NotChunked(HeaderMap(map[], fs)) {
      BodyBegins(verb, code, reason, fs, 0);
      r := BeginBody(Headed(Fresh(verb), code, reason, fs));
    } else {
      r := ChunksAwaited(verb, code, reason, fs);
    }
  }

  /** A response is read as it was sent if and only if it may have a body and not one with length 0. In all other
      cases it is not complete when all of it has arrived, and the end of the connection is an error then. */
  lemma {:induction false} ReadAsSentWhen(
      verb: string, code: nat, reason: string, fs: seq<Field>, f: Framing)
    returns (r: Response)
    requires GoodHead(code, reason, fs) && Framed(verb, code, fs, f)
    ensures Reaches(Fresh(verb), WriteHead(code, reason, fs) + Wire(verb, code, f), r)
    ensures var end := AllSent(verb, code, f, r);
      && end.Lives?
      && (ReadAs(end.r, code, reason, fs, Content(verb, code, f)) <==>
          !NoBody(verb, code) && !(f.WithLength? && f.body == []))
      && (NoBody(verb, code) || (f.WithLength? && f.body == []) ==> r.state != Complete && Closed(r) == Threw)
  {
    if NoBody(verb, code) {
      r := NothingSent(verb, code, reason, fs);
      assert WriteHead(code, reason, fs) + [] == WriteHead(code, reason, fs);
    } else {
      r := BodySent(verb, code, reason, fs, f, Wire(verb, code, f), Content(verb, code, f));
    }
  }

  lemma {:induction false} BodySent(
      verb: string, code: nat, reason: string, fs: seq<Field>, f: Framing, wire: string, content: string)
    returns (r: Response)
    requires GoodHead(code, reason, fs) && Framed(verb, code, fs, f) && !NoBody(verb, code)
    requires wire == Wire(verb, code, f) && content == Content(verb, code, f)
    ensures Reaches(Fresh(verb), WriteHead(code, reason, fs) + wire, r)
    ensures var end := AllSent(verb, code, f, r);
      end.Lives? && (ReadAs(end.r, code, reason, fs, content) <==> !(f.WithLength? && f.body == []))
    ensures f.WithLength? && f.body == [] ==> r.state != Complete && Closed(r) == Threw
  {
    match f
    case InChunks(cs, extension, ts) => r := ChunkedResponse(verb, code, reason, fs, cs, extension, ts);
    case WithLength(body) => r := LengthResponse(verb, code, reason, fs, body);
    case ToTheEnd(body) => r := ClosedResponse(verb, code, reason, fs, body);
  }

  /** After a response with status 100 the next one on the same request is read, but the reason of the first
      stays in front of its own, and the headers of the first stay unless it has the same: it is read as it was
      sent exactly if the first has no reason and no header that the other has not. */
  lemma {:induction false} ReasonAccumulates(
      verb: string, reason: string, fs: seq<Field>, code: nat, reason': string, fs': seq<Field>)
    requires GoodReason(reason) && (forall i {:trigger fs[i]} | 0 <= i < |fs| :: GoodField(fs[i]))
    requires GoodHead(code, reason', fs')
    ensures var p := Pump(Fresh(verb), WriteHead(100, reason, fs) + WriteHead(code, reason', fs'));
      && p.fate.Lives? && p.fate.r.status == code && p.fate.r.reason == reason + reason'
      && p.fate.r.headers == HeaderMap(HeaderMap(map[], fs), fs')
      && (HeadReadAs(p.fate.r, code, reason', fs') <==>
          reason == [] && HeaderMap(HeaderMap(map[], fs), fs') == HeaderMap(map[], fs'))
  {
    var r0 := Fresh(verb);
    var r1 := Headed(r0, 100, reason, fs).(state := StatusLine);
    HeadRead(r0, 100, reason, fs);
    assert [] + reason == reason && [] + "HTTP/1.1" == "HTTP/1.1";
    HeadRead(r1, code, reason', fs');
    var r2 := BeginBody(Headed(r1, code, reason', fs'));
    ReachesThrough(r0, WriteHead(100, reason, fs), r1, WriteHead(code, reason', fs'), r2);
    assert r2.reason == reason + reason' && |r2.reason| == |reason| + |reason'|;
    assert [] + reason' == reason';
  }

  // ----- Sizes that are negative as an int ----------------------------------------------------

  lemma {:induction false} ReachesThen(r: Response, x: string, r1: Response, d: string)
    requires Reaches(r, x, r1)
    ensures Pump(r, x + d) == More(Pump(r1, d), |x|)
  {
    Segments(r, x, d);
  }

  /** One byte behind the line with the size of a chunk. */
  lemma {:induction false} ChunkSteppedBack(r: Response, line: string, b: char)
    requires AtChunk(r) && OneLine(line)
    ensures Pump(r, line + CRLF + [b]).fate.Undefined? <==> ToInt(StrToL(line, 16)) < 0
  {
    var r1 := ProcessChunkLenLine(r.(lineBuf := line), line).(lineBuf := []);
    LineRead(r, line, r1);
    ReachesThen(r, line + CRLF, r1, [b]);
    assert [b][..1] == [b] && [b][1..] == [];
  }

  /** A number is negative as an int if the remainder of it by 2^32 is. */
  lemma {:induction false} WrapsNegative(n: nat)
    ensures ToInt(n) < 0 <==> 0x8000_0000 <= n % 0x1_0000_0000
    ensures ToInt(n) < -1 <==> 0x8000_0000 <= n % 0x1_0000_0000 < 0xFFFF_FFFF
  {
    var q, m := n / 0x1_0000_0000, n % 0x1_0000_0000;
    var i := if m < 0x8000_0000 then m else m - 0x1_0000_0000;
    assert n + 0x8000_0000 == (if i == m then q else q + 1) * 0x1_0000_0000 + (i + 0x8000_0000);
  }

  /** The size of a chunk has no sign, and is negative to the code if it wraps. */
  lemma {:induction false} ChunkWraps(r: Response, n: nat, extension: string, b: char)
    requires AtChunk(r) && n <= LONG_MAX && GoodExtension(extension)
    ensures Pump(r, ChunkHead(n, extension) + [b]).fate.Undefined? <==> 0x8000_0000 <= n % 0x1_0000_0000
  {
    NumeralIsOneLine(n, 16);
    ReadsBack(n, 16, extension);
    WrapsNegative(n);
    ChunkSteppedBack(r, Numeral(n, 16) + extension, b);
  }

  lemma {:induction false} ChunkOfMinusFive(r: Response)
    requires AtChunk(r)
    ensures Pump(r, "-5" + CRLF + "x").fate == Undefined
  {
    assert "-5"[1..] == "5" && "5"[1..] == [];
    assert CString("-5") == "-5" && SkipSpaces("-5") == "-5";
    assert Digits("5", 16, 0) == 5;
    assert StrToL("-5", 16) == -5;
    ChunkSteppedBack(r, "-5", 'x');
  }

  lemma {:induction false} PlainBody(r: Response, d: string)
    requires r.state == Body && !r.chunked && !Negative(r)
    ensures !Pump(r, d).fate.Undefined?
    decreases |d|
  {
    if d != [] && (Unlimited(r) || Left(r) > 0) && Eat(r, d[..1]).state == Body {
      PlainBody(Eat(r, d[..1]), d[1..]);
    }
  }

  /** Something behind the head of a response whose headers give a length. */
  lemma {:induction false} LengthSteppedBack(verb: string, code: nat, reason: string, fs: seq<Field>, d: string)
    requires GoodHead(code, reason, fs) && !NoBody(verb, code) && NotChunked(HeaderMap(map[], fs)) && d != []
    requires "content-length" in HeaderMap(map[], fs)
    ensures Pump(Fresh(verb), WriteHead(code, reason, fs) + d).fate.Undefined? <==>
      Atoi(HeaderMap(map[], fs)["content-length"]) < -1
  {
    var r := BeginBody(Headed(Fresh(verb), code, reason, fs));
    HeadRead(Fresh(verb), code, reason, fs);
    ReachesThen(Fresh(verb), WriteHead(code, reason, fs), r, d);
    if r.length >= -1 {
      PlainBody(r, d);
    }
  }

  /** A length with no sign is negative to the code if it wraps, but not to -1. */
  lemma {:induction false} LengthWraps(verb: string, code: nat, reason: string, fs: seq<Field>, n: nat, d: string)
    requires GoodHead(code, reason, fs) && !NoBody(verb, code) && NotChunked(HeaderMap(map[], fs)) && d != []
    requires "content-length" in HeaderMap(map[], fs)
    requires n <= LONG_MAX && HeaderMap(map[], fs)["content-length"] == Numeral(n, 10)
    ensures Pump(Fresh(verb), WriteHead(code, reason, fs) + d).fate.Undefined? <==>
      0x8000_0000 <= n % 0x1_0000_0000 < 0xFFFF_FFFF
  {
    ReadsBack(n, 10, []);
    assert Numeral(n, 10) + [] == Numeral(n, 10);
    WrapsNegative(n);
    LengthSteppedBack(verb, code, reason, fs, d);
  }
}
