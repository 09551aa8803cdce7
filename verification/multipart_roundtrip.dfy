/** Well-formed multipart messages are read back, however they are cut into buffers. */
module MultipartRoundTrip {
  import opened Sequences
  import opened MultipartMachine
  import opened MultipartChunks
  import opened Verdicts

  datatype Header = Header(name: seq<Byte>, spaces: nat, value: seq<Byte>)

  datatype Part = Part(headers: seq<Header>, body: seq<Byte>)

  ghost predicate NoDelimiter(b: seq<Byte>, text: seq<Byte>) {
    forall i {:trigger DelimiterAt(b, text, i)} | 0 <= i <= |text| :: !DelimiterAt(b, text, i)
  }

  predicate DelimiterAt(b: seq<Byte>, text: seq<Byte>, i: nat)
    requires i <= |text|
  {
    CRLF + b <= text[i..]
  }

  predicate GoodHeader(h: Header) {
    && (forall i {:trigger h.name[i]} | 0 <= i < |h.name| :: NameByte(h.name[i]))
    && CR !in h.value && (h.value == [] || h.value[0] != SPACE)
  }

  predicate GoodBoundary(b: seq<Byte>) {
    b != [] && CR !in b
  }

  ghost predicate GoodPart(b: seq<Byte>, p: Part) {
    && (forall i {:trigger p.headers[i]} | 0 <= i < |p.headers| :: GoodHeader(p.headers[i]))
    && NoDelimiter(b, p.body)
  }

  ghost predicate GoodParts(b: seq<Byte>, parts: seq<Part>) {
    parts != [] && forall i {:trigger parts[i]} | 0 <= i < |parts| :: GoodPart(b, parts[i])
  }

  function Spaces(n: nat): seq<Byte> {
    if n == 0 then [] else [SPACE] + Spaces(n - 1)
  }

  function WriteHeader(h: Header): seq<Byte> {
    ((h.name + [COLON]) + Spaces(h.spaces)) + ((h.value + [CR]) + [LF])
  }

  function WriteHeaders(hs: seq<Header>): seq<Byte> {
    if hs == [] then [] else WriteHeader(hs[0]) + WriteHeaders(hs[1..])
  }

  function WritePart(b: seq<Byte>, p: Part): seq<Byte> {
    (WriteHeaders(p.headers) + ([CR] + [LF])) + ((p.body + [CR]) + ([LF] + b))
  }

  function WriteParts(b: seq<Byte>, parts: seq<Part>, epilogue: seq<Byte>): seq<Byte>
    requires parts != []
  {
    if |parts| == 1 then WritePart(b, parts[0]) + ([HYPHEN] + ([HYPHEN] + epilogue))
    else (WritePart(b, parts[0]) + ([CR] + [LF])) + WriteParts(b, parts[1..], epilogue)
  }

  function Write(b: seq<Byte>, parts: seq<Part>, epilogue: seq<Byte>): seq<Byte>
    requires parts != []
  {
    (b + ([CR] + [LF])) + WriteParts(b, parts, epilogue)
  }

  function HeaderEvents(hs: seq<Header>): seq<Event> {
    if hs == [] then [] else [Field(hs[0].name), Value(hs[0].value)] + HeaderEvents(hs[1..])
  }

  function PartEvents(p: Part): seq<Event> {
    [PartBegin] + HeaderEvents(p.headers) + [HeadersComplete, Data(p.body), PartEnd]
  }

  /** The callbacks a user expects. */
  function Events(parts: seq<Part>): seq<Event> {
    if parts == [] then [BodyEnd] else PartEvents(parts[0]) + Events(parts[1..])
  }

  // ----- Reading byte by byte, putting fragments together -------------------------------------

  datatype Progress = Progress(m: Machine, out: seq<Event>, accepted: nat, ok: bool, clean: bool)

  function One(b: seq<Byte>, p: Progress, c: Byte): Progress {
    if !p.ok then p
    else
      var clean := p.clean && !CutsShort(p.m, c);
      match Step(b, p.m, [], c, true)
      case Reject(m) => Progress(m, p.out, p.accepted, false, clean)
      case Go(m, _, events) => Progress(m, Coalesce(p.out, events), p.accepted + 1, true, clean)
  }

  type Reader = (Progress, Byte) -> Progress

  /** f reads one byte as the machine with boundary b does. */
  ghost function IsMachine(f: Reader, b: seq<Byte>): Verdict {
    if forall p, c {:trigger One(b, p, c)} :: f(p, c) == One(b, p, c) then Sound else Broken
  }

  function Reads(f: Reader, p: Progress, text: seq<Byte>): Progress
    decreases text
  {
    if text == [] then p else Reads(f, f(p, text[0]), text[1..])
  }

  lemma {:induction false} Stopped(f: Reader, b: seq<Byte>, p: Progress, text: seq<Byte>)
    requires IsMachine(f, b).Sound? && !p.ok
    ensures Reads(f, p, text) == p
    decreases text
  {
    if text != [] {
      assert One(b, p, text[0]) == p;
      Stopped(f, b, p, text[1..]);
    }
  }

  lemma {:induction false} ReadsIsBytewise(
      f: Reader, b: seq<Byte>, m: Machine, out: seq<Event>, n: nat, clean: bool, text: seq<Byte>)
    requires IsMachine(f, b).Sound?
    ensures var p, r := Reads(f, Progress(m, out, n, true, clean), text), Bytewise(b, m, text);
      && p.m == r.m && p.out == Coalesce(out, r.events) && p.accepted == n + r.consumed
      && (p.clean <==> clean && CutFree(b, m, text))
    decreases text
  {
    if text != [] {
      BytewiseStep(b, m, text);
      var w := Step(b, m, [], text[0], true);
      var p := One(b, Progress(m, out, n, true, clean), text[0]);
      if w.Go? {
        ReadsIsBytewise(f, b, p.m, p.out, n + 1, p.clean, text[1..]);
        CoalesceConcat(out, w.events, Bytewise(b, w.m, text[1..]).events);
      } else {
        Stopped(f, b, p, text[1..]);
      }
    }
  }

  /** Reading goes well up to a place: the machine is in m, and out has been called. */
  function Fine(m: Machine, out: seq<Event>, n: nat): Progress {
    Progress(m, out, n, true, true)
  }

  /** Whether reading x, from machine m with the callbacks out made and n bytes accepted, goes well and
      ends with m', out' and n'. */
  ghost function Leads(
    f: Reader, m: Machine, out: seq<Event>, n: nat, x: seq<Byte>, m': Machine, out': seq<Event>, n': nat): Verdict
  {
    if forall tail {:trigger Reads(f, Fine(m, out, n), x + tail)} ::
      Reads(f, Fine(m, out, n), x + tail) == Reads(f, Fine(m', out', n'), tail)
    then Sound else Broken
  }

  lemma {:induction false} LeadsThrough(
      f: Reader, m: Machine, out: seq<Event>, n: nat, x: seq<Byte>, m1: Machine, out1: seq<Event>, n1: nat,
      y: seq<Byte>, m2: Machine, out2: seq<Event>, n2: nat)
    requires Leads(f, m, out, n, x, m1, out1, n1).Sound? && Leads(f, m1, out1, n1, y, m2, out2, n2).Sound?
    ensures Leads(f, m, out, n, x + y, m2, out2, n2).Sound?
  {
    forall tail ensures Reads(f, Fine(m, out, n), (x + y) + tail) == Reads(f, Fine(m2, out2, n2), tail) {
      assert (x + y) + tail == x + (y + tail);
    }
  }

  lemma {:induction false} LeadsNowhere(f: Reader, m: Machine, out: seq<Event>, n: nat)
    ensures Leads(f, m, out, n, [], m, out, n).Sound?
  {
    forall tail: seq<Byte> ensures Reads(f, Fine(m, out, n), [] + tail) == Reads(f, Fine(m, out, n), tail) {
      assert [] + tail == tail;
    }
  }

  lemma {:induction false} LeadsTo(
      f: Reader, m: Machine, out: seq<Event>, n: nat, x: seq<Byte>, m': Machine, out': seq<Event>, n': nat)
    requires Leads(f, m, out, n, x, m', out', n').Sound?
    ensures Reads(f, Fine(m, out, n), x) == Fine(m', out', n')
  {
    assert x + [] == x;
    assert Reads(f, Fine(m, out, n), x + []) == Reads(f, Fine(m', out', n'), []);
  }

  // ----- Single bytes -------------------------------------------------------------------------

  /** A byte that is accepted. */
  lemma {:induction false} ByteRead(
      f: Reader, b: seq<Byte>, m: Machine, out: seq<Event>, n: nat, c: Byte, m': Machine, events: seq<Event>)
    requires IsMachine(f, b).Sound?
    requires Step(b, m, [], c, true) == Go(m', [], events) && !CutsShort(m, c)
    ensures Leads(f, m, out, n, [c], m', Coalesce(out, events), n + 1).Sound?
  {
    var p, q := Fine(m, out, n), Fine(m', Coalesce(out, events), n + 1);
    assert One(b, p, c) == q;
    forall tail ensures Reads(f, p, [c] + tail) == Reads(f, q, tail) {
      assert ([c] + tail)[1..] == tail;
    }
  }

  /** The next callback of this kind is not a fragment of the last one. */
  predicate Starts(out: seq<Event>, e: Event) {
    out == [] || !Continues(out[|out| - 1], e)
  }

  lemma {:induction false} MoreText(out: seq<Event>, e: Event, f: Event)
    requires Continues(e, f)
    ensures Coalesce(out + [e], [f]) == out + [Joined(e, f)]
  {
    CoalesceOne(out + [e], f);
    assert (out + [e])[..|out|] == out;
  }

  lemma {:induction false} FirstText(out: seq<Event>, f: Event)
    requires Starts(out, f)
    ensures Coalesce(out, [f]) == out + [f]
  {
    CoalesceOne(out, f);
  }

  lemma {:induction false} MoreRead(
      f: Reader, b: seq<Byte>, m: Machine, out: seq<Event>, e: Event, n: nat, c: Byte, m': Machine, e': Event)
    requires IsMachine(f, b).Sound?
    requires Step(b, m, [], c, true) == Go(m', [], [e']) && !CutsShort(m, c) && Continues(e, e')
    ensures Leads(f, m, out + [e], n, [c], m', out + [Joined(e, e')], n + 1).Sound?
  {
    MoreText(out, e, e');
    ByteRead(f, b, m, out + [e], n, c, m', [e']);
  }

  lemma {:induction false} FirstRead(
      f: Reader, b: seq<Byte>, m: Machine, out: seq<Event>, n: nat, c: Byte, m': Machine, e: Event)
    requires IsMachine(f, b).Sound?
    requires Step(b, m, [], c, true) == Go(m', [], [e]) && !CutsShort(m, c) && Starts(out, e)
    ensures Leads(f, m, out, n, [c], m', out + [e], n + 1).Sound?
  {
    FirstText(out, e);
    ByteRead(f, b, m, out, n, c, m', [e]);
  }

  /** The bytes that only change the state. */
  function Silently(s: State, c: Byte): State {
    match s
    case HeaderValueStart => if c == SPACE then HeaderValueStart else Start
    case HeaderValueAlmostDone => if c == LF then HeaderFieldStart else Start
    case HeaderFieldStart => if c == CR then HeadersAlmostDone else Start
    case HeadersAlmostDone => if c == LF then PartDataStart else Start
    case PartDataAlmostEnd =>
      if c == HYPHEN then PartDataFinalHyphen else if c == CR then PartDataEnd else Start
    case End => End
    case _ => Start
  }

  lemma {:induction false} SilentRead(
      f: Reader, b: seq<Byte>, s: State, k: nat, out: seq<Event>, n: nat, c: Byte, s': State)
    requires IsMachine(f, b).Sound?
    requires Silently(s, c) == s' && s' != Start
    ensures Leads(f, Machine(s, k), out, n, [c], Machine(s', k), out, n + 1).Sound?
  {
    ByteRead(f, b, Machine(s, k), out, n, c, Machine(s', k), []);
  }

  // ----- Headers ------------------------------------------------------------------------------

  /** The rest of a header name. */
  lemma {:induction false} NameRead(
      f: Reader, b: seq<Byte>, k: nat, out: seq<Event>, n: nat, t: seq<Byte>, name: seq<Byte>)
    requires IsMachine(f, b).Sound?
    requires forall i {:trigger name[i]} | 0 <= i < |name| :: NameByte(name[i])
    ensures Leads(f, Machine(HeaderField, k), out + [Field(t)], n, name + [COLON],
      Machine(HeaderValueStart, k), out + [Field(t + name)], n + |name| + 1).Sound?
    decreases name
  {
    if name == [] {
      assert name + [COLON] == [COLON] && t + [] == t;
      MoreRead(f, b, Machine(HeaderField, k), out, Field(t), n, COLON, Machine(HeaderValueStart, k), Field([]));
    } else {
      var c := name[0];
      assert [] + [c] == [c];
      MoreRead(f, b, Machine(HeaderField, k), out, Field(t), n, c, Machine(HeaderField, k), Field([c]));
      NameRead(f, b, k, out, n + 1, t + [c], name[1..]);
      assert (t + [c]) + name[1..] == t + name && [c] + (name[1..] + [COLON]) == name + [COLON];
      LeadsThrough(f, Machine(HeaderField, k), out + [Field(t)], n,
        [c], Machine(HeaderField, k), out + [Field(t + [c])], n + 1,
        name[1..] + [COLON], Machine(HeaderValueStart, k), out + [Field(t + name)], n + |name| + 1);
    }
  }

  lemma {:induction false} WholeNameRead(f: Reader, b: seq<Byte>, k: nat, out: seq<Event>, n: nat, name: seq<Byte>)
    requires IsMachine(f, b).Sound?
    requires Starts(out, Field([])) && forall i {:trigger name[i]} | 0 <= i < |name| :: NameByte(name[i])
    ensures Leads(f, Machine(HeaderFieldStart, k), out, n, name + [COLON],
      Machine(HeaderValueStart, k), out + [Field(name)], n + |name| + 1).Sound?
  {
    if name == [] {
      assert name + [COLON] == [COLON];
      FirstRead(f, b, Machine(HeaderFieldStart, k), out, n, COLON, Machine(HeaderValueStart, k), Field([]));
    } else {
      var c := name[0];
      assert [] + [c] == [c];
      FirstRead(f, b, Machine(HeaderFieldStart, k), out, n, c, Machine(HeaderField, k), Field([c]));
      NameRead(f, b, k, out, n + 1, [c], name[1..]);
      assert [c] + name[1..] == name && [c] + (name[1..] + [COLON]) == name + [COLON];
      LeadsThrough(f, Machine(HeaderFieldStart, k), out, n,
        [c], Machine(HeaderField, k), out + [Field([c])], n + 1,
        name[1..] + [COLON], Machine(HeaderValueStart, k), out + [Field(name)], n + |name| + 1);
    }
  }

  lemma {:induction false} SpacesRead(f: Reader, b: seq<Byte>, k: nat, out: seq<Event>, n: nat, spaces: nat)
    requires IsMachine(f, b).Sound?
    ensures |Spaces(spaces)| == spaces
    ensures Leads(f, Machine(HeaderValueStart, k), out, n, Spaces(spaces),
      Machine(HeaderValueStart, k), out, n + spaces).Sound?
    decreases spaces
  {
    if spaces == 0 {
      LeadsNowhere(f, Machine(HeaderValueStart, k), out, n);
    } else {
      SilentRead(f, b, HeaderValueStart, k, out, n, SPACE, HeaderValueStart);
      SpacesRead(f, b, k, out, n + 1, spaces - 1);
      LeadsThrough(f, Machine(HeaderValueStart, k), out, n, [SPACE], Machine(HeaderValueStart, k), out, n + 1,
        Spaces(spaces - 1), Machine(HeaderValueStart, k), out, n + spaces);
    }
  }

  lemma {:induction false} ValueRead(
      f: Reader, b: seq<Byte>, k: nat, out: seq<Event>, n: nat, t: seq<Byte>, value: seq<Byte>)
    requires IsMachine(f, b).Sound?
    requires CR !in value
    ensures Leads(f, Machine(HeaderValue, k), out + [Value(t)], n, value + [CR],
      Machine(HeaderValueAlmostDone, k), out + [Value(t + value)], n + |value| + 1).Sound?
    decreases value
  {
    if value == [] {
      assert value + [CR] == [CR] && t + [] == t;
      MoreRead(f, b, Machine(HeaderValue, k), out, Value(t), n, CR, Machine(HeaderValueAlmostDone, k), Value([]));
    } else {
      var c := value[0];
      assert [] + [c] == [c];
      MoreRead(f, b, Machine(HeaderValue, k), out, Value(t), n, c, Machine(HeaderValue, k), Value([c]));
      ValueRead(f, b, k, out, n + 1, t + [c], value[1..]);
      assert (t + [c]) + value[1..] == t + value && [c] + (value[1..] + [CR]) == value + [CR];
      LeadsThrough(f, Machine(HeaderValue, k), out + [Value(t)], n,
        [c], Machine(HeaderValue, k), out + [Value(t + [c])], n + 1,
        value[1..] + [CR], Machine(HeaderValueAlmostDone, k), out + [Value(t + value)], n + |value| + 1);
    }
  }

  lemma {:induction false} WholeValueRead(f: Reader, b: seq<Byte>, k: nat, out: seq<Event>, n: nat, value: seq<Byte>)
    requires IsMachine(f, b).Sound?
    requires Starts(out, Value([])) && CR !in value && (value == [] || value[0] != SPACE)
    ensures Leads(f, Machine(HeaderValueStart, k), out, n, value + [CR],
      Machine(HeaderValueAlmostDone, k), out + [Value(value)], n + |value| + 1).Sound?
  {
    if value == [] {
      assert value + [CR] == [CR];
      FirstRead(f, b, Machine(HeaderValueStart, k), out, n, CR, Machine(HeaderValueAlmostDone, k), Value([]));
    } else {
      var c := value[0];
      assert [] + [c] == [c];
      FirstRead(f, b, Machine(HeaderValueStart, k), out, n, c, Machine(HeaderValue, k), Value([c]));
      ValueRead(f, b, k, out, n + 1, [c], value[1..]);
      assert [c] + value[1..] == value && [c] + (value[1..] + [CR]) == value + [CR];
      LeadsThrough(f, Machine(HeaderValueStart, k), out, n,
        [c], Machine(HeaderValue, k), out + [Value([c])], n + 1,
        value[1..] + [CR], Machine(HeaderValueAlmostDone, k), out + [Value(value)], n + |value| + 1);
    }
  }

  /** The name of a header, the colon and the spaces behind it. */
  lemma {:induction false} HeaderNameRead(f: Reader, b: seq<Byte>, k: nat, out: seq<Event>, n: nat, h: Header)
    requires IsMachine(f, b).Sound?
    requires GoodHeader(h) && Starts(out, Field([]))
    ensures Leads(f, Machine(HeaderFieldStart, k), out, n, (h.name + [COLON]) + Spaces(h.spaces),
      Machine(HeaderValueStart, k), out + [Field(h.name)], n + |h.name| + 1 + h.spaces).Sound?
  {
    WholeNameRead(f, b, k, out, n, h.name);
    SpacesRead(f, b, k, out + [Field(h.name)], n + |h.name| + 1, h.spaces);
    LeadsThrough(f, Machine(HeaderFieldStart, k), out, n,
      h.name + [COLON], Machine(HeaderValueStart, k), out + [Field(h.name)], n + |h.name| + 1,
      Spaces(h.spaces), Machine(HeaderValueStart, k), out + [Field(h.name)], n + |h.name| + 1 + h.spaces);
  }

  /** The value of a header and the end of the line. */
  lemma {:induction false} HeaderValueRead(f: Reader, b: seq<Byte>, k: nat, out: seq<Event>, n: nat, value: seq<Byte>)
    requires IsMachine(f, b).Sound?
    requires Starts(out, Value([])) && CR !in value && (value == [] || value[0] != SPACE)
    ensures Leads(f, Machine(HeaderValueStart, k), out, n, (value + [CR]) + [LF],
      Machine(HeaderFieldStart, k), out + [Value(value)], n + |value| + 2).Sound?
  {
    WholeValueRead(f, b, k, out, n, value);
    SilentRead(f, b, HeaderValueAlmostDone, k, out + [Value(value)], n + |value| + 1, LF, HeaderFieldStart);
    LeadsThrough(f, Machine(HeaderValueStart, k), out, n,
      value + [CR], Machine(HeaderValueAlmostDone, k), out + [Value(value)], n + |value| + 1,
      [LF], Machine(HeaderFieldStart, k), out + [Value(value)], n + |value| + 2);
  }

  lemma {:induction false} HeaderRead(f: Reader, b: seq<Byte>, k: nat, out: seq<Event>, n: nat, h: Header)
    requires IsMachine(f, b).Sound?
    requires GoodHeader(h) && Starts(out, Field([]))
    ensures Leads(f, Machine(HeaderFieldStart, k), out, n, WriteHeader(h),
      Machine(HeaderFieldStart, k), out + [Field(h.name)] + [Value(h.value)], n + |WriteHeader(h)|).Sound?
  {
    var named, n1 := out + [Field(h.name)], n + |h.name| + 1 + h.spaces;
    HeaderNameRead(f, b, k, out, n, h);
    HeaderValueRead(f, b, k, named, n1, h.value);
    LeadsThrough(f, Machine(HeaderFieldStart, k), out, n,
      (h.name + [COLON]) + Spaces(h.spaces), Machine(HeaderValueStart, k), named, n1,
      (h.value + [CR]) + [LF], Machine(HeaderFieldStart, k), named + [Value(h.value)], n1 + |h.value| + 2);
    SpacesRead(f, b, k, named, n, h.spaces);
  }

  lemma {:induction false} HeadersRead(f: Reader, b: seq<Byte>, k: nat, out: seq<Event>, n: nat, hs: seq<Header>)
    requires IsMachine(f, b).Sound?
    requires (forall i {:trigger hs[i]} | 0 <= i < |hs| :: GoodHeader(hs[i])) && Starts(out, Field([]))
    ensures Leads(f, Machine(HeaderFieldStart, k), out, n, WriteHeaders(hs),
      Machine(HeaderFieldStart, k), out + HeaderEvents(hs), n + |WriteHeaders(hs)|).Sound?
    decreases hs
  {
    if hs == [] {
      assert out + [] == out;
      LeadsNowhere(f, Machine(HeaderFieldStart, k), out, n);
    } else {
      var out1, n1 := out + [Field(hs[0].name)] + [Value(hs[0].value)], n + |WriteHeader(hs[0])|;
      HeaderRead(f, b, k, out, n, hs[0]);
      HeadersRead(f, b, k, out1, n1, hs[1..]);
      assert out1 + HeaderEvents(hs[1..]) == out + HeaderEvents(hs);
      LeadsThrough(f, Machine(HeaderFieldStart, k), out, n,
        WriteHeader(hs[0]), Machine(HeaderFieldStart, k), out1, n1,
        WriteHeaders(hs[1..]), Machine(HeaderFieldStart, k), out + HeaderEvents(hs), n + |WriteHeaders(hs)|);
    }
  }

  // ----- Bodies -------------------------------------------------------------------------------

  predicate InBody(b: seq<Byte>, m: Machine) {
    m.state == PartData || m.state == PartDataAlmostBoundary || (m.state == PartDataBoundary && m.index < |b|)
  }

  /** What is in `lookbehind`: bytes read but not yet known to be data. */
  function Held(b: seq<Byte>, m: Machine): seq<Byte> {
    if m.state == PartDataAlmostBoundary then [CR]
    else if m.state == PartDataBoundary && m.index <= |b| then CRLF + b[..m.index]
    else []
  }

  /** The data d has been emitted after base. */
  predicate Emitted(base: seq<Event>, d: seq<Byte>, out: seq<Event>) {
    out == base + [Data(d)] || (d == [] && out == base)
  }

  lemma {:induction false} EmitMore(base: seq<Event>, d: seq<Byte>, out: seq<Event>, t: seq<Byte>)
    requires Emitted(base, d, out) && Starts(base, Data([]))
    ensures Coalesce(out, [Data(t)]) == base + [Data(d + t)]
  {
    if out == base + [Data(d)] {
      MoreText(base, Data(d), Data(t));
    } else {
      FirstText(base, Data(t));
      assert d + t == t;
    }
  }

  lemma {:induction false} EmitHeld(base: seq<Event>, d: seq<Byte>, out: seq<Event>, held: seq<Byte>, t: seq<Byte>)
    requires Emitted(base, d, out) && Starts(base, Data([]))
    ensures Coalesce(out, [Data(held)] + [Data(t)]) == base + [Data(d + (held + t))]
  {
    CoalesceConcat(out, [Data(held)], [Data(t)]);
    EmitMore(base, d, out, held);
    EmitMore(base, d + held, base + [Data(d + held)], t);
    assert (d + held) + t == d + (held + t);
  }

  /** The byte that completes a delimiter. */
  predicate Completes(b: seq<Byte>, m: Machine, c: Byte) {
    m.state == PartDataBoundary && m.index + 1 == |b| && c == b[m.index]
  }

  /** A byte that may belong to a delimiter. */
  predicate Holds(b: seq<Byte>, m: Machine, c: Byte) {
    || (m.state == PartDataAlmostBoundary && c == LF)
    || (m.state == PartDataBoundary && m.index + 1 < |b| && c == b[m.index])
  }

  function AfterByte(b: seq<Byte>, m: Machine, c: Byte): Machine {
    if c == CR then Machine(PartDataAlmostBoundary, m.index)
    else if !Holds(b, m, c) then Machine(PartData, m.index)
    else if m.state == PartDataAlmostBoundary then Machine(PartDataBoundary, 0)
    else Machine(PartDataBoundary, m.index + 1)
  }

  /** The part of a byte that is data at once. */
  function Plain(c: Byte): seq<Byte> {
    if c == CR then [] else [c]
  }

  function Flushed(b: seq<Byte>, m: Machine, c: Byte): seq<Byte> {
    if Holds(b, m, c) then [] else Held(b, m) + Plain(c)
  }

  /** The data emitted and the bytes held back are the bytes read. */
  lemma {:induction false} NothingLost(b: seq<Byte>, m: Machine, c: Byte)
    requires InBody(b, m) && GoodBoundary(b) && !Completes(b, m, c)
    ensures InBody(b, AfterByte(b, m, c))
    ensures Flushed(b, m, c) + Held(b, AfterByte(b, m, c)) == Held(b, m) + [c]
  {
    if Holds(b, m, c) {
      if m.state == PartDataBoundary {
        assert b[..m.index + 1] == b[..m.index] + [c] && c in b;
      } else {
        assert b[..0] == [];
      }
    }
  }

  /** The callbacks for one byte of a body. */
  function ByteEvents(b: seq<Byte>, m: Machine, c: Byte): seq<Event> {
    if m.state == PartData then [Data(Plain(c))]
    else if Holds(b, m, c) then []
    else [Data(Held(b, m))] + [Data(Plain(c))]
  }

  lemma {:induction false} ByteOutcome(b: seq<Byte>, m: Machine, c: Byte)
    requires InBody(b, m) && GoodBoundary(b) && !Completes(b, m, c)
    ensures Step(b, m, [], c, true) == Go(AfterByte(b, m, c), [], ByteEvents(b, m, c))
  {
    assert [] + [c] == [c];
    if m.state == PartData {
      assert [] + [Data(Plain(c))] == [Data(Plain(c))];
    }
    if Holds(b, m, c) && m.state == PartDataBoundary {
      assert c in b;
    }
  }

  lemma {:induction false} EmitByte(b: seq<Byte>, base: seq<Event>, d: seq<Byte>, m: Machine, out: seq<Event>, c: Byte)
    requires InBody(b, m) && Emitted(base, d, out) && Starts(base, Data([]))
    ensures Emitted(base, d + Flushed(b, m, c), Coalesce(out, ByteEvents(b, m, c)))
    ensures !Holds(b, m, c) ==> Coalesce(out, ByteEvents(b, m, c)) == base + [Data(d + Flushed(b, m, c))]
  {
    if m.state == PartData {
      EmitMore(base, d, out, Plain(c));
      assert [] + Plain(c) == Plain(c);
    } else if Holds(b, m, c) {
      assert d + [] == d;
    } else {
      EmitHeld(base, d, out, Held(b, m), Plain(c));
    }
  }

  lemma {:induction false} BodyByteRead(
      f: Reader, b: seq<Byte>, base: seq<Event>, d: seq<Byte>, m: Machine, out: seq<Event>, n: nat, c: Byte)
    returns (out': seq<Event>)
    requires IsMachine(f, b).Sound?
    requires InBody(b, m) && GoodBoundary(b) && !Completes(b, m, c)
    requires Emitted(base, d, out) && Starts(base, Data([]))
    ensures Emitted(base, d + Flushed(b, m, c), out')
    ensures !Holds(b, m, c) ==> out' == base + [Data(d + Flushed(b, m, c))]
    ensures Leads(f, m, out, n, [c], AfterByte(b, m, c), out', n + 1).Sound?
  {
    out' := Coalesce(out, ByteEvents(b, m, c));
    ByteOutcome(b, m, c);
    ByteRead(f, b, m, out, n, c, AfterByte(b, m, c), ByteEvents(b, m, c));
    EmitByte(b, base, d, m, out, c);
  }

  /** Reading on in a body without a delimiter: the data emitted and the bytes held back are all the
      bytes of the body read. */
  lemma {:induction false} BodyRead(
      f: Reader, b: seq<Byte>, base: seq<Event>, d: seq<Byte>, m: Machine, out: seq<Event>, n: nat, x: seq<Byte>)
    returns (m': Machine, out': seq<Event>, d': seq<Byte>)
    requires IsMachine(f, b).Sound?
    requires InBody(b, m) && GoodBoundary(b) && NoDelimiter(b, Held(b, m) + x)
    requires Emitted(base, d, out) && Starts(base, Data([]))
    ensures InBody(b, m') && Emitted(base, d', out') && d' + Held(b, m') == d + Held(b, m) + x
    ensures Leads(f, m, out, n, x, m', out', n + |x|).Sound?
    decreases x
  {
    if x == [] {
      LeadsNowhere(f, m, out, n);
      assert d + Held(b, m) + [] == d + Held(b, m);
      return m, out, d;
    }
    var c, tail := x[0], x[1..];
    NotComplete(b, m, x);
    var next := BodyByteRead(f, b, base, d, m, out, n, c);
    var m1, flushed := AfterByte(b, m, c), Flushed(b, m, c);
    NothingLost(b, m, c);
    Splice(flushed, Held(b, m1), Held(b, m), x, d);
    NoDelimiterBehind(b, flushed, Held(b, m1) + tail);
    m', out', d' := BodyRead(f, b, base, d + flushed, m1, next, n + 1, tail);
    LeadsThrough(f, m, out, n, [c], m1, next, n + 1, tail, m', out', n + |x|);
  }

  lemma {:induction false} Splice(f: seq<Byte>, held': seq<Byte>, held: seq<Byte>, x: seq<Byte>, d: seq<Byte>)
    requires x != [] && f + held' == held + [x[0]]
    ensures f + (held' + x[1..]) == held + x && (d + f) + held' + x[1..] == d + held + x
    ensures [x[0]] + x[1..] == x
  {
    assert f + (held' + x[1..]) == (f + held') + x[1..] == held + x;
    assert (d + f) + held' + x[1..] == d + (f + (held' + x[1..]));
    assert d + held + x == d + (held + x);
  }

  lemma {:induction false} NotComplete(b: seq<Byte>, m: Machine, x: seq<Byte>)
    requires x != [] && NoDelimiter(b, Held(b, m) + x)
    ensures !Completes(b, m, x[0])
  {
    if Completes(b, m, x[0]) {
      DelimiterAhead(b, m, x);
    }
  }

  lemma {:induction false} DelimiterAhead(b: seq<Byte>, m: Machine, x: seq<Byte>)
    requires x != [] && Completes(b, m, x[0])
    ensures DelimiterAt(b, Held(b, m) + x, 0)
  {
    var text := Held(b, m) + x;
    assert b == b[..m.index] + [x[0]];
    assert CRLF + b == Held(b, m) + [x[0]] <= text;
    assert text[0..] == text;
  }

  lemma {:induction false} NoDelimiterBehind(b: seq<Byte>, x: seq<Byte>, y: seq<Byte>)
    requires NoDelimiter(b, x + y)
    ensures NoDelimiter(b, y)
  {
    forall i | 0 <= i <= |y| ensures !DelimiterAt(b, y, i) {
      assert (x + y)[|x| + i..] == y[i..];
      assert !DelimiterAt(b, x + y, |x| + i);
    }
  }

  /** A CR shows that all bytes held back are data, because there is none in the boundary. */
  lemma {:induction false} CarriageReturn(b: seq<Byte>, m: Machine)
    requires GoodBoundary(b)
    ensures !Holds(b, m, CR) && !Completes(b, m, CR) && Flushed(b, m, CR) == Held(b, m)
    ensures AfterByte(b, m, CR).state == PartDataAlmostBoundary
  {
    if m.state == PartDataBoundary && m.index < |b| {
      assert b[m.index] in b;
    }
    assert Held(b, m) + [] == Held(b, m);
  }

  /** A body up to the CR of the delimiter, the headers being complete. */
  lemma {:induction false} BodyToDelimiterRead(
      f: Reader, b: seq<Byte>, k: nat, base: seq<Event>, n: nat, body: seq<Byte>)
    returns (m: Machine)
    requires IsMachine(f, b).Sound?
    requires GoodBoundary(b) && NoDelimiter(b, body) && Starts(base, Data([]))
    ensures m.state == PartDataAlmostBoundary
    ensures Leads(f, Machine(PartData, k), base, n, body + [CR], m, base + [Data(body)], n + |body| + 1).Sound?
  {
    var start := Machine(PartData, k);
    assert Held(b, start) + body == body && [] + Held(b, start) + body == body;
    var m1, out1, d1 := BodyRead(f, b, base, [], start, base, n, body);
    CarriageReturn(b, m1);
    var out2 := BodyByteRead(f, b, base, d1, m1, out1, n + |body|, CR);
    m := AfterByte(b, m1, CR);
    LeadsThrough(f, start, base, n, body, m1, out1, n + |body|, [CR], m, out2, n + |body| + 1);
  }

  // ----- Parts --------------------------------------------------------------------------------

  lemma {:induction false} SameFirst(
      f: Reader, b: seq<Byte>, m: Machine, out: seq<Event>, m0: Machine, out0: seq<Event>, n: nat, x: seq<Byte>,
      m': Machine, out': seq<Event>, n': nat)
    requires IsMachine(f, b).Sound?
    requires x != [] && One(b, Fine(m, out, n), x[0]) == One(b, Fine(m0, out0, n), x[0])
    requires Leads(f, m0, out0, n, x, m', out', n').Sound?
    ensures Leads(f, m, out, n, x, m', out', n').Sound?
  {
    forall tail ensures Reads(f, Fine(m, out, n), x + tail) == Reads(f, Fine(m', out', n'), tail) {
      assert Reads(f, Fine(m0, out0, n), x + tail) == Reads(f, Fine(m', out', n'), tail);
      assert (x + tail)[0] == x[0];
    }
  }

  lemma {:induction false} StartOutcome(b: seq<Byte>, k: nat, c: Byte)
    ensures var m := AfterByte(b, Machine(PartData, k), c);
      && Step(b, Machine(PartDataStart, k), [], c, true) == Go(m, [], [HeadersComplete] + [Data(Plain(c))])
      && Step(b, Machine(PartData, k), [], c, true) == Go(m, [], [Data(Plain(c))])
  {
    assert [] + [c] == [c];
    assert [] + [Data(Plain(c))] == [Data(Plain(c))];
  }

  lemma {:induction false} StartIsData(b: seq<Byte>, k: nat, out: seq<Event>, n: nat, c: Byte)
    ensures One(b, Fine(Machine(PartDataStart, k), out, n), c) ==
      One(b, Fine(Machine(PartData, k), out + [HeadersComplete], n), c)
  {
    StartOutcome(b, k, c);
    CoalesceConcat(out, [HeadersComplete], [Data(Plain(c))]);
    CoalesceOne(out, HeadersComplete);
  }

  /** A body up to the CR of the delimiter. */
  lemma {:induction false} WholeBodyRead(
      f: Reader, b: seq<Byte>, k: nat, out: seq<Event>, n: nat, body: seq<Byte>)
    returns (m: Machine)
    requires IsMachine(f, b).Sound?
    requires GoodBoundary(b) && NoDelimiter(b, body)
    ensures m.state == PartDataAlmostBoundary
    ensures Leads(f, Machine(PartDataStart, k), out, n, body + [CR],
      m, out + [HeadersComplete] + [Data(body)], n + |body| + 1).Sound?
  {
    m := BodyToDelimiterRead(f, b, k, out + [HeadersComplete], n, body);
    StartIsData(b, k, out, n, (body + [CR])[0]);
    SameFirst(f, b, Machine(PartDataStart, k), out, Machine(PartData, k), out + [HeadersComplete], n, body + [CR],
      m, out + [HeadersComplete] + [Data(body)], n + |body| + 1);
  }

  /** The boundary in a delimiter, from index i on. */
  lemma {:induction false} DelimiterRead(f: Reader, b: seq<Byte>, i: nat, out: seq<Event>, n: nat)
    requires IsMachine(f, b).Sound?
    requires i < |b|
    ensures Leads(f, Machine(PartDataBoundary, i), out, n, b[i..],
      Machine(PartDataAlmostEnd, |b|), out + [PartEnd], n + |b| - i).Sound?
    decreases |b| - i
  {
    if i + 1 == |b| {
      assert b[i..] == [b[i]];
      FirstRead(f, b, Machine(PartDataBoundary, i), out, n, b[i], Machine(PartDataAlmostEnd, |b|), PartEnd);
    } else {
      ByteRead(f, b, Machine(PartDataBoundary, i), out, n, b[i], Machine(PartDataBoundary, i + 1), []);
      DelimiterRead(f, b, i + 1, out, n + 1);
      assert b[i..] == [b[i]] + b[i + 1..];
      LeadsThrough(f, Machine(PartDataBoundary, i), out, n, [b[i]], Machine(PartDataBoundary, i + 1), out, n + 1,
        b[i + 1..], Machine(PartDataAlmostEnd, |b|), out + [PartEnd], n + |b| - i);
    }
  }

  /** The end of a part: the LF and the boundary of the delimiter. */
  lemma {:induction false} PartEndRead(f: Reader, b: seq<Byte>, m: Machine, out: seq<Event>, n: nat)
    requires IsMachine(f, b).Sound?
    requires m.state == PartDataAlmostBoundary && b != []
    ensures Leads(f, m, out, n, [LF] + b, Machine(PartDataAlmostEnd, |b|), out + [PartEnd], n + 1 + |b|).Sound?
  {
    ByteRead(f, b, m, out, n, LF, Machine(PartDataBoundary, 0), []);
    DelimiterRead(f, b, 0, out, n + 1);
    assert b[0..] == b;
    LeadsThrough(f, m, out, n, [LF], Machine(PartDataBoundary, 0), out, n + 1,
      b, Machine(PartDataAlmostEnd, |b|), out + [PartEnd], n + 1 + |b|);
  }

  lemma {:induction false} EmptyLineRead(f: Reader, b: seq<Byte>, k: nat, out: seq<Event>, n: nat)
    requires IsMachine(f, b).Sound?
    ensures Leads(f, Machine(HeaderFieldStart, k), out, n, [CR] + [LF], Machine(PartDataStart, k), out, n + 2).Sound?
  {
    SilentRead(f, b, HeaderFieldStart, k, out, n, CR, HeadersAlmostDone);
    SilentRead(f, b, HeadersAlmostDone, k, out, n + 1, LF, PartDataStart);
    LeadsThrough(f, Machine(HeaderFieldStart, k), out, n, [CR], Machine(HeadersAlmostDone, k), out, n + 1,
      [LF], Machine(PartDataStart, k), out, n + 2);
  }

  /** The headers of a part and the empty line behind them. */
  lemma {:induction false} HeadRead(f: Reader, b: seq<Byte>, k: nat, out: seq<Event>, n: nat, hs: seq<Header>)
    requires IsMachine(f, b).Sound?
    requires (forall i {:trigger hs[i]} | 0 <= i < |hs| :: GoodHeader(hs[i])) && Starts(out, Field([]))
    ensures Leads(f, Machine(HeaderFieldStart, k), out, n, WriteHeaders(hs) + ([CR] + [LF]),
      Machine(PartDataStart, k), out + HeaderEvents(hs), n + |WriteHeaders(hs)| + 2).Sound?
  {
    HeadersRead(f, b, k, out, n, hs);
    EmptyLineRead(f, b, k, out + HeaderEvents(hs), n + |WriteHeaders(hs)|);
    LeadsThrough(f, Machine(HeaderFieldStart, k), out, n,
      WriteHeaders(hs), Machine(HeaderFieldStart, k), out + HeaderEvents(hs), n + |WriteHeaders(hs)|,
      [CR] + [LF], Machine(PartDataStart, k), out + HeaderEvents(hs), n + |WriteHeaders(hs)| + 2);
  }

  /** The body of a part and the delimiter behind it. */
  lemma {:induction false} TailRead(f: Reader, b: seq<Byte>, k: nat, out: seq<Event>, n: nat, body: seq<Byte>)
    requires IsMachine(f, b).Sound?
    requires GoodBoundary(b) && NoDelimiter(b, body)
    ensures Leads(f, Machine(PartDataStart, k), out, n, (body + [CR]) + ([LF] + b),
      Machine(PartDataAlmostEnd, |b|), out + [HeadersComplete] + [Data(body)] + [PartEnd], n + |body| + 2 + |b|).Sound?
  {
    var m := WholeBodyRead(f, b, k, out, n, body);
    PartEndRead(f, b, m, out + [HeadersComplete] + [Data(body)], n + |body| + 1);
    LeadsThrough(f, Machine(PartDataStart, k), out, n,
      body + [CR], m, out + [HeadersComplete] + [Data(body)], n + |body| + 1,
      [LF] + b, Machine(PartDataAlmostEnd, |b|), out + [HeadersComplete] + [Data(body)] + [PartEnd],
      n + |body| + 2 + |b|);
  }

  lemma {:induction false} PartRead(f: Reader, b: seq<Byte>, k: nat, out: seq<Event>, n: nat, p: Part)
    requires IsMachine(f, b).Sound?
    requires GoodBoundary(b) && GoodPart(b, p) && Starts(out, Field([]))
    ensures Leads(f, Machine(HeaderFieldStart, k), out, n, WritePart(b, p),
      Machine(PartDataAlmostEnd, |b|),
      out + HeaderEvents(p.headers) + [HeadersComplete] + [Data(p.body)] + [PartEnd], n + |WritePart(b, p)|).Sound?
  {
    var out1, n1 := out + HeaderEvents(p.headers), n + |WriteHeaders(p.headers)| + 2;
    HeadRead(f, b, k, out, n, p.headers);
    TailRead(f, b, k, out1, n1, p.body);
    LeadsThrough(f, Machine(HeaderFieldStart, k), out, n,
      WriteHeaders(p.headers) + ([CR] + [LF]), Machine(PartDataStart, k), out1, n1,
      (p.body + [CR]) + ([LF] + b), Machine(PartDataAlmostEnd, |b|),
      out1 + [HeadersComplete] + [Data(p.body)] + [PartEnd], n1 + |p.body| + 2 + |b|);
  }

  // ----- Messages -----------------------------------------------------------------------------

  /** From one part to the next. */
  lemma {:induction false} NextPartRead(f: Reader, b: seq<Byte>, k: nat, out: seq<Event>, n: nat)
    requires IsMachine(f, b).Sound?
    ensures Leads(f, Machine(PartDataAlmostEnd, k), out, n, [CR] + [LF],
      Machine(HeaderFieldStart, k), out + [PartBegin], n + 2).Sound?
  {
    SilentRead(f, b, PartDataAlmostEnd, k, out, n, CR, PartDataEnd);
    FirstRead(f, b, Machine(PartDataEnd, k), out, n + 1, LF, Machine(HeaderFieldStart, k), PartBegin);
    LeadsThrough(f, Machine(PartDataAlmostEnd, k), out, n, [CR], Machine(PartDataEnd, k), out, n + 1,
      [LF], Machine(HeaderFieldStart, k), out + [PartBegin], n + 2);
  }

  lemma {:induction false} EpilogueRead(f: Reader, b: seq<Byte>, k: nat, out: seq<Event>, n: nat, text: seq<Byte>)
    requires IsMachine(f, b).Sound?
    ensures Leads(f, Machine(End, k), out, n, text, Machine(End, k), out, n + |text|).Sound?
    decreases text
  {
    if text == [] {
      LeadsNowhere(f, Machine(End, k), out, n);
    } else {
      SilentRead(f, b, End, k, out, n, text[0], End);
      EpilogueRead(f, b, k, out, n + 1, text[1..]);
      assert [text[0]] + text[1..] == text;
      LeadsThrough(f, Machine(End, k), out, n, [text[0]], Machine(End, k), out, n + 1,
        text[1..], Machine(End, k), out, n + |text|);
    }
  }

  lemma {:induction false} EndRead(f: Reader, b: seq<Byte>, k: nat, out: seq<Event>, n: nat, epilogue: seq<Byte>)
    requires IsMachine(f, b).Sound?
    ensures Leads(f, Machine(PartDataAlmostEnd, k), out, n, [HYPHEN] + ([HYPHEN] + epilogue),
      Machine(End, k), out + [BodyEnd], n + 2 + |epilogue|).Sound?
  {
    SilentRead(f, b, PartDataAlmostEnd, k, out, n, HYPHEN, PartDataFinalHyphen);
    FirstRead(f, b, Machine(PartDataFinalHyphen, k), out, n + 1, HYPHEN, Machine(End, k), BodyEnd);
    EpilogueRead(f, b, k, out + [BodyEnd], n + 2, epilogue);
    LeadsThrough(f, Machine(PartDataFinalHyphen, k), out, n + 1, [HYPHEN], Machine(End, k), out + [BodyEnd], n + 2,
      epilogue, Machine(End, k), out + [BodyEnd], n + 2 + |epilogue|);
    LeadsThrough(f, Machine(PartDataAlmostEnd, k), out, n, [HYPHEN], Machine(PartDataFinalHyphen, k), out, n + 1,
      [HYPHEN] + epilogue, Machine(End, k), out + [BodyEnd], n + 2 + |epilogue|);
  }

  /** A part, having begun. */
  lemma {:induction false} BegunPartRead(f: Reader, b: seq<Byte>, k: nat, out: seq<Event>, n: nat, p: Part)
    requires IsMachine(f, b).Sound?
    requires GoodBoundary(b) && GoodPart(b, p)
    ensures Leads(f, Machine(HeaderFieldStart, k), out + [PartBegin], n, WritePart(b, p),
      Machine(PartDataAlmostEnd, |b|), out + PartEvents(p), n + |WritePart(b, p)|).Sound?
  {
    PartRead(f, b, k, out + [PartBegin], n, p);
    assert (out + [PartBegin]) + HeaderEvents(p.headers) + [HeadersComplete] + [Data(p.body)] + [PartEnd] ==
      out + PartEvents(p);
  }

  /** The last part. */
  lemma {:induction false} LastPartRead(
      f: Reader, b: seq<Byte>, k: nat, out: seq<Event>, n: nat, p: Part, epilogue: seq<Byte>)
    requires IsMachine(f, b).Sound?
    requires GoodBoundary(b) && GoodPart(b, p)
    ensures Leads(f, Machine(HeaderFieldStart, k), out + [PartBegin], n,
      WritePart(b, p) + ([HYPHEN] + ([HYPHEN] + epilogue)),
      Machine(End, |b|), out + PartEvents(p) + [BodyEnd], n + |WritePart(b, p)| + 2 + |epilogue|).Sound?
  {
    var n1, out1 := n + |WritePart(b, p)|, out + PartEvents(p);
    BegunPartRead(f, b, k, out, n, p);
    EndRead(f, b, |b|, out1, n1, epilogue);
    LeadsThrough(f, Machine(HeaderFieldStart, k), out + [PartBegin], n,
      WritePart(b, p), Machine(PartDataAlmostEnd, |b|), out1, n1,
      [HYPHEN] + ([HYPHEN] + epilogue), Machine(End, |b|), out1 + [BodyEnd], n1 + 2 + |epilogue|);
  }

  /** A part and the begin of the next. */
  lemma {:induction false} OnePartRead(f: Reader, b: seq<Byte>, k: nat, out: seq<Event>, n: nat, p: Part)
    requires IsMachine(f, b).Sound?
    requires GoodBoundary(b) && GoodPart(b, p)
    ensures Leads(f, Machine(HeaderFieldStart, k), out + [PartBegin], n, WritePart(b, p) + ([CR] + [LF]),
      Machine(HeaderFieldStart, |b|), out + PartEvents(p) + [PartBegin], n + |WritePart(b, p)| + 2).Sound?
  {
    var n1, out1 := n + |WritePart(b, p)|, out + PartEvents(p);
    BegunPartRead(f, b, k, out, n, p);
    NextPartRead(f, b, |b|, out1, n1);
    LeadsThrough(f, Machine(HeaderFieldStart, k), out + [PartBegin], n,
      WritePart(b, p), Machine(PartDataAlmostEnd, |b|), out1, n1,
      [CR] + [LF], Machine(HeaderFieldStart, |b|), out1 + [PartBegin], n1 + 2);
  }

  /** All parts, the first one having begun. */
  lemma {:induction false} PartsRead(
      f: Reader, b: seq<Byte>, k: nat, out: seq<Event>, n: nat, parts: seq<Part>, epilogue: seq<Byte>) returns (k': nat)
    requires IsMachine(f, b).Sound?
    requires GoodBoundary(b) && GoodParts(b, parts)
    ensures Leads(f, Machine(HeaderFieldStart, k), out + [PartBegin], n, WriteParts(b, parts, epilogue),
      Machine(End, k'), out + Events(parts), n + |WriteParts(b, parts, epilogue)|).Sound?
    decreases parts
  {
    assert GoodPart(b, parts[0]);
    EventsOf(parts, out);
    if |parts| == 1 {
      LastPartRead(f, b, k, out, n, parts[0], epilogue);
      k' := |b|;
    } else {
      var n1, rest := n + |WritePart(b, parts[0])| + 2, WriteParts(b, parts[1..], epilogue);
      var out1 := out + PartEvents(parts[0]);
      OnePartRead(f, b, k, out, n, parts[0]);
      k' := PartsRead(f, b, |b|, out1, n1, parts[1..], epilogue);
      LeadsThrough(f, Machine(HeaderFieldStart, k), out + [PartBegin], n,
        WritePart(b, parts[0]) + ([CR] + [LF]), Machine(HeaderFieldStart, |b|), out1 + [PartBegin], n1,
        rest, Machine(End, k'), out1 + Events(parts[1..]), n1 + |rest|);
    }
  }

  lemma {:induction false} EventsOf(parts: seq<Part>, out: seq<Event>)
    requires parts != []
    ensures out + Events(parts) == (out + PartEvents(parts[0])) + Events(parts[1..])
    ensures |parts| == 1 ==> Events(parts[1..]) == [BodyEnd]
  {
    Assoc(out, PartEvents(parts[0]), Events(parts[1..]));
  }

  lemma {:induction false} FirstBoundaryRead(f: Reader, b: seq<Byte>, i: nat, n: nat)
    requires IsMachine(f, b).Sound?
    requires i <= |b|
    ensures Leads(f, Machine(StartBoundary, i), [], n, b[i..], Machine(StartBoundary, |b|), [], n + |b| - i).Sound?
    decreases |b| - i
  {
    if i == |b| {
      LeadsNowhere(f, Machine(StartBoundary, i), [], n);
      assert b[i..] == [];
    } else {
      ByteRead(f, b, Machine(StartBoundary, i), [], n, b[i], Machine(StartBoundary, i + 1), []);
      FirstBoundaryRead(f, b, i + 1, n + 1);
      assert b[i..] == [b[i]] + b[i + 1..];
      LeadsThrough(f, Machine(StartBoundary, i), [], n, [b[i]], Machine(StartBoundary, i + 1), [], n + 1,
        b[i + 1..], Machine(StartBoundary, |b|), [], n + |b| - i);
    }
  }

  lemma {:induction false} FirstLineEndRead(f: Reader, b: seq<Byte>, n: nat)
    requires IsMachine(f, b).Sound?
    ensures Leads(
      f, Machine(StartBoundary, |b|), [], n, [CR] + [LF], Machine(HeaderFieldStart, 0), [PartBegin], n + 2).Sound?
  {
    ByteRead(f, b, Machine(StartBoundary, |b|), [], n, CR, Machine(StartBoundary, |b| + 1), []);
    FirstRead(f, b, Machine(StartBoundary, |b| + 1), [], n + 1, LF, Machine(HeaderFieldStart, 0), PartBegin);
    assert [] + [PartBegin] == [PartBegin];
    LeadsThrough(f, Machine(StartBoundary, |b|), [], n, [CR], Machine(StartBoundary, |b| + 1), [], n + 1,
      [LF], Machine(HeaderFieldStart, 0), [PartBegin], n + 2);
  }

  /** The first line of a message. */
  lemma {:induction false} FirstLineRead(f: Reader, b: seq<Byte>)
    requires IsMachine(f, b).Sound?
    requires b != []
    ensures Leads(
      f, Machine(Start, 0), [], 0, b + ([CR] + [LF]), Machine(HeaderFieldStart, 0), [PartBegin], |b| + 2).Sound?
  {
    FirstBoundaryRead(f, b, 0, 0);
    assert b[0..] == b;
    FirstLineEndRead(f, b, |b|);
    LeadsThrough(f, Machine(StartBoundary, 0), [], 0, b, Machine(StartBoundary, |b|), [], |b|,
      [CR] + [LF], Machine(HeaderFieldStart, 0), [PartBegin], |b| + 2);
    SameFirst(f, b, Machine(Start, 0), [], Machine(StartBoundary, 0), [], 0, b + ([CR] + [LF]),
      Machine(HeaderFieldStart, 0), [PartBegin], |b| + 2);
  }

  /** A whole message, byte by byte. */
  lemma {:induction false} MessageRead(f: Reader, b: seq<Byte>, parts: seq<Part>, epilogue: seq<Byte>) returns (k: nat)
    requires IsMachine(f, b).Sound?
    requires GoodBoundary(b) && GoodParts(b, parts)
    ensures Leads(f, Machine(Start, 0), [], 0, Write(b, parts, epilogue),
      Machine(End, k), Events(parts), |Write(b, parts, epilogue)|).Sound?
  {
    FirstLineRead(f, b);
    k := PartsRead(f, b, 0, [], |b| + 2, parts, epilogue);
    assert [] + [PartBegin] == [PartBegin] && [] + Events(parts) == Events(parts);
    var w := WriteParts(b, parts, epilogue);
    LeadsThrough(f, Machine(Start, 0), [], 0,
      b + ([CR] + [LF]), Machine(HeaderFieldStart, 0), [PartBegin], |b| + 2,
      w, Machine(End, k), Events(parts), |b| + 2 + |w|);
  }

  /** Every well-formed message, cut into buffers in any way, is accepted as a whole, and the callbacks,
      put together, give exactly its headers and bodies in order. */
  lemma {:induction false} RoundTrip(b: seq<Byte>, parts: seq<Part>, epilogue: seq<Byte>, buffers: seq<seq<Byte>>)
    requires GoodBoundary(b) && GoodParts(b, parts) && Concat(buffers) == Write(b, parts, epilogue)
    ensures var r := RunAll(b, Machine(Start, 0), buffers);
      && r.consumed == |Write(b, parts, epilogue)| && r.m.state == End
      && Coalesce([], r.events) == Events(parts)
  {
    var text := Write(b, parts, epilogue);
    var f := (p: Progress, c: Byte) => One(b, p, c);
    assert IsMachine(f, b).Sound?;
    var k := MessageRead(f, b, parts, epilogue);
    LeadsTo(f, Machine(Start, 0), [], 0, text, Machine(End, k), Events(parts), |text|);
    ReadsIsBytewise(f, b, Machine(Start, 0), [], 0, true, text);
    AnyBuffersAgree(b, Machine(Start, 0), buffers, []);
  }
}
