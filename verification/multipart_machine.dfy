/** The byte-at-a-time machine of http_chunk_data_decode/multipart_parser.c. */
module MultipartMachine {
  type Byte = b: int | 0 <= b < 256

  const LF: Byte := 10
  const CR: Byte := 13
  const SPACE: Byte := 32
  const HYPHEN: Byte := 45
  const COLON: Byte := 58
  const CRLF: seq<Byte> := [CR, LF]

  /** What tolower and the range check let through in a header name. */
  predicate NameByte(c: Byte) {
    c == HYPHEN || 65 <= c <= 90 || 97 <= c <= 122
  }

  datatype State =
    | Start
    | StartBoundary
    | HeaderFieldStart
    | HeaderField
    | HeadersAlmostDone
    | HeaderValueStart
    | HeaderValue
    | HeaderValueAlmostDone
    | PartDataStart
    | PartData
    | PartDataAlmostBoundary
    | PartDataBoundary
    | PartDataAlmostEnd
    | PartDataEnd
    | PartDataFinalHyphen
    | End

  /** A call of one of the callbacks. */
  datatype Event =
    | PartBegin
    | Field(text: seq<Byte>)
    | Value(text: seq<Byte>)
    | HeadersComplete
    | Data(text: seq<Byte>)
    | PartEnd
    | BodyEnd

  /** p->state and p->index. */
  datatype Machine = Machine(state: State, index: nat)

  /** What one byte does: the bytes since `mark` afterwards, and the callbacks made. */
  datatype Outcome =
    | Reject(m: Machine)
    | Go(m: Machine, fragment: seq<Byte>, events: seq<Event>)

  function AtBoundary(b: seq<Byte>, index: nat, c: Byte): Outcome {
    if index == |b| then
      if c != CR then Reject(Machine(StartBoundary, index)) else Go(Machine(StartBoundary, index + 1), [], [])
    else if index == |b| + 1 then
      if c != LF then Reject(Machine(StartBoundary, index))
      else Go(Machine(HeaderFieldStart, 0), [], [PartBegin])
    else if index > |b| || c != b[index] then Reject(Machine(StartBoundary, index))
    else Go(Machine(StartBoundary, index + 1), [], [])
  }

  function InName(index: nat, fragment: seq<Byte>, c: Byte, last: bool): Outcome {
    if c == CR then Go(Machine(HeadersAlmostDone, index), [], [])
    else if c == COLON then Go(Machine(HeaderValueStart, index), [], [Field(fragment)])
    else if !NameByte(c) then Reject(Machine(HeaderField, index))
    else if last then Go(Machine(HeaderField, index), [], [Field(fragment + [c])])
    else Go(Machine(HeaderField, index), fragment + [c], [])
  }

  function InValue(index: nat, fragment: seq<Byte>, c: Byte, last: bool): Outcome {
    if c == CR then Go(Machine(HeaderValueAlmostDone, index), [], [Value(fragment)])
    else if last then Go(Machine(HeaderValue, index), [], [Value(fragment + [c])])
    else Go(Machine(HeaderValue, index), fragment + [c], [])
  }

  /** In the body, after the callbacks `done` made for this byte before. */
  function InData(index: nat, fragment: seq<Byte>, c: Byte, last: bool, done: seq<Event>): Outcome {
    if c == CR then Go(Machine(PartDataAlmostBoundary, index), [], done + [Data(fragment)])
    else if last then Go(Machine(PartData, index), [], done + [Data(fragment + [c])])
    else Go(Machine(PartData, index), fragment + [c], done)
  }

  function Expecting(c: Byte, wanted: Byte, m: Machine, next: State, events: seq<Event>): Outcome {
    if c == wanted then Go(Machine(next, m.index), [], events) else Reject(m)
  }

  /** One byte c, the last of its buffer or not, when `fragment` has been read since `mark`. */
  function Step(b: seq<Byte>, m: Machine, fragment: seq<Byte>, c: Byte, last: bool): Outcome {
    match m.state
    case Start => AtBoundary(b, 0, c)
    case StartBoundary => AtBoundary(b, m.index, c)
    case HeaderFieldStart => InName(m.index, [], c, last)
    case HeaderField => InName(m.index, fragment, c, last)
    case HeadersAlmostDone => Expecting(c, LF, m, PartDataStart, [])
    case HeaderValueStart => if c == SPACE then Go(m, [], []) else InValue(m.index, [], c, last)
    case HeaderValue => InValue(m.index, fragment, c, last)
    case HeaderValueAlmostDone => Expecting(c, LF, m, HeaderFieldStart, [])
    case PartDataStart => InData(m.index, [], c, last, [HeadersComplete])
    case PartData => InData(m.index, fragment, c, last, [])
    case PartDataAlmostBoundary =>
      if c == LF then Go(Machine(PartDataBoundary, 0), [], [])
      else InData(m.index, [], c, last, [Data([CR])])
    case PartDataBoundary =>
      if m.index >= |b| || b[m.index] != c then
        InData(m.index, [], c, last, [Data(CRLF + b[..if m.index <= |b| then m.index else 0])])
      else if m.index + 1 == |b| then Go(Machine(PartDataAlmostEnd, |b|), [], [PartEnd])
      else Go(Machine(PartDataBoundary, m.index + 1), [], [])
    case PartDataAlmostEnd =>
      if c == HYPHEN then Go(Machine(PartDataFinalHyphen, m.index), [], [])
      else if c == CR then Go(Machine(PartDataEnd, m.index), [], [])
      else Reject(m)
    case PartDataFinalHyphen => Expecting(c, HYPHEN, m, End, [BodyEnd])
    case PartDataEnd => Expecting(c, LF, m, HeaderFieldStart, [PartBegin])
    case End => Go(m, [], [])
  }

  /** The machine after some input, the callbacks made, and how much of the input was accepted. */
  datatype Reading = Reading(m: Machine, events: seq<Event>, consumed: nat)

  /** One call of multipart_parser_execute, from a place in the buffer on. */
  function Run(b: seq<Byte>, m: Machine, fragment: seq<Byte>, rest: seq<Byte>): (r: Reading)
    ensures r.consumed <= |rest|
    decreases |rest|, 1
  {
    if rest == [] then Reading(m, [], 0)
    else After(b, Step(b, m, fragment, rest[0], |rest| == 1), rest[1..])
  }

  /** The same, when the step for one byte is done. */
  function After(b: seq<Byte>, o: Outcome, rest: seq<Byte>): (r: Reading)
    ensures r.consumed <= 1 + |rest|
    decreases |rest|, 2
  {
    match o
    case Reject(m) => Reading(m, [], 0)
    case Go(m, fragment, events) =>
      var r := Run(b, m, fragment, rest);
      Reading(r.m, events + r.events, r.consumed + 1)
  }

  /** Calls for one buffer after the other, until one is not accepted as a whole. */
  function RunAll(b: seq<Byte>, m: Machine, buffers: seq<seq<Byte>>): Reading
    decreases buffers
  {
    if buffers == [] then Reading(m, [], 0)
    else
      var r := Run(b, m, [], buffers[0]);
      if r.consumed < |buffers[0]| then r
      else
        var s := RunAll(b, r.m, buffers[1..]);
        Reading(s.m, r.events + s.events, r.consumed + s.consumed)
  }

  function Concat(buffers: seq<seq<Byte>>): seq<Byte> {
    if buffers == [] then [] else buffers[0] + Concat(buffers[1..])
  }

  function Singles(bytes: seq<Byte>): seq<seq<Byte>> {
    if bytes == [] then [] else [[bytes[0]]] + Singles(bytes[1..])
  }
}
