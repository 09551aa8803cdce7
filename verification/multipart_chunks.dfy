/** The way a message is cut into buffers does not matter, except that an error in a header name can
    swallow a part of it. */
module MultipartChunks {
  import opened MultipartMachine

  // ----- Fragments of one text ----------------------------------------------------------------

  predicate Continues(a: Event, e: Event) {
    (a.Field? && e.Field?) || (a.Value? && e.Value?) || (a.Data? && e.Data?)
  }

  function Joined(a: Event, e: Event): Event
    requires Continues(a, e)
  {
    match a
    case Field(t) => Field(t + e.text)
    case Value(t) => Value(t + e.text)
    case Data(t) => Data(t + e.text)
  }

  function Push(out: seq<Event>, e: Event): seq<Event> {
    if out != [] && Continues(out[|out| - 1], e) then out[..|out| - 1] + [Joined(out[|out| - 1], e)] else out + [e]
  }

  /** The callbacks as a user sees them who puts adjacent fragments together. */
  function Coalesce(out: seq<Event>, events: seq<Event>): seq<Event>
    decreases events
  {
    if events == [] then out else Coalesce(Push(out, events[0]), events[1..])
  }

  lemma {:induction false} CoalesceConcat(out: seq<Event>, a: seq<Event>, b: seq<Event>)
    ensures Coalesce(out, a + b) == Coalesce(Coalesce(out, a), b)
    decreases a
  {
    if a == [] {
      assert a + b == b;
    } else {
      assert (a + b)[1..] == a[1..] + b;
      CoalesceConcat(Push(out, a[0]), a[1..], b);
    }
  }

  lemma {:induction false} PushTwice(out: seq<Event>, a: Event, e: Event)
    requires Continues(a, e)
    ensures Push(Push(out, a), e) == Push(out, Joined(a, e))
  {
    if out != [] && Continues(out[|out| - 1], a) {
      var l := out[|out| - 1];
      assert (l.text + a.text) + e.text == l.text + (a.text + e.text);
    }
  }

  lemma {:induction false} CoalesceOne(out: seq<Event>, e: Event)
    ensures Coalesce(out, [e]) == Push(out, e)
  {
  }

  // ----- One byte at a time -------------------------------------------------------------------

  function Bytewise(b: seq<Byte>, m: Machine, bytes: seq<Byte>): Reading {
    RunAll(b, m, Singles(bytes))
  }

  /** What follows a step for one byte. */
  function Onward(b: seq<Byte>, o: Outcome, bytes: seq<Byte>): Reading {
    match o
    case Reject(m) => Reading(m, [], 0)
    case Go(m, _, events) => var r := Bytewise(b, m, bytes); Reading(r.m, events + r.events, r.consumed + 1)
  }

  lemma {:induction false} BytewiseStep(b: seq<Byte>, m: Machine, bytes: seq<Byte>)
    requires bytes != []
    ensures Bytewise(b, m, bytes) == Onward(b, Step(b, m, [], bytes[0], true), bytes[1..])
  {
    var s := Singles(bytes);
    assert s[0] == [bytes[0]] && s[1..] == Singles(bytes[1..]);
    var o := Step(b, m, [], bytes[0], true);
    assert Run(b, m, [], s[0]) == After(b, o, []);
    if o.Go? {
      assert Run(b, o.m, o.fragment, []) == Reading(o.m, [], 0);
    }
  }

  /** The pending fragment of a text, as a callback. */
  function Pending(m: Machine, fragment: seq<Byte>): seq<Event> {
    if fragment == [] then []
    else if m.state == HeaderField then [Field(fragment)]
    else if m.state == HeaderValue then [Value(fragment)]
    else [Data(fragment)]
  }

  predicate Fits(m: Machine, fragment: seq<Byte>) {
    fragment != [] ==> m.state == HeaderField || m.state == HeaderValue || m.state == PartData
  }

  /** A header name is cut short by this byte. */
  predicate CutsShort(m: Machine, c: Byte) {
    m.state == HeaderField && (c == CR || (c != COLON && !NameByte(c)))
  }

  lemma {:induction false} Extend(out: seq<Event>, a: Event, e: Event)
    requires Continues(a, e)
    ensures Coalesce(Coalesce(out, [a]), [e]) == Coalesce(out, [Joined(a, e)])
  {
    PushTwice(out, a, e);
    CoalesceOne(out, a);
    CoalesceOne(Push(out, a), e);
    CoalesceOne(out, Joined(a, e));
  }

  /** Inside a text, a byte in mid-buffer adds to the pending fragment what it would emit on its own. */
  lemma {:induction false} TextStep(out: seq<Event>, m: Machine, fragment: seq<Byte>, t: seq<Byte>)
    requires Fits(m, fragment)
    ensures m.state == HeaderField ==>
      Coalesce(out, [Field(fragment + t)]) == Coalesce(Coalesce(out, Pending(m, fragment)), [Field(t)])
    ensures m.state == HeaderValue ==>
      Coalesce(out, [Value(fragment + t)]) == Coalesce(Coalesce(out, Pending(m, fragment)), [Value(t)])
    ensures m.state == PartData ==>
      Coalesce(out, [Data(fragment + t)]) == Coalesce(Coalesce(out, Pending(m, fragment)), [Data(t)])
  {
    if fragment != [] {
      match m.state {
        case HeaderField => Extend(out, Field(fragment), Field(t));
        case HeaderValue => Extend(out, Value(fragment), Value(t));
        case PartData => Extend(out, Data(fragment), Data(t));
      }
    } else {
      assert fragment + t == t;
    }
  }

  /** What a step emits and leaves pending is what the pending fragment and the byte on its own emit. */
  ghost predicate Matches(out: seq<Event>, m: Machine, fragment: seq<Byte>, o: Outcome, w: Outcome) {
    match o
    case Reject(m') => w == Reject(m')
    case Go(m', fragment', events) =>
      && w.Go? && w.m == m' && Fits(m', fragment')
      && Coalesce(Coalesce(out, events), Pending(m', fragment')) ==
         Coalesce(Coalesce(out, Pending(m, fragment)), w.events)
  }

  lemma {:induction false} NameMatches(m: Machine, fragment: seq<Byte>, c: Byte, last: bool, out: seq<Event>)
    requires (m.state == HeaderField || fragment == []) && Fits(m, fragment) && (CutsShort(m, c) ==> fragment == [])
    ensures Matches(out, m, fragment, InName(m.index, fragment, c, last), InName(m.index, [], c, true))
  {
    if m.state == HeaderField {
      TextStep(out, m, fragment, [c]);
      TextStep(out, m, fragment, []);
    }
    assert fragment + [] == fragment && [] + [c] == [c];
  }

  lemma {:induction false} ValueMatches(m: Machine, fragment: seq<Byte>, c: Byte, last: bool, out: seq<Event>)
    requires (m.state == HeaderValue || fragment == []) && Fits(m, fragment)
    ensures Matches(out, m, fragment, InValue(m.index, fragment, c, last), InValue(m.index, [], c, true))
  {
    if m.state == HeaderValue {
      TextStep(out, m, fragment, [c]);
      TextStep(out, m, fragment, []);
    }
    assert fragment + [] == fragment && [] + [c] == [c];
  }

  lemma {:induction false} DataMatches(
      m: Machine, index: nat, fragment: seq<Byte>, c: Byte, last: bool, done: seq<Event>, out: seq<Event>)
    requires Fits(m, fragment)
    requires (m.state == PartData && done == []) || fragment == []
    ensures Matches(out, m, fragment, InData(index, fragment, c, last, done), InData(index, [], c, true, done))
  {
    assert fragment + [] == fragment && [] + [c] == [c];
    if m.state == PartData && done == [] {
      TextStep(out, m, fragment, [c]);
      TextStep(out, m, fragment, []);
      assert [] + [Data(fragment)] == [Data(fragment)] && [] + [Data(fragment + [c])] == [Data(fragment + [c])];
      assert [] + [Data([])] == [Data([])] && [] + [Data([c])] == [Data([c])];
    } else {
      CoalesceConcat(out, done, [Data([c])]);
    }
  }

  lemma {:induction false} StepMatches(
      b: seq<Byte>, m: Machine, fragment: seq<Byte>, c: Byte, last: bool, out: seq<Event>)
    requires Fits(m, fragment) && (CutsShort(m, c) ==> fragment == [])
    ensures Matches(out, m, fragment, Step(b, m, fragment, c, last), Step(b, m, [], c, true))
  {
    match m.state {
      case HeaderFieldStart | HeaderField => NameMatches(m, fragment, c, last, out);
      case HeaderValueStart | HeaderValue => ValueMatches(m, fragment, c, last, out);
      case PartDataStart => DataMatches(m, m.index, [], c, last, [HeadersComplete], out);
      case PartData => DataMatches(m, m.index, fragment, c, last, [], out);
      case PartDataAlmostBoundary => DataMatches(m, m.index, [], c, last, [Data([CR])], out);
      case PartDataBoundary =>
        DataMatches(m, m.index, [], c, last, [Data(CRLF + b[..if m.index <= |b| then m.index else 0])], out);
      case _ =>
    }
  }

  lemma {:induction false} LastLeavesNothing(b: seq<Byte>, m: Machine, fragment: seq<Byte>, c: Byte)
    ensures var o := Step(b, m, fragment, c, true); o.Go? ==> o.fragment == []
  {
  }

  // ----- One buffer ---------------------------------------------------------------------------

  /** The number of bytes of header names that one call swallows. */
  function Lost(b: seq<Byte>, m: Machine, fragment: seq<Byte>, rest: seq<Byte>): nat
    decreases rest
  {
    if rest == [] then 0
    else
      var o := Step(b, m, fragment, rest[0], |rest| == 1);
      (if CutsShort(m, rest[0]) then |fragment| else 0)
      + (if o.Go? then Lost(b, o.m, o.fragment, rest[1..]) else 0)
  }

  /** Two readings end the same way. */
  predicate SameEnd(r: Reading, w: Reading) {
    r.m == w.m && r.consumed == w.consumed
  }

  lemma {:induction false} RunEnds(b: seq<Byte>, m: Machine, fragment: seq<Byte>, rest: seq<Byte>)
    requires Fits(m, fragment)
    ensures SameEnd(Run(b, m, fragment, rest), Bytewise(b, m, rest))
    decreases rest
  {
    if rest != [] {
      BytewiseStep(b, m, rest);
      var o, w := Step(b, m, fragment, rest[0], |rest| == 1), Step(b, m, [], rest[0], true);
      StepEnds(b, m, fragment, rest[0], |rest| == 1);
      if o.Go? {
        RunEnds(b, o.m, o.fragment, rest[1..]);
      }
    }
  }

  lemma {:induction false} StepEnds(b: seq<Byte>, m: Machine, fragment: seq<Byte>, c: Byte, last: bool)
    ensures var o, w := Step(b, m, fragment, c, last), Step(b, m, [], c, true);
      && o.Go? == w.Go? && o.m == w.m
      && (o.Go? ==> Fits(o.m, o.fragment))
  {
  }

  /** If nothing is swallowed, the callbacks for a buffer put together are those for its bytes one at
      a time. */
  lemma {:induction false} RunMatches(
      b: seq<Byte>, m: Machine, fragment: seq<Byte>, rest: seq<Byte>, out: seq<Event>)
    requires Fits(m, fragment) && Lost(b, m, fragment, rest) == 0 && (rest == [] ==> fragment == [])
    ensures Coalesce(out, Run(b, m, fragment, rest).events) ==
      Coalesce(Coalesce(out, Pending(m, fragment)), Bytewise(b, m, rest).events)
    decreases rest
  {
    if rest != [] {
      BytewiseStep(b, m, rest);
      var c, tail := rest[0], rest[1..];
      var o, w := Step(b, m, fragment, c, |rest| == 1), Step(b, m, [], c, true);
      StepMatches(b, m, fragment, c, |rest| == 1, out);
      if o.Go? {
        LastLeavesNothing(b, m, fragment, c);
        RunMatches(b, o.m, o.fragment, tail, Coalesce(out, o.events));
        CoalesceConcat(out, o.events, Run(b, o.m, o.fragment, tail).events);
        CoalesceConcat(Coalesce(out, Pending(m, fragment)), w.events, Bytewise(b, o.m, tail).events);
      } else {
        if !CutsShort(m, c) {
          RejectsCut(b, m, fragment, c, |rest| == 1);
        }
      }
    }
  }

  /** A byte of a text is only rejected if it cuts a header name short. */
  lemma {:induction false} RejectsCut(b: seq<Byte>, m: Machine, fragment: seq<Byte>, c: Byte, last: bool)
    requires Fits(m, fragment) && Step(b, m, fragment, c, last).Reject? && !CutsShort(m, c)
    ensures fragment == []
  {
  }

  // ----- What is swallowed --------------------------------------------------------------------

  function NameBytes(events: seq<Event>): nat {
    if events == [] then 0
    else (if events[0].Field? then |events[0].text| else 0) + NameBytes(events[1..])
  }

  lemma {:induction false} NameBytesConcat(a: seq<Event>, b: seq<Event>)
    ensures NameBytes(a + b) == NameBytes(a) + NameBytes(b)
  {
    if a == [] {
      assert a + b == b;
    } else {
      assert (a + b)[1..] == a[1..] + b;
      NameBytesConcat(a[1..], b);
    }
  }

  lemma {:induction false} CoalesceKeepsNameBytes(out: seq<Event>, events: seq<Event>)
    ensures NameBytes(Coalesce(out, events)) == NameBytes(out) + NameBytes(events)
    decreases events
  {
    if events != [] {
      var e := events[0];
      CoalesceKeepsNameBytes(Push(out, e), events[1..]);
      NameBytesConcat(out, [e]);
      if out != [] && Continues(out[|out| - 1], e) {
        var l := out[|out| - 1];
        assert out == out[..|out| - 1] + [l];
        NameBytesConcat(out[..|out| - 1], [l]);
        NameBytesConcat(out[..|out| - 1], [Joined(l, e)]);
      }
    }
  }

  function PendingName(m: Machine, fragment: seq<Byte>): nat {
    if m.state == HeaderField then |fragment| else 0
  }

  lemma {:induction false} DataConserves(index: nat, fragment: seq<Byte>, c: Byte, last: bool, done: seq<Event>)
    ensures var o := InData(index, fragment, c, last, done);
      NameBytes(o.events) == NameBytes(done) && PendingName(o.m, o.fragment) == 0
  {
    NameBytesConcat(done, [Data(fragment)]);
    NameBytesConcat(done, [Data(fragment + [c])]);
  }

  lemma {:induction false} StepConserves(b: seq<Byte>, m: Machine, fragment: seq<Byte>, c: Byte, last: bool)
    requires Fits(m, fragment)
    ensures var o, w := Step(b, m, fragment, c, last), Step(b, m, [], c, true);
      var lost := if CutsShort(m, c) then |fragment| else 0;
      if o.Go? then NameBytes(o.events) + PendingName(o.m, o.fragment) + lost ==
        PendingName(m, fragment) + NameBytes(w.events)
      else lost == PendingName(m, fragment)
  {
    match m.state {
      case PartDataStart => DataConserves(m.index, [], c, last, [HeadersComplete]);
        DataConserves(m.index, [], c, true, [HeadersComplete]);
      case PartData => DataConserves(m.index, fragment, c, last, []);
        DataConserves(m.index, [], c, true, []);
      case PartDataAlmostBoundary => DataConserves(m.index, [], c, last, [Data([CR])]);
        DataConserves(m.index, [], c, true, [Data([CR])]);
      case PartDataBoundary =>
        var held := Data(CRLF + b[..if m.index <= |b| then m.index else 0]);
        DataConserves(m.index, [], c, last, [held]);
        DataConserves(m.index, [], c, true, [held]);
      case _ =>
    }
  }

  /** The bytes of header names are the ones emitted and the ones swallowed. */
  lemma {:induction false} RunConserves(b: seq<Byte>, m: Machine, fragment: seq<Byte>, rest: seq<Byte>)
    requires Fits(m, fragment) && (rest == [] ==> fragment == [])
    ensures NameBytes(Run(b, m, fragment, rest).events) + Lost(b, m, fragment, rest) ==
      PendingName(m, fragment) + NameBytes(Bytewise(b, m, rest).events)
    decreases rest
  {
    if rest != [] {
      BytewiseStep(b, m, rest);
      var c, tail := rest[0], rest[1..];
      var o, w := Step(b, m, fragment, c, |rest| == 1), Step(b, m, [], c, true);
      StepConserves(b, m, fragment, c, |rest| == 1);
      StepEnds(b, m, fragment, c, |rest| == 1);
      if o.Go? {
        LastLeavesNothing(b, m, fragment, c);
        RunConserves(b, o.m, o.fragment, tail);
        NameBytesConcat(o.events, Run(b, o.m, o.fragment, tail).events);
        NameBytesConcat(w.events, Bytewise(b, o.m, tail).events);
      }
    }
  }

  /** For one buffer: it ends as byte by byte, and the callbacks agree if and only if nothing is
      swallowed. */
  lemma {:induction false} OneBufferAgrees(b: seq<Byte>, m: Machine, buf: seq<Byte>)
    ensures SameEnd(Run(b, m, [], buf), Bytewise(b, m, buf))
    ensures Coalesce([], Run(b, m, [], buf).events) == Coalesce([], Bytewise(b, m, buf).events) <==>
      Lost(b, m, [], buf) == 0
  {
    RunEnds(b, m, [], buf);
    RunConserves(b, m, [], buf);
    CoalesceKeepsNameBytes([], Run(b, m, [], buf).events);
    CoalesceKeepsNameBytes([], Bytewise(b, m, buf).events);
    if Lost(b, m, [], buf) == 0 {
      RunMatches(b, m, [], buf, []);
    }
  }

  // ----- Any buffers --------------------------------------------------------------------------

  /** No byte cuts a header name short. */
  predicate CutFree(b: seq<Byte>, m: Machine, bytes: seq<Byte>)
    decreases bytes
  {
    bytes == [] ||
    (!CutsShort(m, bytes[0]) && var w := Step(b, m, [], bytes[0], true); w.Go? ==> CutFree(b, w.m, bytes[1..]))
  }

  lemma {:induction false} CutFreeLosesNothing(b: seq<Byte>, m: Machine, fragment: seq<Byte>, rest: seq<Byte>)
    requires Fits(m, fragment) && CutFree(b, m, rest)
    ensures Lost(b, m, fragment, rest) == 0
    decreases rest
  {
    if rest != [] {
      StepEnds(b, m, fragment, rest[0], |rest| == 1);
      var o := Step(b, m, fragment, rest[0], |rest| == 1);
      if o.Go? {
        CutFreeLosesNothing(b, o.m, o.fragment, rest[1..]);
      }
    }
  }

  /** A reading of x, and then, if x is accepted, of y. */
  function Then(b: seq<Byte>, r: Reading, x: seq<Byte>, y: seq<Byte>): Reading {
    if r.consumed == |x| then
      var u := Bytewise(b, r.m, y);
      Reading(u.m, r.events + u.events, r.consumed + u.consumed)
    else r
  }

  lemma {:induction false} BytewiseParts(b: seq<Byte>, m: Machine, x: seq<Byte>, y: seq<Byte>)
    ensures Bytewise(b, m, x + y) == Then(b, Bytewise(b, m, x), x, y)
    decreases x, 1
  {
    if x == [] {
      assert x + y == y;
    } else {
      BytewiseStep(b, m, x);
      BytewiseStep(b, m, x + y);
      assert (x + y)[1..] == x[1..] + y && (x + y)[0] == x[0];
      OnwardParts(b, Step(b, m, [], x[0], true), x, y);
    }
  }

  lemma {:induction false} OnwardParts(b: seq<Byte>, o: Outcome, x: seq<Byte>, y: seq<Byte>)
    requires x != []
    ensures Onward(b, o, x[1..] + y) == Then(b, Onward(b, o, x[1..]), x, y)
    decreases x, 0
  {
    if o.Go? {
      BytewiseParts(b, o.m, x[1..], y);
      var p := Bytewise(b, o.m, x[1..]);
      var q := Bytewise(b, p.m, y);
      assert o.events + (p.events + q.events) == (o.events + p.events) + q.events;
    }
  }

  lemma {:induction false} CutFreeParts(b: seq<Byte>, m: Machine, x: seq<Byte>, y: seq<Byte>)
    requires CutFree(b, m, x + y)
    ensures CutFree(b, m, x)
    ensures var w := Bytewise(b, m, x); w.consumed == |x| ==> CutFree(b, w.m, y)
    decreases x
  {
    if x == [] {
      assert x + y == y;
    } else {
      BytewiseStep(b, m, x);
      assert (x + y)[1..] == x[1..] + y && (x + y)[0] == x[0];
      var w := Step(b, m, [], x[0], true);
      if w.Go? {
        CutFreeParts(b, w.m, x[1..], y);
      }
    }
  }

  /** Whatever the buffers, a message in which no header name is cut short gives the same callbacks,
      put together, the same end, and is accepted equally far. */
  lemma {:induction false} AnyBuffersAgree(b: seq<Byte>, m: Machine, buffers: seq<seq<Byte>>, out: seq<Event>)
    requires CutFree(b, m, Concat(buffers))
    ensures SameEnd(RunAll(b, m, buffers), Bytewise(b, m, Concat(buffers)))
    ensures Coalesce(out, RunAll(b, m, buffers).events) == Coalesce(out, Bytewise(b, m, Concat(buffers)).events)
    decreases buffers
  {
    if buffers != [] {
      var x, y := buffers[0], Concat(buffers[1..]);
      var r, w := Run(b, m, [], x), Bytewise(b, m, x);
      CutFreeParts(b, m, x, y);
      BytewiseParts(b, m, x, y);
      CutFreeLosesNothing(b, m, [], x);
      RunEnds(b, m, [], x);
      RunMatches(b, m, [], x, out);
      if r.consumed == |x| {
        AnyBuffersAgree(b, r.m, buffers[1..], Coalesce(out, r.events));
        CoalesceConcat(out, r.events, RunAll(b, r.m, buffers[1..]).events);
        CoalesceConcat(out, w.events, Bytewise(b, r.m, y).events);
      }
    }
  }

  lemma {:induction false} CutLosesSomething(b: seq<Byte>, m: Machine, fragment: seq<Byte>, rest: seq<Byte>)
    requires Fits(m, fragment) && (m.state == HeaderField ==> fragment != []) && !CutFree(b, m, rest)
    ensures Lost(b, m, fragment, rest) > 0
    decreases rest
  {
    StepEnds(b, m, fragment, rest[0], |rest| == 1);
    var o := Step(b, m, fragment, rest[0], |rest| == 1);
    if o.Go? && !CutsShort(m, rest[0]) {
      assert rest[1..] != [];
      NameGrows(b, m, fragment, rest[0]);
      CutLosesSomething(b, o.m, o.fragment, rest[1..]);
    }
  }

  lemma {:induction false} NameGrows(b: seq<Byte>, m: Machine, fragment: seq<Byte>, c: Byte)
    requires Fits(m, fragment)
    ensures var o := Step(b, m, fragment, c, false); o.Go? && o.m.state == HeaderField ==> o.fragment != []
  {
  }

  ghost predicate Agrees(b: seq<Byte>, bytes: seq<Byte>, buffers: seq<seq<Byte>>) {
    var r, w := RunAll(b, Machine(Start, 0), buffers), Bytewise(b, Machine(Start, 0), bytes);
    SameEnd(r, w) && Coalesce([], r.events) == Coalesce([], w.events)
  }

  /** The cutting into buffers does not matter for a message if and only if no header name in it is
      cut short by a CR or a byte that a name must not have. */
  lemma {:induction false} BuffersDoNotMatter(b: seq<Byte>, bytes: seq<Byte>)
    ensures (forall buffers {:trigger Agrees(b, bytes, buffers)} | Concat(buffers) == bytes ::
      Agrees(b, bytes, buffers))
      <==> CutFree(b, Machine(Start, 0), bytes)
  {
    var m := Machine(Start, 0);
    if CutFree(b, m, bytes) {
      forall buffers | Concat(buffers) == bytes ensures Agrees(b, bytes, buffers) {
        AnyBuffersAgree(b, m, buffers, []);
      }
    } else {
      CutLosesSomething(b, m, [], bytes);
      OneBufferAgrees(b, m, bytes);
      OneBuffer(b, m, bytes);
      assert Concat([bytes]) == bytes;
      assert !Agrees(b, bytes, [bytes]);
    }
  }

  lemma {:induction false} OneBuffer(b: seq<Byte>, m: Machine, bytes: seq<Byte>)
    ensures RunAll(b, m, [bytes]) == Run(b, m, [], bytes)
  {
    var r := Run(b, m, [], bytes);
    assert RunAll(b, r.m, []) == Reading(r.m, [], 0) && r.events + [] == r.events;
  }

  /** A header line without a colon: the name "a" is called back if its byte ends a buffer, and not if
      the whole message is one buffer. */
  lemma {:induction false} SwallowedName()
    ensures var b, bytes := [66], [66, CR, LF, 97, CR]; !Agrees(b, bytes, [bytes])
  {
    var b, bytes := [66], [66, CR, LF, 97, CR];
    var m := Machine(Start, 0);
    assert bytes[1..] == [CR, LF, 97, CR] && bytes[1..][1..] == [LF, 97, CR];
    assert [LF, 97, CR][1..] == [97, CR] && [97, CR][1..] == [CR];
    assert !CutFree(b, Machine(HeaderField, 0), [CR]);
    assert !CutFree(b, Machine(HeaderFieldStart, 0), [97, CR]);
    assert !CutFree(b, Machine(StartBoundary, 2), [LF, 97, CR]);
    assert !CutFree(b, Machine(StartBoundary, 1), [CR, LF, 97, CR]);
    assert !CutFree(b, m, bytes);
    CutLosesSomething(b, m, [], bytes);
    OneBufferAgrees(b, m, bytes);
    OneBuffer(b, m, bytes);
  }
}
