/** The parser object of http_chunk_data_decode/multipart_parser.c. */
module MultipartParser {
  import opened MultipartMachine

  class Parser {
    const boundary: seq<Byte>
    var state: State
    var index: nat
    const lookbehind: array<Byte>
    /** The callbacks made so far. */
    var calls: seq<Event>

    function Now(): Machine
      reads this
    {
      Machine(state, index)
    }

    /** What the code relies on between any two bytes: the bytes held back are in `lookbehind`. */
    ghost predicate Valid()
      reads this, lookbehind
    {
      && boundary != [] && lookbehind.Length == |boundary| + 8
      && (state == StartBoundary ==> index <= |boundary| + 1)
      && (state == PartDataAlmostBoundary ==> lookbehind[0] == CR)
      && (state == PartDataBoundary ==>
            index < |boundary| && lookbehind[..2 + index] == CRLF + boundary[..index])
    }

    /** multipart_parser_init */
    constructor (boundary: seq<Byte>)
      requires boundary != []
      ensures Valid() && Now() == Machine(Start, 0) && calls == [] && this.boundary == boundary
      ensures fresh(lookbehind)
    {
      this.boundary := boundary;
      lookbehind := new Byte[|boundary| + 8];
      index, state, calls := 0, Start, [];
    }

    /** The bytes since `mark` that a callback has yet to be given. */
    function Pending(buf: seq<Byte>, mark: nat, i: nat): seq<Byte>
      requires mark <= i <= |buf|
      reads this
    {
      if i < |buf| && (state == HeaderField || state == HeaderValue || state == PartData) then buf[mark..i] else []
    }

    method Notify(e: Event)
      modifies `calls
      ensures calls == old(calls) + [e]
    {
      calls := calls + [e];
    }

    /** States s_header_field_start and s_header_field. */
    method OnName(buf: seq<Byte>, i: nat, mark: nat) returns (ok: bool, mark': nat)
      requires Valid() && (state == HeaderFieldStart || state == HeaderField) && mark <= i < |buf|
      modifies `state, `calls
      ensures Valid() && mark' <= i
      ensures Did(
        Step(boundary, old(Now()), old(Pending(buf, mark, i)), buf[i], i == |buf| - 1), ok, buf, mark', i, old(calls))
    {
      var c := buf[i];
      ok, mark' := true, mark;
      if state == HeaderFieldStart {
        mark' := i;
        state := HeaderField;
      }
      assert mark' == i ==> buf[mark'..i] == [];
      assert buf[mark'..i + 1] == buf[mark'..i] + [c];
      if c == CR {
        state := HeadersAlmostDone;
      } else if c == COLON {
        Notify(Field(buf[mark'..i]));
        state := HeaderValueStart;
      } else if !NameByte(c) {
        ok := false;
      } else {
        if i == |buf| - 1 {
          Notify(Field(buf[mark'..i + 1]));
        }
      }
    }

    /** States s_header_value_start and s_header_value. */
    method OnValue(buf: seq<Byte>, i: nat, mark: nat) returns (mark': nat)
      requires Valid() && (state == HeaderValueStart || state == HeaderValue) && mark <= i < |buf|
      modifies `state, `calls
      ensures Valid() && mark' <= i
      ensures Did(
        Step(boundary, old(Now()), old(Pending(buf, mark, i)), buf[i], i == |buf| - 1), true, buf, mark', i, old(calls))
    {
      mark' := mark;
      if state == HeaderValueStart {
        if buf[i] == SPACE {
          return;
        }
        mark' := i;
        state := HeaderValue;
      }
      assert buf[mark'..i + 1] == buf[mark'..i] + [buf[i]];
      if buf[i] == CR {
        Notify(Value(buf[mark'..i]));
        state := HeaderValueAlmostDone;
      } else if i == |buf| - 1 {
        Notify(Value(buf[mark'..i + 1]));
      }
    }

    /** States s_part_data_start and s_part_data. */
    method OnData(buf: seq<Byte>, i: nat, mark: nat) returns (mark': nat)
      requires Valid() && (state == PartDataStart || state == PartData) && mark <= i < |buf|
      modifies `state, `calls, lookbehind
      ensures Valid() && mark' <= i
      ensures Did(
        Step(boundary, old(Now()), old(Pending(buf, mark, i)), buf[i], i == |buf| - 1), true, buf, mark', i, old(calls))
    {
      mark' := mark;
      if state == PartDataStart {
        Notify(HeadersComplete);
        mark' := i;
        state := PartData;
      }
      assert buf[mark'..i + 1] == buf[mark'..i] + [buf[i]];
      if buf[i] == CR {
        Notify(Data(buf[mark'..i]));
        mark' := i;
        state := PartDataAlmostBoundary;
        lookbehind[0] := CR;
      } else if i == |buf| - 1 {
        Notify(Data(buf[mark'..i + 1]));
      }
    }

    /** What a step has done when the byte is to be looked at again, as data, or need not be. */
    ghost predicate DidOrWill(o: Outcome, again: bool, buf: seq<Byte>, mark: nat, i: nat, before: seq<Event>)
      requires mark <= i < |buf|
      reads this
    {
      if again then
        state == PartData && Resumes(o, Step(boundary, Now(), [], buf[i], i == |buf| - 1), before, calls)
      else Did(o, true, buf, mark, i, before)
    }

    /** State s_part_data_almost_boundary. */
    method OnAlmostBoundary(buf: seq<Byte>, i: nat) returns (again: bool)
      requires Valid() && state == PartDataAlmostBoundary && i < |buf|
      modifies `state, `index, `calls, lookbehind
      ensures Valid()
      ensures DidOrWill(Step(boundary, old(Now()), [], buf[i], i == |buf| - 1), again, buf, i, i, old(calls))
    {
      again := buf[i] != LF;
      if buf[i] == LF {
        state := PartDataBoundary;
        lookbehind[1] := LF;
        index := 0;
      } else {
        assert lookbehind[..1] == [CR];
        Notify(Data(lookbehind[..1]));
        state := PartData;
      }
    }

    /** State s_part_data_boundary. */
    method OnDelimiter(buf: seq<Byte>, i: nat) returns (again: bool)
      requires Valid() && state == PartDataBoundary && i < |buf|
      modifies this, lookbehind
      ensures Valid()
      ensures DidOrWill(Step(boundary, old(Now()), [], buf[i], i == |buf| - 1), again, buf, i, i, old(calls))
    {
      again := boundary[index] != buf[i];
      if again {
        Notify(Data(lookbehind[..2 + index]));
        state := PartData;
      } else {
        lookbehind[2 + index] := buf[i];
        index := index + 1;
        if index == |boundary| {
          Notify(PartEnd);
          state := PartDataAlmostEnd;
        }
      }
    }

    /** The states that expect one or two particular bytes. */
    method OnPunctuation(c: Byte) returns (ok: bool)
      requires Valid() && (state.HeadersAlmostDone? || state.HeaderValueAlmostDone? || state.PartDataAlmostEnd?
        || state.PartDataFinalHyphen? || state.PartDataEnd?)
      modifies `state, `calls
      ensures Valid()
      ensures match Step(boundary, old(Now()), [], c, false) {
        case Reject(m) => !ok && Now() == m && calls == old(calls)
        case Go(m, _, events) => ok && Now() == m && calls == old(calls) + events
      }
    {
      ok := true;
      match state {
        case HeadersAlmostDone =>
          if c != LF {
            ok := false;
          } else {
            state := PartDataStart;
          }
        case HeaderValueAlmostDone =>
          if c != LF {
            ok := false;
          } else {
            state := HeaderFieldStart;
          }
        case PartDataAlmostEnd =>
          if c == HYPHEN {
            state := PartDataFinalHyphen;
          } else if c == CR {
            state := PartDataEnd;
          } else {
            ok := false;
          }
        case PartDataFinalHyphen =>
          if c == HYPHEN {
            Notify(BodyEnd);
            state := End;
          } else {
            ok := false;
          }
        case PartDataEnd =>
          if c == LF {
            state := HeaderFieldStart;
            Notify(PartBegin);
          } else {
            ok := false;
          }
      }
    }

    /** What a step did, when the byte was not looked at again. */
    ghost predicate Did(o: Outcome, ok: bool, buf: seq<Byte>, mark: nat, i: nat, before: seq<Event>)
      requires mark <= i + 1 <= |buf|
      reads this
    {
      match o
      case Reject(m) => !ok && Now() == m && calls == before
      case Go(m, fragment, events) =>
        ok && Now() == m && fragment == Pending(buf, mark, i + 1) && calls == before + events
    }

    /** The switch: whether to go on, and if so whether to look at the byte again. */
    method Switch(buf: seq<Byte>, i: nat, mark: nat) returns (ok: bool, again: bool, mark': nat)
      requires Valid() && mark <= i < |buf|
      modifies this, lookbehind
      ensures Valid() && mark' <= i + 1 && (again ==> ok && state == PartData && old(state) != PartData && mark' == i)
      ensures !again ==>
        Did(
          Step(boundary, old(Now()), old(Pending(buf, mark, i)), buf[i], i == |buf| - 1), ok, buf, mark', i, old(calls))
      ensures again ==> Resumes(
        Step(boundary, old(Now()), old(Pending(buf, mark, i)), buf[i], i == |buf| - 1),
        Step(boundary, Now(), [], buf[i], i == |buf| - 1), old(calls), calls)
    {
      ok, again, mark' := true, false, mark;
      match state {
        case Start | StartBoundary =>
          ok := OnBoundary(buf[i]);
        case HeaderFieldStart | HeaderField =>
          ok, mark' := OnName(buf, i, mark);
        case HeaderValueStart | HeaderValue =>
          mark' := OnValue(buf, i, mark);
        case PartDataStart | PartData =>
          mark' := OnData(buf, i, mark);
        case PartDataAlmostBoundary =>
          again := OnAlmostBoundary(buf, i);
          mark' := i;
        case PartDataBoundary =>
          again := OnDelimiter(buf, i);
          mark' := i;
        case End =>
        case _ =>
          ok := OnPunctuation(buf[i]);
      }
    }

    /** States s_start and s_start_boundary. */
    method OnBoundary(c: Byte) returns (ok: bool)
      requires Valid() && (state == Start || state == StartBoundary)
      modifies this
      ensures Valid()
      ensures match AtBoundary(boundary, if old(state) == Start then 0 else old(index), c) {
        case Reject(m) => !ok && Now() == m && calls == old(calls)
        case Go(m, _, events) => ok && Now() == m && calls == old(calls) + events
      }
    {
      ok := true;
      if state == Start {
        index := 0;
        state := StartBoundary;
      }
      if index == |boundary| {
        if c != CR {
          ok := false;
        } else {
          index := index + 1;
        }
      } else if index == |boundary| + 1 {
        if c != LF {
          ok := false;
        } else {
          index := 0;
          Notify(PartBegin);
          state := HeaderFieldStart;
        }
      } else if c != boundary[index] {
        ok := false;
      } else {
        index := index + 1;
      }
    }

    /** One round of the loop: the switch, and i++ unless that is made up for by an i--. */
    method Advance(buf: seq<Byte>, i: nat, mark: nat, ghost whole: Reading, ghost start: seq<Event>)
      returns (ok: bool, mark': nat, i': nat)
      requires Valid() && mark <= i < |buf|
      requires Remains(whole, Run(boundary, Now(), Pending(buf, mark, i), buf[i..]), i, start, calls)
      modifies this, lookbehind
      ensures Valid() && i <= i' <= i + 1
      ensures !ok ==> whole == Reading(Now(), whole.events, i') && start + whole.events == calls
      ensures ok ==> mark' <= i' && (i' == i ==> state == PartData && old(state) != PartData)
      ensures ok ==> Remains(whole, Run(boundary, Now(), Pending(buf, mark', i'), buf[i'..]), i', start, calls)
    {
      ghost var m, fragment := Now(), Pending(buf, mark, i);
      Unroll(boundary, m, fragment, buf, i);
      var again;
      ok, again, mark' := Switch(buf, i, mark);
      i' := i;
      ghost var o := Step(boundary, m, fragment, buf[i], i == |buf| - 1);
      if again {
        assert Pending(buf, mark', i) == [];
        Unroll(boundary, Now(), [], buf, i);
        Resumed(boundary, o, Step(boundary, Now(), [], buf[i], i == |buf| - 1), buf[i + 1..], old(calls), calls);
      } else if ok {
        i' := i + 1;
        Gone(boundary, o, buf[i + 1..], old(calls), calls);
      }
    }

    /** multipart_parser_execute, with callbacks that return 0. */
    method Execute(buf: seq<Byte>) returns (r: nat)
      requires Valid()
      modifies this, lookbehind
      ensures Valid()
      ensures var reading := Run(boundary, old(Now()), [], buf);
        r == reading.consumed && Now() == reading.m && calls == old(calls) + reading.events
    {
      var i: nat, mark: nat := 0, 0;
      ghost var whole := Run(boundary, Now(), [], buf);
      assert buf[0..] == buf;
      while i < |buf|
        invariant Valid() && mark <= i <= |buf|
        invariant Remains(whole, Run(boundary, Now(), Pending(buf, mark, i), buf[i..]), i, old(calls), calls)
        decreases |buf| - i, if state == PartData then 0 else 1
      {
        var ok;
        ok, mark, i := Advance(buf, i, mark, whole, old(calls));
        if !ok {
          return i;
        }
      }
      r := |buf|;
    }
  }

  /** A step that makes callbacks and then looks at the byte again. */
  ghost predicate Resumes(whole: Outcome, rest: Outcome, before: seq<Event>, now: seq<Event>) {
    && whole.Go? && rest.Go? && whole.m == rest.m && whole.fragment == rest.fragment
    && before + whole.events == now + rest.events
  }

  /** What is left of a run when i bytes are done. */
  ghost predicate Remains(whole: Reading, rest: Reading, i: nat, before: seq<Event>, now: seq<Event>) {
    whole.m == rest.m && whole.consumed == i + rest.consumed && before + whole.events == now + rest.events
  }

  lemma {:induction false} Unroll(b: seq<Byte>, m: Machine, fragment: seq<Byte>, buf: seq<Byte>, i: nat)
    requires i < |buf|
    ensures Run(b, m, fragment, buf[i..]) == After(b, Step(b, m, fragment, buf[i], i == |buf| - 1), buf[i + 1..])
  {
    assert buf[i..][1..] == buf[i + 1..];
  }

  lemma {:induction false} Resumed(
      b: seq<Byte>, o: Outcome, o': Outcome, rest: seq<Byte>, before: seq<Event>, now: seq<Event>)
    requires Resumes(o, o', before, now)
    ensures Remains(After(b, o, rest), After(b, o', rest), 0, before, now)
  {
    var events := Run(b, o.m, o.fragment, rest).events;
    assert before + (o.events + events) == (before + o.events) + events;
    assert now + (o'.events + events) == (now + o'.events) + events;
  }

  lemma {:induction false} Gone(b: seq<Byte>, o: Outcome, rest: seq<Byte>, before: seq<Event>, now: seq<Event>)
    requires o.Go? && now == before + o.events
    ensures Remains(After(b, o, rest), Run(b, o.m, o.fragment, rest), 1, before, now)
  {
    var events := Run(b, o.m, o.fragment, rest).events;
    assert before + (o.events + events) == (before + o.events) + events;
  }
}
