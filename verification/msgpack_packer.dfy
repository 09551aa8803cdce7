/** The packer of msgpack_flatbuffer_compare/mp/msgpack/pack.hpp and the packing of objects in object.hpp. */
module MsgpackPacker {
  import opened Sequences
  import opened MsgpackFormat

  /** The low byte, take8_8 and its relatives. */
  function Low(d: int): (b: Byte)
    requires -P7 <= d < P8
    ensures b == if d < 0 then d + P8 else d
  {
    d % P8
  }

  /** The conversions to unsigned words. */
  function Low16(d: int): (n: int)
    requires -P15 <= d < P16
    ensures 0 <= n < P16 && n == if d < 0 then d + P16 else d
  {
    d % P16
  }

  function Low32(d: int): (n: int)
    requires -P31 <= d < P32
    ensures 0 <= n < P32 && n == if d < 0 then d + P32 else d
  {
    d % P32
  }

  function Low64(d: int): (n: int)
    requires -P63 <= d < P64
    ensures 0 <= n < P64 && n == if d < 0 then d + P64 else d
  {
    d % P64
  }

  class Packer {
    /** The bytes of the stream. */
    var stream: seq<Byte>

    constructor ()
      ensures stream == []
    {
      stream := [];
    }

    method AppendBuffer(b: seq<Byte>)
      modifies this
      ensures stream == old(stream) + b
    {
      stream := stream + b;
    }

    // ----- Integers: every width writes the same, shortest form -------------------------------

    method PackImpUint8(d: int)
      requires 0 <= d < P8
      modifies this
      ensures stream == old(stream) + WriteInteger(d)
    {
      var buf: seq<Byte>;
      if d < P7 {
        buf := [Low(d)];
      } else {
        buf := [0xcc, Low(d)];
      }
      AppendBuffer(buf);
    }

    method PackImpUint16(d: int)
      requires 0 <= d < P16
      modifies this
      ensures stream == old(stream) + WriteInteger(d)
    {
      var buf: seq<Byte>;
      if d < P7 {
        buf := [Low(d)];
      } else if d < P8 {
        buf := [0xcc, Low(d)];
      } else {
        buf := [0xcd] + Big2(Low16(d));
      }
      AppendBuffer(buf);
    }

    method PackImpUint32(d: int)
      requires 0 <= d < P32
      modifies this
      ensures stream == old(stream) + WriteInteger(d)
    {
      var buf: seq<Byte>;
      if d < P8 {
        if d < P7 {
          buf := [Low(d)];
        } else {
          buf := [0xcc, Low(d)];
        }
      } else {
        if d < P16 {
          buf := [0xcd] + Big2(Low16(d));
        } else {
          buf := [0xce] + Big4(Low32(d));
        }
      }
      AppendBuffer(buf);
    }

    method PackImpUint64(d: int)
      requires 0 <= d < P64
      modifies this
      ensures stream == old(stream) + WriteInteger(d)
    {
      var buf: seq<Byte>;
      if d < P8 {
        if d < P7 {
          buf := [Low(d)];
        } else {
          buf := [0xcc, Low(d)];
        }
      } else {
        if d < P16 {
          buf := [0xcd] + Big2(Low16(d));
        } else if d < P32 {
          buf := [0xce] + Big4(Low32(d));
        } else {
          buf := [0xcf] + Big8(Low64(d));
        }
      }
      AppendBuffer(buf);
    }

    method PackImpInt8(d: int)
      requires -P7 <= d < P7
      modifies this
      ensures stream == old(stream) + WriteInteger(d)
    {
      var buf: seq<Byte>;
      if d < -32 {
        buf := [0xd0, Low(d)];
      } else {
        buf := [Low(d)];
      }
      AppendBuffer(buf);
    }

    method PackImpInt16(d: int)
      requires -P15 <= d < P15
      modifies this
      ensures stream == old(stream) + WriteInteger(d)
    {
      var buf: seq<Byte>;
      if d < -32 {
        if d < -P7 {
          buf := [0xd1] + Big2(Low16(d));
        } else {
          buf := [0xd0, Low(d)];
        }
      } else if d < P7 {
        buf := [Low(d)];
      } else {
        if d < P8 {
          buf := [0xcc, Low(d)];
        } else {
          buf := [0xcd] + Big2(Low16(d));
        }
      }
      AppendBuffer(buf);
    }

    method PackImpInt32(d: int)
      requires -P31 <= d < P31
      modifies this
      ensures stream == old(stream) + WriteInteger(d)
    {
      var buf: seq<Byte>;
      if d < -32 {
        if d < -P15 {
          buf := [0xd2] + Big4(Low32(d));
        } else if d < -P7 {
          buf := [0xd1] + Big2(Low16(d));
        } else {
          buf := [0xd0, Low(d)];
        }
      } else if d < P7 {
        buf := [Low(d)];
      } else {
        if d < P8 {
          buf := [0xcc, Low(d)];
        } else if d < P16 {
          buf := [0xcd] + Big2(Low16(d));
        } else {
          buf := [0xce] + Big4(Low32(d));
        }
      }
      AppendBuffer(buf);
    }

    method PackImpInt64(d: int)
      requires -P63 <= d < P63
      modifies this
      ensures stream == old(stream) + WriteInteger(d)
    {
      var buf: seq<Byte>;
      if d < -32 {
        if d < -P15 {
          if d < -P31 {
            buf := [0xd3] + Big8(Low64(d));
          } else {
            buf := [0xd2] + Big4(Low32(d));
          }
        } else {
          if d < -P7 {
            buf := [0xd1] + Big2(Low16(d));
          } else {
            buf := [0xd0, Low(d)];
          }
        }
      } else if d < P7 {
        buf := [Low(d)];
      } else {
        if d < P16 {
          if d < P8 {
            buf := [0xcc, Low(d)];
          } else {
            buf := [0xcd] + Big2(Low16(d));
          }
        } else {
          if d < P32 {
            buf := [0xce] + Big4(Low32(d));
          } else {
            buf := [0xcf] + Big8(Low64(d));
          }
        }
      }
      AppendBuffer(buf);
    }

    // ----- Sizes ------------------------------------------------------------------------------

    method PackArray(n: int)
      requires 0 <= n < P32
      modifies this
      ensures stream == old(stream) + WriteHead(ArrayHead(n))
    {
      if n < 16 {
        AppendBuffer([0x90 + n]);
      } else if n < P16 {
        AppendBuffer([0xdc] + Big2(n));
      } else {
        AppendBuffer([0xdd] + Big4(n));
      }
    }

    method PackMap(n: int)
      requires 0 <= n < P32
      modifies this
      ensures stream == old(stream) + WriteHead(MapHead(n))
    {
      if n < 16 {
        AppendBuffer([0x80 + n]);
      } else if n < P16 {
        AppendBuffer([0xde] + Big2(n));
      } else {
        AppendBuffer([0xdf] + Big4(n));
      }
    }

    method PackStr(l: int)
      requires 0 <= l < P32
      modifies this
      ensures stream == old(stream) + WriteHead(StrHead(l))
    {
      if l < 32 {
        AppendBuffer([0xa0 + l]);
      } else if l < P8 {
        AppendBuffer([0xd9, l]);
      } else if l < P16 {
        AppendBuffer([0xda] + Big2(l));
      } else {
        AppendBuffer([0xdb] + Big4(l));
      }
    }

    method PackBin(l: int)
      requires 0 <= l < P32
      modifies this
      ensures stream == old(stream) + WriteHead(BinHead(l))
    {
      if l < P8 {
        AppendBuffer([0xc4, l]);
      } else if l < P16 {
        AppendBuffer([0xc5] + Big2(l));
      } else {
        AppendBuffer([0xc6] + Big4(l));
      }
    }

    method PackExt(l: int, kind: int)
      requires 0 <= l < P32 && -P7 <= kind < P7
      modifies this
      ensures stream == old(stream) + WriteHead(ExtHead(l, kind))
    {
      if l == 1 {
        AppendBuffer([0xd4, Low(kind)]);
      } else if l == 2 {
        AppendBuffer([0xd5, Low(kind)]);
      } else if l == 4 {
        AppendBuffer([0xd6, Low(kind)]);
      } else if l == 8 {
        AppendBuffer([0xd7, Low(kind)]);
      } else if l == 16 {
        AppendBuffer([0xd8, Low(kind)]);
      } else if l < P8 {
        AppendBuffer([0xc7, l, Low(kind)]);
      } else if l < P16 {
        AppendBuffer([0xc8] + Big2(l) + [Low(kind)]);
      } else {
        AppendBuffer([0xc9] + Big4(l) + [Low(kind)]);
      }
    }

    method PackDouble(bits: int)
      requires 0 <= bits < P64
      modifies this
      ensures stream == old(stream) + WriteHead(FloatHead(bits))
    {
      AppendBuffer([0xcb] + Big8(bits));
    }

    // ----- Objects ----------------------------------------------------------------------------

    /** What each case of operator<< writes first. */
    method PackHead(x: Object)
      requires Good(x)
      modifies this
      ensures stream == old(stream) + WriteHead(HeadOf(x))
    {
      match x {
        case Nil => AppendBuffer([0xc0]);
        case Boolean(b) => AppendBuffer([if b then 0xc3 else 0xc2]);
        case PositiveInteger(u) => PackImpUint64(u);
        case NegativeInteger(i) => PackImpInt64(i);
        case Float(bits) => PackDouble(bits);
        case Str(bytes) => PackStr(|bytes|);
        case Bin(bytes) => PackBin(|bytes|);
        case Ext(kind, bytes) => PackExt(|bytes|, kind);
        case Array(items) => PackArray(|items|);
        case Map(pairs) => PackMap(|pairs|);
      }
    }

    /** operator<<(packer<Stream>&, object const&) */
    method Pack(x: Object)
      requires Good(x)
      modifies this
      ensures stream == old(stream) + Write(x)
      decreases x, 0
    {
      PackHead(x);
      ghost var before, head := old(stream), WriteHead(HeadOf(x));
      match x {
        case Str(bytes) =>
          AppendBuffer(bytes);
          Assoc(before, head, bytes);
        case Bin(bytes) =>
          AppendBuffer(bytes);
          Assoc(before, head, bytes);
        case Ext(_, bytes) =>
          AppendBuffer(bytes);
          Assoc(before, head, bytes);
        case Array(items) =>
          PackItems(items);
          Assoc(before, head, WriteAll(items));
        case Map(pairs) =>
          PackPairs(pairs);
          Assoc(before, head, WritePairs(pairs));
        case _ =>
      }
    }

    /** The loop over the elements of an array. */
    method PackItems(items: seq<Object>)
      requires forall i :: 0 <= i < |items| ==> Good(items[i])
      modifies this
      ensures stream == old(stream) + WriteAll(items)
      decreases items, 1
    {
      var i := 0;
      assert items[0..] == items;
      while i < |items|
        invariant i <= |items| && stream + WriteAll(items[i..]) == old(stream) + WriteAll(items)
      {
        WriteNext(items, i);
        Assoc(stream, Write(items[i]), WriteAll(items[i + 1..]));
        Pack(items[i]);
        i := i + 1;
      }
      assert items[i..] == [] && stream + [] == stream;
    }

    /** The loop over the pairs of a map. */
    method PackPairs(pairs: seq<Pair>)
      requires forall i :: 0 <= i < |pairs| ==> Good(pairs[i].key) && Good(pairs[i].val)
      modifies this
      ensures stream == old(stream) + WritePairs(pairs)
      decreases pairs, 1
    {
      var i := 0;
      assert pairs[0..] == pairs;
      while i < |pairs|
        invariant i <= |pairs| && stream + WritePairs(pairs[i..]) == old(stream) + WritePairs(pairs)
      {
        WriteNextPair(pairs, i);
        Assoc(stream, WritePair(pairs[i]), WritePairs(pairs[i + 1..]));
        PackPair(pairs[i]);
        i := i + 1;
      }
      assert pairs[i..] == [] && stream + [] == stream;
    }

    method PackPair(p: Pair)
      requires Good(p.key) && Good(p.val)
      modifies this
      ensures stream == old(stream) + WritePair(p)
      decreases p, 0
    {
      Assoc(stream, Write(p.key), Write(p.val));
      Pack(p.key);
      Pack(p.val);
    }
  }

  lemma {:induction false} WriteNext(items: seq<Object>, i: nat)
    requires i < |items| && forall i :: 0 <= i < |items| ==> Good(items[i])
    ensures WriteAll(items[i..]) == Write(items[i]) + WriteAll(items[i + 1..])
  {
    assert items[i..][1..] == items[i + 1..];
  }

  lemma {:induction false} WriteNextPair(pairs: seq<Pair>, i: nat)
    requires i < |pairs| && forall i :: 0 <= i < |pairs| ==> Good(pairs[i].key) && Good(pairs[i].val)
    ensures WritePairs(pairs[i..]) == WritePair(pairs[i]) + WritePairs(pairs[i + 1..])
  {
    assert pairs[i..][1..] == pairs[i + 1..];
  }
}
