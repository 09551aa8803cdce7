/** vector_downward of msgpack_flatbuffer_compare/fb/flatbuffers.h: bytes that grow towards lower addresses. */
module FlatVector {
  import opened FlatBytes

  /** Beyond this, signed offsets may not have enough range. */
  const MAX_SIZE: nat := 0x7fff_ffff

  /** The pieces of memory are aligned to 8 bytes, and so is their end. */
  const LARGEST_ALIGN: nat := 8

  /** s with the bytes at p replaced. */
  function Overwrite(s: seq<Byte>, p: nat, bytes: seq<Byte>): (r: seq<Byte>)
    requires p + |bytes| <= |s|
    ensures |r| == |s|
  {
    s[..p] + bytes + s[p + |bytes|..]
  }

  class VectorDownward {
    /** reserved_ is its length. */
    var buf: array<Byte>
    /** Between empty, below, and used, above. */
    var cur: nat

    ghost predicate Valid()
      reads this
    {
      cur <= buf.Length && buf.Length % LARGEST_ALIGN == 0
    }

    ghost function Contents(): (s: seq<Byte>)
      requires Valid()
      reads this, buf
      ensures |s| == buf.Length - cur
    {
      buf[cur..]
    }

    constructor (initialSize: nat)
      requires initialSize % LARGEST_ALIGN == 0
      ensures Valid() && Contents() == [] && fresh(buf)
    {
      buf := new Byte[initialSize];
      cur := initialSize;
    }

    method Clear()
      requires Valid()
      modifies this`cur
      ensures Valid() && Contents() == []
    {
      cur := buf.Length;
    }

    function Size(): (n: nat)
      requires Valid()
      reads this, buf
      ensures n == |Contents()|
    {
      buf.Length - cur
    }

    static function GrowthPolicy(bytes: nat): nat {
      bytes / 2 - bytes / 2 % LARGEST_ALIGN
    }

    /** The bytes move to a new piece of memory that has len bytes of room before them. */
    method Grow(len: nat)
      requires Valid()
      modifies this
      ensures Valid() && fresh(buf) && len <= cur
      ensures Contents() == old(Contents())
    {
      var oldSize := Size();
      var reserved := buf.Length + (if len < GrowthPolicy(buf.Length) then GrowthPolicy(buf.Length) else len);
      reserved := RoundUp(reserved);
      var newBuf := new Byte[reserved];
      var newCur := reserved - oldSize;
      forall i | 0 <= i < oldSize {
        newBuf[newCur + i] := buf[cur + i];
      }
      assert newBuf[newCur..] == buf[cur..];
      cur := newCur;
      buf := newBuf;
    }

    static function RoundUp(n: nat): (r: nat)
      ensures n <= r && r % LARGEST_ALIGN == 0
    {
      n + (LARGEST_ALIGN - 1) - (n + (LARGEST_ALIGN - 1)) % LARGEST_ALIGN
    }

    /** Room for len bytes before the others, which may move. */
    method MakeSpace(len: nat)
      requires Valid() && |Contents()| + len < MAX_SIZE
      modifies this
      ensures Valid() && (buf == old(buf) || fresh(buf))
      ensures |Contents()| == len + |old(Contents())| && Contents()[len..] == old(Contents())
    {
      if len > cur {
        Grow(len);
      }
      cur := cur - len;
    }

    method Push(bytes: seq<Byte>)
      requires Valid() && |Contents()| + |bytes| < MAX_SIZE
      modifies this, buf
      ensures Valid() && (buf == old(buf) || fresh(buf))
      ensures Contents() == bytes + old(Contents())
    {
      MakeSpace(|bytes|);
      ghost var rest := old(Contents());
      var i: nat := 0;
      while i < |bytes|
        invariant i <= |bytes| && forall k | 0 <= k < i :: Contents()[k] == bytes[k]
        invariant |Contents()| == |bytes| + |rest| && Contents()[|bytes|..] == rest
        modifies buf
      {
        ghost var was := Contents();
        buf[cur + i] := bytes[i];
        assert Contents() == was[i := bytes[i]];
        i := i + 1;
      }
      assert Contents()[..|bytes|] == bytes;
    }

    method Fill(n: nat)
      requires Valid() && |Contents()| + n < MAX_SIZE
      modifies this, buf
      ensures Valid() && (buf == old(buf) || fresh(buf))
      ensures Contents() == Zeros(n) + old(Contents())
    {
      MakeSpace(n);
      ghost var rest := old(Contents());
      var i: nat := 0;
      while i < n
        invariant i <= n && forall k | 0 <= k < i :: Contents()[k] == 0
        invariant |Contents()| == n + |rest| && Contents()[n..] == rest
        modifies buf
      {
        ghost var was := Contents();
        buf[cur + i] := 0;
        assert Contents() == was[i := 0];
        i := i + 1;
      }
      assert Contents()[..n] == Zeros(n);
    }

    method Pop(n: nat)
      requires Valid() && n <= |Contents()|
      modifies this`cur
      ensures Valid() && Contents() == old(Contents())[n..]
    {
      cur := cur + n;
    }

    /** WriteScalar at buf_.data() + p. */
    method WriteAt(p: nat, bytes: seq<Byte>)
      requires Valid() && p + |bytes| <= |Contents()|
      modifies buf
      ensures Contents() == Overwrite(old(Contents()), p, bytes)
    {
      ghost var was := Contents();
      forall i | 0 <= i < |bytes| {
        buf[cur + p + i] := bytes[i];
      }
      assert Contents() == Overwrite(was, p, bytes);
    }

    /** n bytes at buf_.data() + p. */
    method ReadAt(p: nat, n: nat) returns (bytes: seq<Byte>)
      requires Valid() && p + n <= |Contents()|
      ensures bytes == Contents()[p..p + n]
    {
      bytes := buf[cur + p..cur + p + n];
    }
  }
}
