/** The growable, compacting byte buffer behind every connection: one array and the two ends of the
    data in it. Whatever grows, moves or shrinks, the contents stay what was written and not yet
    read. */
module DataBuffers {

  type Byte = b: int | 0 <= b < 256

  datatype Option<T> = None | Some(value: T)

  const INITIAL_BUFFER_SIZE: nat := 1024

  /** The bytes of pieces in order. */
  function Concat(pieces: seq<seq<Byte>>): seq<Byte> {
    if |pieces| == 0 then [] else pieces[0] + Concat(pieces[1..])
  }

  /** A 32-bit word as four bytes, most significant first. */
  function Word(n: nat): (s: seq<Byte>)
    requires n < 0x1_0000_0000
    ensures |s| == 4
  {
    [n / 0x100_0000, n / 0x1_0000 % 0x100, n / 0x100 % 0x100, n % 0x100]
  }

  function Value(s: seq<Byte>): (n: nat)
    requires |s| == 4
    ensures n < 0x1_0000_0000
  {
    var a: int, b: int, c: int, d: int := s[0], s[1], s[2], s[3];
    ((a * 0x100 + b) * 0x100 + c) * 0x100 + d
  }

  /** Reading a word undoes writing it. */
  lemma ValueOfWord(n: nat)
    requires n < 0x1_0000_0000
    ensures Value(Word(n)) == n
  {
    var a, b := n / 0x100, n / 0x1_0000;
    assert b == a / 0x100 && n / 0x100_0000 == b / 0x100;
  }

  lemma WordOfValue(s: seq<Byte>)
    requires |s| == 4
    ensures Word(Value(s)) == s
  {
    var a: int := s[0] as int * 0x100 + s[1];
    var b: int := a * 0x100 + s[2];
    assert Value(s) == b * 0x100 + s[3];
    assert Value(s) / 0x100 == b && Value(s) % 0x100 == s[3];
    assert b / 0x100 == a && b % 0x100 == s[2];
    assert a / 0x100 == s[0] && a % 0x100 == s[1];
    assert Value(s) / 0x1_0000 == a && Value(s) / 0x100_0000 == s[0];
  }

  class DataBuffer {
    var buf: array?<Byte>
    var data: nat
    var free: nat

    ghost predicate Valid()
      reads this
    {
      if buf == null then data == 0 && free == 0 else data <= free <= buf.Length && buf.Length > 0
    }

    /** What has been written and not yet read. */
    ghost function Contents(): seq<Byte>
      requires Valid()
      reads this, buf
    {
      if buf == null then [] else buf[data..free]
    }

    ghost predicate Room(need: nat)
      requires Valid()
      reads this
    {
      buf != null && buf.Length - free >= need
    }

    constructor ()
      ensures Valid() && buf == null && Contents() == []
    {
      buf, data, free := null, 0, 0;
    }

    method DataLen() returns (n: nat)
      requires Valid()
      ensures n == |Contents()|
    {
      n := free - data;
    }

    /** expand: allocates, compacts or moves to a larger array, so that need bytes fit behind the data. */
    method EnsureFree(need: nat)
      requires Valid()
      modifies this, buf
      ensures Valid() && Room(need) && Contents() == old(Contents())
      ensures buf == old(buf) || fresh(buf)
    {
      if buf == null {
        var len := INITIAL_BUFFER_SIZE;
        while len < need
          invariant len > 0
        {
          len := len * 2;
        }
        buf := new Byte[len](_ => 0);
      } else if buf.Length - free < need {
        var freeLen := (buf.Length - free) + data;
        var dataLen := free - data;
        if freeLen < need || freeLen * 4 < dataLen {
          Grow(need, dataLen);
        } else {
          Compact(dataLen);
        }
      }
    }

    method Grow(need: nat, dataLen: nat)
      requires Valid() && buf != null && dataLen == free - data
      modifies this
      ensures Valid() && Room(need) && fresh(buf) && Contents() == old(Contents())
    {
      var size := (buf.Length * 2) as real;
      while size - dataLen as real < need as real
        invariant size >= 2.0 && size >= (buf.Length * 2) as real
        decreases (need + dataLen) as real - size
      {
        size := size * 1.5;
      }
      var bigger := new Byte[size.Floor](_ => 0);
      forall i | 0 <= i < dataLen {
        bigger[i] := buf[data + i];
      }
      assert bigger[..dataLen] == buf[data..free];
      buf, data, free := bigger, 0, dataLen;
    }

    method Compact(dataLen: nat)
      requires Valid() && buf != null && dataLen == free - data
      modifies this, buf
      ensures Valid() && buf == old(buf) && data == 0 && free == dataLen && Contents() == old(Contents())
    {
      ghost var was := buf[data..free];
      forall i | 0 <= i < dataLen {
        buf[i] := buf[data + i];
      }
      assert buf[..dataLen] == was;
      data, free := 0, dataLen;
    }

    /** Gives back what is not needed. */
    method Shrink()
      requires Valid()
      modifies this
      ensures Valid() && Contents() == old(Contents()) && (buf != null ==> fresh(buf) && buf.Length == |Contents()|)
    {
      if buf == null {
        return;
      }
      var dataLen := free - data;
      if dataLen > 0 {
        var exact := new Byte[dataLen](_ => 0);
        forall i | 0 <= i < dataLen {
          exact[i] := buf[data + i];
        }
        assert exact[..] == buf[data..free];
        buf, data, free := exact, 0, dataLen;
      } else {
        buf, data, free := null, 0, 0;
      }
    }

    method WriteBytes(src: seq<Byte>)
      requires Valid()
      modifies this, buf
      ensures Valid() && Contents() == old(Contents()) + src && (buf == old(buf) || fresh(buf))
    {
      EnsureFree(|src|);
      ghost var was := Contents();
      CopyIn(buf, free, src);
      free := free + |src|;
      assert Contents() == was + src;
    }

    /** What a read from the socket does: room for a full read, then the bytes that came. */
    method Receive(room: nat, chunk: seq<Byte>)
      requires Valid() && |chunk| <= room
      modifies this, buf
      ensures Valid() && Contents() == old(Contents()) + chunk && (buf == old(buf) || fresh(buf))
    {
      EnsureFree(room);
      WriteBytes(chunk);
    }

    method WriteInt8(n: Byte)
      requires Valid()
      modifies this, buf
      ensures Valid() && Contents() == old(Contents()) + [n] && (buf == old(buf) || fresh(buf))
    {
      EnsureFree(1);
      ghost var was := Contents();
      buf[free] := n;
      free := free + 1;
      assert Contents() == was + [n];
    }

    method WriteInt32(n: nat)
      requires Valid() && n < 0x1_0000_0000
      modifies this, buf
      ensures Valid() && Contents() == old(Contents()) + Word(n) && (buf == old(buf) || fresh(buf))
    {
      EnsureFree(4);
      ghost var was := Contents();
      PutWord(buf, free, n);
      free := free + 4;
      assert Contents() == was + Word(n);
    }

    /** Overwrites four bytes of the data that begin at the given offset. */
    method FillInt32(offset: nat, n: nat)
      requires Valid() && n < 0x1_0000_0000 && offset + 4 <= |Contents()|
      modifies buf
      ensures Valid() && Contents() == old(Contents())[..offset] + Word(n) + old(Contents())[offset + 4..]
    {
      PutWord(buf, data + offset, n);
    }

    method ReadInt32() returns (n: nat)
      requires Valid() && |Contents()| >= 4
      modifies `data
      ensures Valid() && n == Value(old(Contents())[..4]) && Contents() == old(Contents())[4..]
    {
      n := buf[data];
      n := n * 0x100 + buf[data + 1];
      n := n * 0x100 + buf[data + 2];
      n := n * 0x100 + buf[data + 3];
      data := data + 4;
    }

    method ReadInt8() returns (n: Byte)
      requires Valid() && |Contents()| >= 1
      modifies `data
      ensures Valid() && n == old(Contents())[0] && Contents() == old(Contents())[1..]
    {
      n := buf[data];
      data := data + 1;
    }

    /** Drops len bytes, or all of them; an empty buffer starts again at its beginning. */
    method DrainData(len: nat)
      requires Valid()
      modifies `data, `free
      ensures Valid() && Contents() == if len < |old(Contents())| then old(Contents())[len..] else []
    {
      data := data + len;
      if data > free {
        data := free;
      }
      if data == free {
        data, free := 0, 0;
      }
    }

    /** Takes back the last len bytes. */
    method StripData(len: nat)
      requires Valid() && len <= |Contents()|
      modifies `free
      ensures Valid() && Contents() == old(Contents())[..|old(Contents())| - len]
    {
      free := free - len;
    }
  }

  method CopyIn(a: array<Byte>, at: nat, src: seq<Byte>)
    requires at + |src| <= a.Length
    modifies a
    ensures a[..] == old(a[..at]) + src + old(a[at + |src|..])
  {
    forall i | 0 <= i < |src| {
      a[at + i] := src[i];
    }
  }

  /** Four bytes of an array, the least significant one last. */
  method PutWord(a: array<Byte>, at: nat, n: nat)
    requires at + 4 <= a.Length && n < 0x1_0000_0000
    modifies a
    ensures a[..] == old(a[..at]) + Word(n) + old(a[at + 4..])
  {
    var m := n;
    a[at + 3] := m % 0x100;
    m := m / 0x100;
    a[at + 2] := m % 0x100;
    m := m / 0x100;
    a[at + 1] := m % 0x100;
    m := m / 0x100;
    a[at] := m % 0x100;
  }
}
