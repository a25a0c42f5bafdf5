/** String buffers (Lua/strbuf.c, Lua/strbuf.h): appends that grow the buffer and unchecked
    appends that rely on an earlier reservation. */
module StrBuf {
  /** A char of the source, as an unsigned number. */
  type Byte = b: int | 0 <= b < 256

  const DEFAULT_SIZE := 1023
  const DEFAULT_INCREMENT := -2

  function Max(a: int, b: int): int {
    if a < b then b else a
  }

  /** `size` doubled `k` times. */
  function Doubled(size: nat, k: nat): nat {
    if k == 0 then size else 2 * Doubled(size, k - 1)
  }

  class Buffer {
    var buf: array<Byte>
    var length: nat
    var increment: int
    var reallocs: nat

    /** There is always room for the terminating NUL. */
    ghost predicate Valid()
      reads this
    {
      length < buf.Length && increment == DEFAULT_INCREMENT
    }

    ghost function Contents(): (s: seq<Byte>)
      reads this, buf
      requires Valid()
      ensures |s| == length
    {
      buf[..length]
    }

    constructor (len: int)
      ensures Valid() && fresh(buf) && Contents() == [] && reallocs == 0
      ensures buf.Length == if len <= 0 then DEFAULT_SIZE else len + 1
      ensures buf[0] == 0
    {
      var size := if len <= 0 then DEFAULT_SIZE else len + 1;
      buf := new Byte[size];
      length := 0;
      increment := DEFAULT_INCREMENT;
      reallocs := 0;
      new;
      EnsureNull();
    }

    function EmptyLength(): int
      reads this
    {
      buf.Length - length - 1
    }

    /** The result is what is needed (a shrink), or the old size doubled until it is enough. */
    method CalculateNewSize(len: int) returns (newSize: nat)
      requires Valid() && len > 0
      ensures newSize >= len + 1
      ensures buf.Length > len + 1 ==> newSize == len + 1
      ensures buf.Length <= len + 1 ==> newSize == buf.Length || newSize < 2 * (len + 1)
      ensures buf.Length <= len + 1 ==> exists k :: newSize == Doubled(buf.Length, k)
    {
      var reqSize := len + 1;
      if buf.Length > reqSize { return reqSize; }
      newSize := buf.Length;
      ghost var k := 0;
      assert newSize == Doubled(buf.Length, k);
      while newSize < reqSize
        invariant 0 < newSize == Doubled(buf.Length, k)
        invariant newSize == buf.Length || newSize < 2 * reqSize
        decreases reqSize - newSize
      {
        newSize := newSize * -increment;
        k := k + 1;
      }
    }

    method Resize(len: int)
      requires Valid() && len > 0
      modifies this`buf, this`reallocs
      ensures fresh(buf) && reallocs == old(reallocs) + 1 && buf.Length >= len + 1
      ensures old(buf.Length) > len + 1 ==> buf.Length == len + 1
      ensures old(buf.Length) <= len + 1 ==> buf.Length == old(buf.Length) || buf.Length < 2 * (len + 1)
      ensures forall i :: 0 <= i < old(buf.Length) && i < buf.Length ==> buf[i] == old(buf[i])
    {
      var newSize := CalculateNewSize(len);
      var kept := if newSize < buf.Length then newSize else buf.Length;
      var newBuf := new Byte[newSize];
      for i := 0 to kept
        invariant unchanged(this) && forall j :: 0 <= j < i ==> newBuf[j] == buf[j]
      {
        newBuf[i] := buf[i];
      }
      buf := newBuf;
      reallocs := reallocs + 1;
    }

    /** Makes room; when there is room already, nothing moves. */
    method EnsureEmptyLength(len: nat)
      requires Valid()
      modifies this`buf, this`reallocs
      ensures Valid() && EmptyLength() >= len && Contents() == old(Contents())
      ensures buf == old(buf) || fresh(buf)
      ensures if old(EmptyLength()) >= len then buf == old(buf) && reallocs == old(reallocs) else reallocs == old(reallocs) + 1
      ensures buf.Length <= Max(old(buf.Length), 2 * (length + len + 1))
    {
      if len > EmptyLength() {
        Resize(length + len);
      }
    }

    method AppendChar(c: Byte)
      requires Valid()
      modifies this`buf, this`reallocs, this`length, buf
      ensures Valid() && Contents() == old(Contents()) + [c]
      ensures buf == old(buf) || fresh(buf)
    {
      EnsureEmptyLength(1);
      AppendCharUnsafe(c);
    }

    method AppendCharUnsafe(c: Byte)
      requires Valid() && EmptyLength() >= 1
      modifies this`length, buf
      ensures Valid() && Contents() == old(Contents()) + [c]
    {
      buf[length] := c;
      length := length + 1;
    }

    method AppendMem(c: seq<Byte>)
      requires Valid()
      modifies this`buf, this`reallocs, this`length, buf
      ensures Valid() && Contents() == old(Contents()) + c
      ensures buf == old(buf) || fresh(buf)
    {
      EnsureEmptyLength(|c|);
      AppendMemUnsafe(c);
    }

    method AppendMemUnsafe(c: seq<Byte>)
      requires Valid() && EmptyLength() >= |c|
      modifies this`length, buf
      ensures Valid() && Contents() == old(Contents()) + c
    {
      for i := 0 to |c|
        invariant unchanged(this) && forall j :: 0 <= j < length ==> buf[j] == old(buf[j])
        invariant forall j :: 0 <= j < i ==> buf[length + j] == c[j]
      {
        buf[length + i] := c[i];
      }
      length := length + |c|;
    }

    /** Appends one char after the other and grows when the space counted at the start is used
        up; with room for the whole string the buffer stays where it is. */
    method AppendString(str: seq<Byte>)
      requires Valid()
      modifies this`buf, this`reallocs, this`length, buf
      ensures Valid() && Contents() == old(Contents()) + str
      ensures buf == old(buf) || fresh(buf)
      ensures old(EmptyLength()) >= |str| ==> buf == old(buf) && reallocs == old(reallocs)
    {
      var space := EmptyLength();
      for i := 0 to |str|
        invariant Valid() && space == EmptyLength() && Contents() == old(Contents()) + str[..i]
        invariant buf == old(buf) || fresh(buf)
        invariant old(EmptyLength()) >= |str| ==> buf == old(buf) && reallocs == old(reallocs) && space >= |str| - i
      {
        if space < 1 {
          Resize(length + 1);
          assert buf[..length] == old(Contents()) + str[..i];
          space := EmptyLength();
        }
        ghost var before := Contents();
        buf[length] := str[i];
        length := length + 1;
        space := space - 1;
        assert Contents() == before + [str[i]];
      }
    }

    method EnsureNull()
      requires Valid()
      modifies buf
      ensures Valid() && Contents() == old(Contents()) && buf[length] == 0
    {
      buf[length] := 0;
    }

    method Reset()
      requires Valid()
      modifies this`length
      ensures Valid() && Contents() == []
    {
      length := 0;
    }
  }
}
