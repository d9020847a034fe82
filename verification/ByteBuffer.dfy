/** The connection buffer (net/mqtt_buffer.c): a list of fixed-size chunks, each with a read and a write
    index, that behaves as one queue of bytes. */
module ByteBuffer {
  type byte = x: int | 0 <= x < 256

  const CHUNK_MIN: nat := 512

  /** A chunk; `buf` keeps its length for the life of the chunk. */
  datatype Chunk = Chunk(buf: seq<byte>, readIdx: nat, writeIdx: nat) {
    predicate Valid() {
      readIdx <= writeIdx <= |buf|
    }

    function Data(): seq<byte>
      requires Valid()
    {
      buf[readIdx..writeIdx]
    }

    /** Copying bytes behind the written ones. */
    function Write(data: seq<byte>): (c: Chunk)
      requires Valid() && |data| <= |buf| - writeIdx
      ensures c.Valid() && |c.buf| == |buf| && c.Data() == Data() + data
    {
      var c := Chunk(buf[..writeIdx] + data + buf[writeIdx + |data|..], readIdx, writeIdx + |data|);
      assert c.buf[..writeIdx] == buf[..writeIdx];
      assert c.Data() == c.buf[..writeIdx][readIdx..] + c.buf[writeIdx..writeIdx + |data|];
      c
    }

    /** buffer_chunk_realign: moving the unread bytes to the front. */
    function Realign(): (c: Chunk)
      requires Valid()
      ensures c.Valid() && |c.buf| == |buf| && c.Data() == Data() && c.readIdx == 0 && c.writeIdx == writeIdx - readIdx
    {
      if readIdx == 0 then this
      else Chunk(buf[readIdx..writeIdx] + buf[writeIdx - readIdx..], 0, writeIdx - readIdx)
    }
  }

  function NewChunk(size: nat): (c: Chunk)
    ensures c.Valid() && c.Data() == [] && c.writeIdx == 0 && |c.buf| >= size
  {
    Chunk(seq(if size < CHUNK_MIN then CHUNK_MIN else size, _ => 0), 0, 0)
  }

  /** The bytes of a list of chunks, in order. */
  function Bytes(cs: seq<Chunk>): seq<byte>
    requires forall i :: 0 <= i < |cs| ==> cs[i].Valid()
  {
    if cs == [] then [] else cs[0].Data() + Bytes(cs[1..])
  }

  lemma {:induction false} BytesAppend(a: seq<Chunk>, b: seq<Chunk>)
    requires forall i :: 0 <= i < |a| ==> a[i].Valid()
    requires forall i :: 0 <= i < |b| ==> b[i].Valid()
    ensures Bytes(a + b) == Bytes(a) + Bytes(b)
  {
    if a == [] {
      assert a + b == b;
    } else {
      assert (a + b)[1..] == a[1..] + b;
      BytesAppend(a[1..], b);
    }
  }

  lemma BytesLast(cs: seq<Chunk>, c: Chunk)
    requires cs != [] && c.Valid()
    requires forall i :: 0 <= i < |cs| ==> cs[i].Valid()
    ensures Bytes(cs) == Bytes(cs[..|cs| - 1]) + cs[|cs| - 1].Data()
    ensures Bytes(cs[|cs| - 1 := c]) == Bytes(cs[..|cs| - 1]) + c.Data()
  {
    var front := cs[..|cs| - 1];
    assert cs == front + [cs[|cs| - 1]] && cs[|cs| - 1 := c] == front + [c];
    BytesAppend(front, [cs[|cs| - 1]]);
    BytesAppend(front, [c]);
    assert [c][1..] == [] && [cs[|cs| - 1]][1..] == [];
  }

  /** No chunk is empty. */
  predicate Filled(cs: seq<Chunk>) {
    forall i :: 0 <= i < |cs| ==> cs[i].Valid() && cs[i].readIdx < cs[i].writeIdx
  }

  /** Taking n bytes off the front: whole chunks, then part of one. */
  function Drop(cs: seq<Chunk>, n: nat): seq<Chunk>
    requires Filled(cs)
    decreases |cs|
  {
    if cs == [] then []
    else if n >= cs[0].writeIdx - cs[0].readIdx then Drop(cs[1..], n - (cs[0].writeIdx - cs[0].readIdx))
    else [cs[0].(readIdx := cs[0].readIdx + n)] + cs[1..]
  }

  /** Taking bytes off two parts: all of the first and some of the second, or some of the first. */
  lemma DropParts(x: seq<byte>, y: seq<byte>, n: nat)
    requires n <= |x| + |y|
    ensures (x + y)[n..] == if n >= |x| then y[n - |x|..] else x[n..] + y
  {
  }

  lemma {:induction false} DropBytes(cs: seq<Chunk>, n: nat)
    requires Filled(cs) && n <= |Bytes(cs)|
    ensures Filled(Drop(cs, n)) && Bytes(Drop(cs, n)) == Bytes(cs)[n..]
    decreases |cs|
  {
    if cs != [] {
      var first, rest := cs[0].Data(), cs[1..];
      DropParts(first, Bytes(rest), n);
      if n >= |first| {
        DropBytes(rest, n - |first|);
      } else {
        var c := cs[0].(readIdx := cs[0].readIdx + n);
        assert c.Data() == first[n..];
        assert ([c] + rest)[1..] == rest;
      }
    }
  }

  function Min(a: nat, b: nat): nat { if a < b then a else b }

  class Buffer {
    var chunks: seq<Chunk>
    var readableBytes: nat

    /** The counter is the number of bytes. */
    ghost predicate Valid()
      reads this
    {
      && Filled(chunks)
      && readableBytes == |Bytes(chunks)|
    }

    ghost function Contents(): seq<byte>
      requires Valid()
      reads this
    {
      Bytes(chunks)
    }

    constructor ()
      ensures Valid() && Contents() == []
    {
      chunks, readableBytes := [], 0;
    }

    method Append(data: seq<byte>)
      requires Valid()
      modifies this
      ensures Valid() && Contents() == old(Contents()) + data
    {
      if data == [] {
        return;
      }
      if chunks == [] {
        AppendChunk(data);
        return;
      }
      var last := chunks[|chunks| - 1];
      if |last.buf| - last.writeIdx >= |data| {
        ReplaceLast(last.Write(data), data);
      } else if |last.buf| - (last.writeIdx - last.readIdx) >= |data| {
        ReplaceLast(last.Realign().Write(data), data);
      } else {
        var writable := |last.buf| - last.writeIdx;
        ReplaceLast(last.Write(data[..writable]), data[..writable]);
        AppendChunk(data[writable..]);
        assert data == data[..writable] + data[writable..];
      }
    }

    /** The last chunk has been written to. */
    method ReplaceLast(c: Chunk, data: seq<byte>)
      requires Valid() && chunks != [] && c.Valid() && c.Data() == chunks[|chunks| - 1].Data() + data
      modifies this
      ensures Valid() && Contents() == old(Contents()) + data
    {
      BytesLast(chunks, c);
      assert |c.Data()| > 0;
      chunks := chunks[|chunks| - 1 := c];
      readableBytes := readableBytes + |data|;
    }

    /** A new chunk of sufficient size at the end. */
    method AppendChunk(data: seq<byte>)
      requires Valid() && data != []
      modifies this
      ensures Valid() && Contents() == old(Contents()) + data
    {
      var c := NewChunk(|data|).Write(data);
      BytesAppend(chunks, [c]);
      assert [c][1..] == [];
      chunks := chunks + [c];
      readableBytes := readableBytes + |data|;
    }

    /** buffer_read_internal: whole chunks first, then part of one; `remove` frees what was copied. */
    method ReadInternal(n: nat, remove: bool) returns (data: seq<byte>)
      requires Valid()
      modifies this`chunks
      ensures data == old(Contents())[..Min(n, readableBytes)]
      ensures chunks == if remove then Drop(old(chunks), |data|) else old(chunks)
    {
      var size: nat := Min(n, readableBytes);
      data := [];
      var cs := chunks;
      var rest := cs;
      ghost var all, total: nat := Bytes(cs), size;
      while rest != [] && size >= rest[0].writeIdx - rest[0].readIdx
        invariant Filled(rest) && |data| + size == total && chunks == cs
        invariant data + Bytes(rest) == all && Drop(rest, size) == Drop(cs, total)
        decreases |rest|
      {
        var d := rest[0].Data();
        Assoc(data, d, Bytes(rest[1..]));
        data := data + d;
        size := size - (rest[0].writeIdx - rest[0].readIdx);
        rest := rest[1..];
      }
      CopyRest(data, rest, size);
      if rest != [] && size > 0 {
        var d := rest[0].Data()[..size];
        data := data + d;
        rest := [rest[0].(readIdx := rest[0].readIdx + size)] + rest[1..];
      } else {
        assert rest != [] ==> [rest[0]] + rest[1..] == rest;
      }
      assert |data| == total && rest == Drop(cs, total);
      if remove {
        chunks := rest;
      }
    }

    method Peek(n: nat) returns (data: seq<byte>)
      requires Valid()
      modifies this`chunks
      ensures Valid() && Contents() == old(Contents())
      ensures data == Contents()[..Min(n, |Contents()|)]
    {
      data := ReadInternal(n, false);
    }

    method Read(n: nat) returns (data: seq<byte>)
      requires Valid()
      modifies this
      ensures Valid()
      ensures data == old(Contents())[..Min(n, |old(Contents())|)]
      ensures Contents() == old(Contents())[Min(n, |old(Contents())|)..]
    {
      DropBytes(chunks, Min(n, readableBytes));
      data := ReadInternal(n, true);
      readableBytes := readableBytes - |data|;
    }

    method Remove(n: nat)
      requires Valid()
      modifies this
      ensures Valid() && Contents() == old(Contents())[Min(n, |old(Contents())|)..]
    {
      var size: nat := Min(n, readableBytes);
      var cs := chunks;
      DropBytes(cs, size);
      readableBytes := readableBytes - size;
      var rest := cs;
      ghost var total: nat := size;
      while rest != [] && size >= rest[0].writeIdx - rest[0].readIdx
        invariant Filled(rest) && Drop(rest, size) == Drop(cs, total)
        decreases |rest|
      {
        size := size - (rest[0].writeIdx - rest[0].readIdx);
        rest := rest[1..];
      }
      if rest != [] && size > 0 {
        rest := [rest[0].(readIdx := rest[0].readIdx + size)] + rest[1..];
      } else {
        assert rest != [] ==> [rest[0]] + rest[1..] == rest;
      }
      chunks := rest;
    }
  }

  lemma Assoc(a: seq<byte>, b: seq<byte>, c: seq<byte>)
    ensures a + (b + c) == a + b + c
  {
  }

  /** The bytes that are still to be copied when no whole chunk is left to copy. */
  lemma CopyRest(data: seq<byte>, rest: seq<Chunk>, size: nat)
    requires Filled(rest) && size <= |Bytes(rest)| && (rest != [] ==> size < rest[0].writeIdx - rest[0].readIdx)
    ensures (data + Bytes(rest))[..|data| + size] == data + if rest == [] then [] else rest[0].Data()[..size]
  {
  }
}
