/** A chunk reader seen from outside: a file of the bytes in its window, with a position of its own. */
module ChunkFiles {
  import opened Common
  import opened WriteAt
  import opened Chunks

  datatype Op = ReadUpTo(size: nat) | SeekTo(offset: int, whence: Whence)

  datatype Reply = Data(bytes: Bytes, eof: bool) | At(position: int) | Refused

  function Do(src: Bytes, s: Seeker, op: Op): (Seeker, Reply) {
    match op
    case ReadUpTo(size) =>
      var r := Read(src, s, size);
      (r.seeker, Data(r.data, r.eof))
    case SeekTo(offset, whence) =>
      var (s', at) := Seek(s, offset, whence);
      (s', if at.Some? then At(at.value) else Refused)
  }

  function DoAll(src: Bytes, s: Seeker, ops: seq<Op>): seq<Reply>
    decreases |ops|
  {
    if ops == [] then []
    else
      var (s', reply) := Do(src, s, ops[0]);
      [reply] + DoAll(src, s', ops[1..])
  }

  /** The reader as the object it is. */
  class ChunkReadSeeker {
    const source: Bytes
    const offset: int
    const chunkSize: int
    var ptr: int
    var remainder: int

    ghost function View(): Seeker
      reads this
    {
      Seeker(offset, chunkSize, ptr, remainder)
    }

    constructor (source: Bytes, offset: int, chunkSize: int)
      ensures View() == NewSeeker(offset, chunkSize) && this.source == source
    {
      this.source, this.offset, this.chunkSize := source, offset, chunkSize;
      ptr, remainder := 0, chunkSize;
    }

    /** Fills the front of data and leaves the rest of it. */
    method Fill(data: array<bv8>, size: nat) returns (n: nat)
      requires size <= data.Length
      modifies data
      ensures n <= size && data[..n] == ReadAt(source, offset + ptr, size) && data[n..] == old(data[n..])
    {
      var got := ReadAt(source, offset + ptr, size);
      n := 0;
      while n < |got|
        invariant n <= |got| <= size && data[..n] == got[..n] && data[n..] == old(data[n..])
      {
        data[n] := got[n];
        n := n + 1;
      }
      assert got[..n] == got;
    }

    method Read(data: array<bv8>) returns (n: nat, eof: bool)
      modifies this, data
      ensures n <= data.Length && data[n..] == old(data[n..])
      ensures ChunkRead(View(), data[..n], eof) == Chunks.Read(source, old(View()), data.Length)
    {
      if remainder > data.Length {
        n := Fill(data, data.Length);
        eof := n < data.Length;
        remainder := if eof then 0 else remainder - n;
        ptr := ptr + n;
      } else if remainder > 0 {
        n := Fill(data, remainder);
        eof, remainder, ptr := true, 0, ptr + n;
      } else {
        n, eof := 0, true;
      }
    }

    method SeekTo(offset: int, whence: Whence) returns (r: Option<int>)
      modifies this
      ensures (View(), r) == Seek(old(View()), offset, whence)
    {
      match whence {
        case SeekStart => ptr := offset;
        case SeekCurrent => ptr := ptr + offset;
        case SeekEnd => ptr := chunkSize + offset;
        case BadWhence => return None;
      }
      if ptr < 0 {
        return None;
      }
      remainder := chunkSize - ptr;
      r := Some(ptr);
    }
  }

  // ----- a file of a given size, of which only the first bytes may exist

  /** Where a file's reader stands; after an end of file it reports another until it seeks. */
  datatype Place = Place(pos: nat, ended: bool)

  function Target(size: nat, pos: nat, offset: int, whence: Whence): int {
    match whence
    case SeekStart => offset
    case SeekCurrent => pos + offset
    case SeekEnd => size + offset
    case BadWhence => pos
  }

  function FileDo(w: Bytes, size: nat, at: Place, op: Op): (Place, Reply) {
    match op
    case ReadUpTo(n) =>
      var from := if at.pos < |w| then at.pos else |w|;
      var to := if at.pos + n < |w| then at.pos + n else |w|;
      var eof := at.ended || at.pos + n >= size || (n > 0 && at.pos + n > |w|);
      (Place(at.pos + (to - from), eof), Data(w[from..to], eof))
    case SeekTo(offset, whence) =>
      var target := Target(size, at.pos, offset, whence);
      if whence == BadWhence || target < 0 then (at, Refused) else (Place(target, false), At(target))
  }

  function FileAll(w: Bytes, size: nat, at: Place, ops: seq<Op>): seq<Reply>
    decreases |ops|
  {
    if ops == [] then []
    else
      var (at', reply) := FileDo(w, size, at, ops[0]);
      [reply] + FileAll(w, size, at', ops[1..])
  }

  /** No seek goes before the start. */
  predicate NeverBefore(w: Bytes, size: nat, at: Place, ops: seq<Op>)
    decreases |ops|
  {
    ops == []
    || (&& (ops[0].SeekTo? ==> Target(size, at.pos, ops[0].offset, ops[0].whence) >= 0)
        && NeverBefore(w, size, FileDo(w, size, at, ops[0]).0, ops[1..]))
  }

  /** The seeker stands at the place. */
  predicate Stands(s: Seeker, offset: nat, size: nat, w: Bytes, at: Place) {
    && s.offset == offset && s.chunkSize == size && s.ptr == at.pos
    && (if at.ended then s.remainder <= 0 && at.pos >= |w| else s.remainder == size - at.pos)
  }

  lemma {:induction false} OneReply(src: Bytes, s: Seeker, offset: nat, size: nat, w: Bytes, at: Place, op: Op)
    requires w == ReadAt(src, offset, size) && Stands(s, offset, size, w, at)
    requires op.SeekTo? ==> Target(size, at.pos, op.offset, op.whence) >= 0
    ensures var (s', reply) := Do(src, s, op);
            var (at', expected) := FileDo(w, size, at, op);
            reply == expected && Stands(s', offset, size, w, at')
  {
    if op.ReadUpTo? {
      ReadReply(src, s, offset, size, w, at, op.size);
    }
  }

  lemma {:induction false} ReadReply(src: Bytes, s: Seeker, offset: nat, size: nat, w: Bytes, at: Place, n: nat)
    requires w == ReadAt(src, offset, size) && Stands(s, offset, size, w, at)
    ensures var r := Read(src, s, n);
            var (at', reply) := FileDo(w, size, at, ReadUpTo(n));
            Data(r.data, r.eof) == reply && Stands(r.seeker, offset, size, w, at')
  {
    if s.remainder > n {
      ReadWithin(src, s, offset, size, w, at, n);
    } else if s.remainder > 0 {
      ReadLast(src, s, offset, size, w, at, n);
    }
  }

  lemma {:induction false} ReadWithin(src: Bytes, s: Seeker, offset: nat, size: nat, w: Bytes, at: Place, n: nat)
    requires w == ReadAt(src, offset, size) && Stands(s, offset, size, w, at) && s.remainder > n
    ensures var r := Read(src, s, n);
            var (at', reply) := FileDo(w, size, at, ReadUpTo(n));
            Data(r.data, r.eof) == reply && Stands(r.seeker, offset, size, w, at')
  {
    Windowed(src, offset, size, w, at.pos, n);
  }

  lemma {:induction false} ReadLast(src: Bytes, s: Seeker, offset: nat, size: nat, w: Bytes, at: Place, n: nat)
    requires w == ReadAt(src, offset, size) && Stands(s, offset, size, w, at) && 0 < s.remainder <= n
    ensures var r := Read(src, s, n);
            var (at', reply) := FileDo(w, size, at, ReadUpTo(n));
            Data(r.data, r.eof) == reply && Stands(r.seeker, offset, size, w, at')
  {
    Windowed(src, offset, size, w, at.pos, s.remainder);
  }

  lemma {:induction false} SliceOfSlice(src: Bytes, from: nat, to: nat, i: nat, j: nat)
    requires from <= to <= |src| && i <= j <= to - from
    ensures src[from..to][i..j] == src[from + i..from + j]
  {
    forall k | 0 <= k < j - i ensures src[from..to][i..j][k] == src[from + i..from + j][k] {
      assert src[from..to][i + k] == src[from + i + k];
    }
  }

  /** Reading at a position of the source that lies in the window. */
  lemma {:induction false} Windowed(src: Bytes, offset: nat, size: nat, w: Bytes, pos: nat, n: nat)
    requires w == ReadAt(src, offset, size)
    ensures |w| <= size && (|w| < size ==> |w| == if offset < |src| then |src| - offset else 0)
    ensures var from := if pos < |w| then pos else |w|;
            var to := if pos + n < |w| then pos + n else |w|;
            pos + n <= size ==> ReadAt(src, offset + pos, n) == w[from..to]
  {
    if pos + n <= size && pos < |w| {
      var to := if pos + n < |w| then pos + n else |w|;
      assert w == src[offset..offset + |w|];
      SliceOfSlice(src, offset, offset + |w|, pos, to);
    }
  }

  /**
   Every history of reads and seeks: the reader answers as a file of its window's
   bytes would, seeks relative to the start, to the position and to the window's end
   included, and reads after the end of file or past it.
   */
  lemma {:induction false} WindowIsFile(src: Bytes, offset: nat, size: nat, ops: seq<Op>)
    requires NeverBefore(ReadAt(src, offset, size), size, Place(0, false), ops)
    ensures DoAll(src, NewSeeker(offset, size), ops) == FileAll(ReadAt(src, offset, size), size, Place(0, false), ops)
  {
    RepliesFrom(src, NewSeeker(offset, size), offset, size, ReadAt(src, offset, size), Place(0, false), ops);
  }

  lemma {:induction false} RepliesFrom(src: Bytes, s: Seeker, offset: nat, size: nat, w: Bytes, at: Place, ops: seq<Op>)
    requires w == ReadAt(src, offset, size) && Stands(s, offset, size, w, at) && NeverBefore(w, size, at, ops)
    ensures DoAll(src, s, ops) == FileAll(w, size, at, ops)
    decreases |ops|
  {
    if ops != [] {
      OneReply(src, s, offset, size, w, at, ops[0]);
      RepliesFrom(src, Do(src, s, ops[0]).0, offset, size, w, FileDo(w, size, at, ops[0]).0, ops[1..]);
    }
  }

  /** A seek to before the start is refused, yet it moves the reader: what is read next lies outside the window. */
  lemma {:induction false} RefusedSeekMoves(src: Bytes, offset: nat, size: nat, back: int)
    requires 0 < back <= offset && offset + size <= |src| && size > 1
    ensures DoAll(src, NewSeeker(offset, size), [SeekTo(-back, SeekStart), ReadUpTo(1)])
         == [Refused, Data([src[offset - back]], false)]
  {
    var ops := [SeekTo(-back, SeekStart), ReadUpTo(1)];
    var s := NewSeeker(offset, size);
    assert ops[1..] == [ReadUpTo(1)] && ops[1..][1..] == [];
    var s' := s.(ptr := -back);
    assert Do(src, s, ops[0]) == (s', Refused);
    assert ReadAt(src, offset - back, 1) == [src[offset - back]];
    assert Do(src, s', ReadUpTo(1)).1 == Data([src[offset - back]], false);
    assert DoAll(src, s', ops[1..]) == [Data([src[offset - back]], false)];
  }
}
