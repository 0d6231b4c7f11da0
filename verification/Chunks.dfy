/**
 Chunk seekers: windows onto a shared source or destination. Windows that tile a
 content, each filled in order by its own writer in steps of any size and in any
 interleaving, rebuild the content through one WriteAtBuffer.
 */
module Chunks {
  import opened Common
  import opened WriteAt
  import opened WriteAtBuffers

  datatype Seeker = Seeker(offset: int, chunkSize: int, ptr: int, remainder: int)

  datatype Whence = SeekStart | SeekCurrent | SeekEnd | BadWhence

  function NewSeeker(offset: int, chunkSize: int): Seeker {
    Seeker(offset, chunkSize, 0, chunkSize)
  }

  /** Seek: the pointer is stored before it is checked. */
  function Seek(s: Seeker, offset: int, whence: Whence): (Seeker, Option<int>) {
    if whence == BadWhence then (s, None)
    else
      var ptr := match whence
                 case SeekStart => offset
                 case SeekCurrent => s.ptr + offset
                 case _ => s.chunkSize + offset;
      if ptr < 0 then (s.(ptr := ptr), None)
      else (s.(ptr := ptr, remainder := s.chunkSize - ptr), Some(ptr))
  }

  /** The bytes of a request of the given size that still fall inside the window. */
  function Taken(s: Seeker, size: nat): nat {
    if s.remainder > size then size else if s.remainder > 0 then s.remainder else 0
  }

  datatype ChunkWritten = ChunkWritten(seeker: Seeker, buffer: Buffer, n: nat, ok: bool)

  function ChunkWrite(s: Seeker, b: Buffer, data: Bytes): ChunkWritten {
    if s.remainder <= 0 then ChunkWritten(s, b, 0, true)
    else
      var k := Taken(s, |data|);
      var w := Write(b, data[..k], s.offset + s.ptr);
      ChunkWritten(s.(ptr := s.ptr + k, remainder := s.remainder - k), w.buffer, k, w.ok)
  }

  lemma {:induction false} ChunkWriteIs(s: Seeker, b: Buffer, data: Bytes, part: Bytes)
    requires s.remainder > 0 && part <= data && |part| == Taken(s, |data|)
    ensures var w := Write(b, part, s.offset + s.ptr);
            ChunkWrite(s, b, data) == ChunkWritten(s.(ptr := s.ptr + |part|, remainder := s.remainder - |part|),
                                                   w.buffer, |part|, w.ok)
  {
    assert data[..|part|] == part;
  }

  class ChunkWriteSeeker {
    const offset: int
    const chunkSize: int
    var ptr: int
    var remainder: int
    const dest: WriteAtBuffer

    ghost function View(): Seeker
      reads this
    {
      Seeker(offset, chunkSize, ptr, remainder)
    }

    constructor (dest: WriteAtBuffer, offset: int, chunkSize: int)
      ensures View() == NewSeeker(offset, chunkSize) && this.dest == dest
    {
      this.offset, this.chunkSize, this.dest := offset, chunkSize, dest;
      ptr, remainder := 0, chunkSize;
    }

    /** Passes on what the window still takes. */
    method Forward(data: array<bv8>, size: nat) returns (n: nat, ok: bool)
      requires dest.Valid() && size <= data.Length && remainder > 0
      modifies dest
      ensures dest.Valid() && Arrays(dest.bufferSlot) <= old(Arrays(dest.bufferSlot)) + {data}
      ensures var r := ChunkWrite(View(), old(dest.View()), data[..size]);
              n == r.n && ok == r.ok && dest.View() == r.buffer
    {
      var taken := if remainder > size then size else remainder;
      ChunkWriteIs(View(), dest.View(), data[..size], data[..taken]);
      n, ok := dest.WriteAt(data, taken, offset + ptr);
    }

    /** Writes the first size bytes of data, as far as the window reaches. */
    method Write(data: array<bv8>, size: nat) returns (n: nat, ok: bool)
      requires dest.Valid() && size <= data.Length
      modifies this, dest
      ensures dest.Valid() && Arrays(dest.bufferSlot) <= old(Arrays(dest.bufferSlot)) + {data}
      ensures var r := ChunkWrite(old(View()), old(dest.View()), data[..size]);
              View() == r.seeker && n == r.n && ok == r.ok && dest.View() == r.buffer
    {
      if remainder > 0 {
        n, ok := Forward(data, size);
        remainder := if remainder > size then remainder - n else 0;
        ptr := ptr + n;
      } else {
        n, ok := 0, true;
      }
    }

    method SeekTo(offset: int, whence: Whence) returns (r: Option<int>)
      modifies this
      ensures (View(), r) == Seek(old(View()), offset, whence)
    {
      match whence {
        case SeekStart => ptr := offset;
        case SeekCurrent => ptr := ptr + offset;
        case SeekEnd => ptr := chunkSize + offset;
        case BadWhence => return None;
      }
      if ptr < 0 {
        return None;
      }
      remainder := chunkSize - ptr;
      r := Some(ptr);
    }
  }

  // ----- many writers on one buffer

  /** A writer part way through its window. */
  ghost predicate Writing(s: Seeker, total: nat) {
    && 0 <= s.offset && 0 <= s.ptr && 0 <= s.remainder
    && s.ptr + s.remainder == s.chunkSize && s.offset + s.chunkSize <= total
  }

  /** Windows in order that tile 0..total. */
  ghost predicate Tiling(ws: seq<Seeker>, total: nat) {
    && (forall i | 0 <= i < |ws| :: Writing(ws[i], total))
    && (forall i, j | 0 <= i < j < |ws| :: ws[i].offset + ws[i].chunkSize <= ws[j].offset)
    && (forall x | 0 <= x < total :: InSomeWindow(ws, x))
  }

  predicate InWindow(s: Seeker, x: int) {
    s.offset <= x < s.offset + s.chunkSize
  }

  ghost predicate InSomeWindow(ws: seq<Seeker>, x: int) {
    exists i | 0 <= i < |ws| :: InWindow(ws[i], x)
  }

  predicate InDone(s: Seeker, x: int) {
    s.offset <= x < s.offset + s.ptr
  }

  ghost predicate InSomeDone(ws: seq<Seeker>, x: int) {
    exists i | 0 <= i < |ws| :: InDone(ws[i], x)
  }

  ghost function Done(ws: seq<Seeker>, total: nat): set<int> {
    set x | 0 <= x < total && InSomeDone(ws, x)
  }

  /** Writer who writes up to size further bytes of the content c. */
  datatype Turn = Turn(who: nat, size: nat)

  datatype Copying = Copying(writers: seq<Seeker>, buffer: Buffer, ok: bool)

  /** The data of a turn may reach past the writer's window; the seeker cuts it off. */
  function TurnData(c: Bytes, s: Seeker, size: nat): Bytes {
    var at := s.offset + s.ptr;
    if at < 0 || at >= |c| then [] else if at + size <= |c| then c[at..at + size] else c[at..]
  }

  function TakeTurn(c: Bytes, st: Copying, t: Turn): Copying
    requires t.who < |st.writers|
  {
    var s := st.writers[t.who];
    var r := ChunkWrite(s, st.buffer, TurnData(c, s, t.size));
    Copying(st.writers[t.who := r.seeker], r.buffer, st.ok && r.ok)
  }

  /** Copying has written exactly the finished parts of the windows. */
  ghost predicate InProgress(c: Bytes, st: Copying) {
    Tiling(st.writers, |c|) && st.ok && Holds(st.buffer, c, Done(st.writers, |c|))
  }

  lemma {:induction false} TurnProgress(c: Bytes, st: Copying, t: Turn)
    requires InProgress(c, st) && t.who < |st.writers|
    ensures InProgress(c, TakeTurn(c, st, t))
  {
    var ws := st.writers;
    var s := ws[t.who];
    if s.remainder > 0 {
      var data := TurnData(c, s, t.size);
      var k := Taken(s, |data|);
      var at := s.offset + s.ptr;
      TurnBytes(c, s, t.size);
      ChunkWriteIs(s, st.buffer, data, data[..k]);
      var w := Write(st.buffer, c[at..at + k], at);
      var ws' := ws[t.who := s.(ptr := s.ptr + k, remainder := s.remainder - k)];
      assert TakeTurn(c, st, t) == Copying(ws', w.buffer, w.ok);
      TurnHolds(c, st, t.who, k, s, at, w, ws');
    } else {
      assert ws[t.who := s] == ws;
    }
  }

  /** What a turn passes on are the content's next bytes. */
  lemma {:induction false} TurnBytes(c: Bytes, s: Seeker, size: nat)
    requires Writing(s, |c|) && s.remainder > 0
    ensures var data, at := TurnData(c, s, size), s.offset + s.ptr;
            var k := Taken(s, |data|);
            k <= |data| && at + k <= |c| && k <= s.remainder && data[..k] == c[at..at + k]
  {
  }

  lemma {:induction false} TurnHolds(c: Bytes, st: Copying, who: nat, k: nat, s: Seeker, at: nat, w: Written,
                                     ws': seq<Seeker>)
    requires InProgress(c, st) && who < |st.writers| && k <= st.writers[who].remainder
    requires s == st.writers[who] && at == s.offset + s.ptr && at + k <= |c|
    requires w == Write(st.buffer, c[at..at + k], at)
    requires ws' == st.writers[who := s.(ptr := s.ptr + k, remainder := s.remainder - k)]
    ensures InProgress(c, Copying(ws', w.buffer, w.ok))
  {
    TilingKept(st.writers, who, k, |c|, ws');
    TurnDone(st.writers, who, k, |c|);
    HoldsAfter(st.buffer, c, Done(st.writers, |c|), at, k, w, Done(ws', |c|));
  }

  lemma {:induction false} HoldsAfter(b: Buffer, c: Bytes, cov: set<int>, at: nat, k: nat, w: Written, cov': set<int>)
    requires Holds(b, c, cov) && at + k <= |c|
    requires Range(at, at + k) !! cov && cov' == cov + Range(at, at + k)
    requires w == Write(b, c[at..at + k], at)
    ensures w.ok && Holds(w.buffer, c, cov')
  {
    WriteHolds(b, c, cov, c[at..at + k], at);
  }

  lemma {:induction false} TilingKept(ws: seq<Seeker>, who: nat, k: nat, total: nat, ws': seq<Seeker>)
    requires Tiling(ws, total) && who < |ws| && k <= ws[who].remainder
    requires ws' == ws[who := ws[who].(ptr := ws[who].ptr + k, remainder := ws[who].remainder - k)]
    ensures Tiling(ws', total)
  {
    forall x | 0 <= x < total
      ensures InSomeWindow(ws', x)
    {
      assert InSomeWindow(ws, x);
      var i :| 0 <= i < |ws| && InWindow(ws[i], x);
      assert InWindow(ws'[i], x);
    }
  }

  /** A turn's bytes are new, and are exactly what it adds. */
  lemma {:induction false} TurnDone(ws: seq<Seeker>, who: nat, k: nat, total: nat)
    requires Tiling(ws, total) && who < |ws| && k <= ws[who].remainder
    ensures var at := ws[who].offset + ws[who].ptr;
            var ws' := ws[who := ws[who].(ptr := ws[who].ptr + k, remainder := ws[who].remainder - k)];
            && Range(at, at + k) !! Done(ws, total)
            && Done(ws', total) == Done(ws, total) + Range(at, at + k)
  {
    var s := ws[who];
    var at := s.offset + s.ptr;
    var ws' := ws[who := s.(ptr := s.ptr + k, remainder := s.remainder - k)];
    forall x | x in Range(at, at + k)
      ensures x !in Done(ws, total) && x in Done(ws', total)
    {
      forall i | 0 <= i < |ws|
        ensures !InDone(ws[i], x)
      {
        assert Writing(ws[i], total);
      }
      assert InDone(ws'[who], x);
    }
    forall x | x in Done(ws, total)
      ensures x in Done(ws', total)
    {
      var i :| 0 <= i < |ws| && InDone(ws[i], x);
      assert InDone(ws'[i], x);
    }
    forall x | x in Done(ws', total) && x !in Range(at, at + k)
      ensures x in Done(ws, total)
    {
      var i :| 0 <= i < |ws'| && InDone(ws'[i], x);
      assert InDone(ws[i], x);
    }
  }

  function RunTurns(c: Bytes, st: Copying, turns: seq<Turn>): Copying
    requires forall t | t in turns :: t.who < |st.writers|
    decreases |turns|
  {
    if turns == [] then st else RunTurns(c, TakeTurn(c, st, turns[0]), turns[1..])
  }

  lemma {:induction false} RunTurnsProgress(c: Bytes, st: Copying, turns: seq<Turn>)
    requires InProgress(c, st) && forall t | t in turns :: t.who < |st.writers|
    ensures InProgress(c, RunTurns(c, st, turns)) && |RunTurns(c, st, turns).writers| == |st.writers|
    decreases |turns|
  {
    if turns != [] {
      TurnProgress(c, st, turns[0]);
      RunTurnsProgress(c, TakeTurn(c, st, turns[0]), turns[1..]);
    }
  }

  /** The bytes that turns ask of a writer altogether. */
  function Asked(turns: seq<Turn>, i: nat): nat {
    if turns == [] then 0 else (if turns[0].who == i then turns[0].size else 0) + Asked(turns[1..], i)
  }

  /** A writer takes what it is asked for until its window is full. */
  lemma {:induction false} TurnTakes(c: Bytes, st: Copying, t: Turn, i: nat)
    requires InProgress(c, st) && t.who < |st.writers| && i < |st.writers|
    ensures var asked := if t.who == i then t.size else 0;
            TakeTurn(c, st, t).writers[i].remainder
            == if st.writers[i].remainder >= asked then st.writers[i].remainder - asked else 0
  {
    assert Writing(st.writers[i], |c|);
  }

  lemma {:induction false} TurnsTake(c: Bytes, st: Copying, turns: seq<Turn>, i: nat)
    requires InProgress(c, st) && (forall t | t in turns :: t.who < |st.writers|) && i < |st.writers|
    ensures var asked, end := Asked(turns, i), RunTurns(c, st, turns);
            && |end.writers| == |st.writers|
            && end.writers[i].remainder
               == if st.writers[i].remainder >= asked then st.writers[i].remainder - asked else 0
    decreases |turns|
  {
    if turns == [] {
      assert Writing(st.writers[i], |c|);
    } else {
      TurnTakes(c, st, turns[0], i);
      TurnProgress(c, st, turns[0]);
      TurnsTake(c, TakeTurn(c, st, turns[0]), turns[1..], i);
    }
  }

  /** Fresh writers whose windows tile the content. */
  ghost predicate Fresh(c: Bytes, ws: seq<Seeker>) {
    Tiling(ws, |c|) && forall s | s in ws :: s == NewSeeker(s.offset, s.chunkSize)
  }

  /** Every interleaving and every choice of sizes: once all windows are finished the content has been emitted. */
  lemma {:induction false} FinishedCopy(c: Bytes, ws: seq<Seeker>, turns: seq<Turn>)
    requires Fresh(c, ws) && forall t | t in turns :: t.who < |ws|
    ensures var end := RunTurns(c, Copying(ws, Buffer([], []), true), turns);
            && InProgress(c, end) && |end.writers| == |ws|
            && ((forall s | s in end.writers :: s.remainder == 0) ==> end.buffer == Buffer(c, []) && end.ok)
  {
    var start := Copying(ws, Buffer([], []), true);
    FreshPartWay(c, ws);
    RunTurnsProgress(c, start, turns);
    var end := RunTurns(c, start, turns);
    if forall s | s in end.writers :: s.remainder == 0 {
      AllDone(end.writers, |c|);
      HoldsAll(end.buffer, c);
    }
  }

  /**
   Every interleaving of the writers and every choice of sizes: the windows are all
   finished exactly if each writer was asked for as much as its window, and then
   exactly the content is emitted and nothing is left for Close to complain about.
   */
  lemma {:induction false} ChunkedCopy(c: Bytes, ws: seq<Seeker>, turns: seq<Turn>)
    requires Fresh(c, ws) && forall t | t in turns :: t.who < |ws|
    ensures var end := RunTurns(c, Copying(ws, Buffer([], []), true), turns);
            && InProgress(c, end)
            && ((forall s | s in end.writers :: s.remainder == 0)
                <==> forall i | 0 <= i < |ws| :: Asked(turns, i) >= ws[i].chunkSize)
            && ((forall s | s in end.writers :: s.remainder == 0) ==> end.buffer == Buffer(c, []) && end.ok)
  {
    var start := Copying(ws, Buffer([], []), true);
    FreshPartWay(c, ws);
    FinishedCopy(c, ws, turns);
    var end := RunTurns(c, start, turns);
    forall i | 0 <= i < |ws|
      ensures end.writers[i].remainder == 0 <==> Asked(turns, i) >= ws[i].chunkSize
    {
      TurnsTake(c, start, turns, i);
      assert ws[i] in ws;
    }
    FinishedIff(ws, end, turns);
  }

  lemma {:induction false} FinishedIff(ws: seq<Seeker>, end: Copying, turns: seq<Turn>)
    requires |end.writers| == |ws|
    requires forall i | 0 <= i < |ws| :: end.writers[i].remainder == 0 <==> Asked(turns, i) >= ws[i].chunkSize
    ensures (forall s | s in end.writers :: s.remainder == 0)
       <==> forall i | 0 <= i < |ws| :: Asked(turns, i) >= ws[i].chunkSize
  {
    if forall s | s in end.writers :: s.remainder == 0 {
      forall i | 0 <= i < |ws| ensures Asked(turns, i) >= ws[i].chunkSize {
        assert end.writers[i] in end.writers;
      }
    }
  }

  lemma {:induction false} AllDone(ws: seq<Seeker>, total: nat)
    requires Tiling(ws, total) && forall s | s in ws :: s.remainder == 0
    ensures Done(ws, total) == Range(0, total)
  {
    forall x | 0 <= x < total
      ensures x in Done(ws, total)
    {
      assert InSomeWindow(ws, x);
      var i :| 0 <= i < |ws| && InWindow(ws[i], x);
      assert ws[i] in ws && InDone(ws[i], x);
    }
  }

  // ----- from slots whose bytes may have changed

  /** Writers part way through their windows, and a buffer that has taken exactly their bytes, whatever it holds now. */
  ghost predicate PartWay(total: nat, st: Copying) {
    Tiling(st.writers, total) && st.ok && Shaped(st.buffer, total, Done(st.writers, total))
  }

  /** A turn takes the same bytes from two contents that agree where nothing has been written. */
  lemma {:induction false} SameTurn(c: Bytes, now: Bytes, st: Copying, t: Turn)
    requires Tiling(st.writers, |c|) && t.who < |st.writers| && AgreeOutside(c, now, Done(st.writers, |c|))
    ensures TakeTurn(now, st, t) == TakeTurn(c, st, t)
  {
    var s := st.writers[t.who];
    if s.remainder > 0 {
      var k, at := Taken(s, |TurnData(c, s, t.size)|), s.offset + s.ptr;
      TurnBytes(c, s, t.size);
      TurnBytes(now, s, t.size);
      TurnDone(st.writers, t.who, k, |c|);
      forall i | at <= i < at + k ensures now[i] == c[i] {
        assert i in Range(at, at + k);
      }
      assert now[at..at + k] == c[at..at + k];
      ChunkWriteIs(s, st.buffer, TurnData(c, s, t.size), c[at..at + k]);
      ChunkWriteIs(s, st.buffer, TurnData(now, s, t.size), c[at..at + k]);
    }
  }

  ghost predicate AgreeOutside(c: Bytes, now: Bytes, cov: set<int>) {
    |now| == |c| && forall i | 0 <= i < |c| && i !in cov :: now[i] == c[i]
  }

  lemma {:induction false} SameTurns(c: Bytes, now: Bytes, st: Copying, turns: seq<Turn>)
    requires InProgress(now, st) && AgreeOutside(c, now, Done(st.writers, |c|))
    requires forall t | t in turns :: t.who < |st.writers|
    ensures RunTurns(now, st, turns) == RunTurns(c, st, turns)
    decreases |turns|
  {
    if turns != [] {
      SameTurn(c, now, st, turns[0]);
      TurnProgress(now, st, turns[0]);
      DoneGrows(now, st, turns[0]);
      SameTurns(c, now, TakeTurn(c, st, turns[0]), turns[1..]);
    }
  }

  lemma {:induction false} DoneGrows(c: Bytes, st: Copying, t: Turn)
    requires Tiling(st.writers, |c|) && t.who < |st.writers|
    ensures Done(st.writers, |c|) <= Done(TakeTurn(c, st, t).writers, |c|)
  {
    var s := st.writers[t.who];
    if s.remainder > 0 {
      TurnBytes(c, s, t.size);
      TurnDone(st.writers, t.who, Taken(s, |TurnData(c, s, t.size)|), |c|);
    } else {
      assert st.writers[t.who := s] == st.writers;
    }
  }

  /**
   From any point of a copy, whatever the waiting slots hold by then: turns that
   finish the windows never fail and leave nothing waiting, and the output is the
   content exactly when the slots held its bytes at that point, and so did the output.
   */
  lemma {:induction false} CopyFromIff(c: Bytes, st: Copying, turns: seq<Turn>)
    requires PartWay(|c|, st) && forall t | t in turns :: t.who < |st.writers|
    ensures var end := RunTurns(c, st, turns);
            (forall s | s in end.writers :: s.remainder == 0) ==>
              && end.ok && end.buffer.slots == []
              && (end.buffer.out == c <==> st.buffer.out <= c && SlotsMatch(c, st.buffer.slots))
  {
    var now, cov := Shown(st.buffer, c), Done(st.writers, |c|);
    ShownHolds(st.buffer, c, cov);
    ShownIff(st.buffer, c, cov);
    SameTurns(c, now, st, turns);
    RunTurnsProgress(now, st, turns);
    var end := RunTurns(c, st, turns);
    if forall s | s in end.writers :: s.remainder == 0 {
      AllDone(end.writers, |c|);
      HoldsAll(end.buffer, now);
    }
  }

  /** Turns lead from one point of a copy to another. */
  lemma {:induction false} PartWayKept(c: Bytes, st: Copying, turns: seq<Turn>)
    requires PartWay(|c|, st) && forall t | t in turns :: t.who < |st.writers|
    ensures PartWay(|c|, RunTurns(c, st, turns))
  {
    var now := Shown(st.buffer, c);
    ShownHolds(st.buffer, c, Done(st.writers, |c|));
    SameTurns(c, now, st, turns);
    RunTurnsProgress(now, st, turns);
  }

  /** Once the windows are finished everything is emitted. */
  lemma {:induction false} PartWayDone(total: nat, st: Copying)
    requires PartWay(total, st) && forall s | s in st.writers :: s.remainder == 0
    ensures st.buffer.slots == [] && |st.buffer.out| == total
  {
    var b, cov := st.buffer, Done(st.writers, total);
    AllDone(st.writers, total);
    CoverBounds(|b.out| + 1, b.slots);
    assert |b.out| !in cov;
  }

  lemma {:induction false} FreshPartWay(c: Bytes, ws: seq<Seeker>)
    requires Fresh(c, ws)
    ensures Done(ws, |c|) == {} && PartWay(|c|, Copying(ws, Buffer([], []), true))
    ensures InProgress(c, Copying(ws, Buffer([], []), true))
  {
    forall x | 0 <= x < |c|
      ensures x !in Done(ws, |c|)
    {
      forall i | 0 <= i < |ws| ensures !InDone(ws[i], x) {
        assert ws[i] in ws;
      }
    }
    assert Done(ws, |c|) == {} == Range(0, 0) + SlotCover([]);
  }

  // ----- reading a chunk

  datatype ChunkRead = ChunkRead(seeker: Seeker, data: Bytes, eof: bool)

  /** io.ReaderAt over a fixed source: fewer bytes than asked for means end of file. */
  function ReadAt(src: Bytes, at: int, size: nat): Bytes {
    if at < 0 || at >= |src| then [] else if at + size <= |src| then src[at..at + size] else src[at..]
  }

  function Read(src: Bytes, s: Seeker, size: nat): ChunkRead {
    if s.remainder > size then
      var got := ReadAt(src, s.offset + s.ptr, size);
      var eof := |got| < size;
      ChunkRead(s.(ptr := s.ptr + |got|, remainder := if eof then 0 else s.remainder - |got|), got, eof)
    else if s.remainder > 0 then
      var got := ReadAt(src, s.offset + s.ptr, s.remainder);
      ChunkRead(s.(ptr := s.ptr + |got|, remainder := 0), got, true)
    else ChunkRead(s, [], true)
  }

  /** Reads with the given buffer sizes, up to the end of file. */
  function ReadAll(src: Bytes, s: Seeker, sizes: seq<nat>): ChunkRead
    decreases |sizes|
  {
    if sizes == [] then ChunkRead(s, [], false)
    else
      var r := Read(src, s, sizes[0]);
      if r.eof then r
      else
        var rest := ReadAll(src, r.seeker, sizes[1..]);
        ChunkRead(rest.seeker, r.data + rest.data, rest.eof)
  }

  /** The part of the window from the read position that the source has. */
  function Remaining(src: Bytes, s: Seeker): Bytes {
    ReadAt(src, s.offset + s.ptr, if s.remainder > 0 then s.remainder else 0)
  }

  lemma {:induction false} ReadPrefix(src: Bytes, s: Seeker, size: nat)
    requires 0 <= s.offset && 0 <= s.ptr
    ensures var r := Read(src, s, size);
            && (r.eof ==> r.data == Remaining(src, s))
            && (!r.eof ==> |r.data| == size && size < s.remainder
                           && r.seeker == s.(ptr := s.ptr + size, remainder := s.remainder - size)
                           && Remaining(src, s) == r.data + Remaining(src, r.seeker))
  {
  }

  function Sum(sizes: seq<nat>): nat {
    if sizes == [] then 0 else sizes[0] + Sum(sizes[1..])
  }

  /**
   Whatever the buffer sizes, what is read is a prefix of the window, end of file
   is reported only when the whole window has been read, and it is reached as soon
   as the buffers are together as large as the window.
   */
  lemma {:induction false} ReadAllExact(src: Bytes, s: Seeker, sizes: seq<nat>)
    requires 0 <= s.offset && 0 <= s.ptr
    ensures ReadAll(src, s, sizes).data <= Remaining(src, s)
    ensures ReadAll(src, s, sizes).eof ==> ReadAll(src, s, sizes).data == Remaining(src, s)
    ensures sizes != [] && Sum(sizes) >= s.remainder ==> ReadAll(src, s, sizes).eof
    decreases |sizes|
  {
    if sizes != [] {
      ReadPrefix(src, s, sizes[0]);
      var r := Read(src, s, sizes[0]);
      if !r.eof {
        ReadAllExact(src, r.seeker, sizes[1..]);
        if Sum(sizes) >= s.remainder {
          assert Sum(sizes[1..]) > 0;
        }
      }
    }
  }

  /** Seeking back and reading again gives the window from there, whatever was read before. */
  lemma {:induction false} SeekRead(src: Bytes, s: Seeker, start: nat, sizes: seq<nat>)
    requires 0 <= s.offset && sizes != [] && Sum(sizes) >= s.chunkSize - start
    ensures var s' := Seek(s, start, SeekStart).0;
            ReadAll(src, s', sizes).data
            == ReadAt(src, s.offset + start, if start <= s.chunkSize then s.chunkSize - start else 0)
  {
    ReadAllExact(src, Seek(s, start, SeekStart).0, sizes);
  }
}
