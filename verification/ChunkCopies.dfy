/**
 Copying chunks with the objects themselves: writers that share one
 WriteAtBuffer, and byte slices that the callers load and pass on. A waiting slot
 keeps the slice it was given, so a later load of that slice changes what is emitted.
 */
module ChunkCopies {
  import opened Common
  import opened WriteAt
  import opened WriteAtBuffers
  import opened Chunks

  ghost function Views(writers: seq<ChunkWriteSeeker>): (views: seq<Seeker>)
    reads writers
    ensures |views| == |writers| && forall i | 0 <= i < |writers| :: views[i] == writers[i].View()
  {
    if writers == [] then [] else [writers[0].View()] + Views(writers[1..])
  }

  /** The writers are distinct and share the buffer. */
  ghost predicate Sharing(writers: seq<ChunkWriteSeeker>, w: WriteAtBuffer) {
    && (forall i | 0 <= i < |writers| :: writers[i].dest == w)
    && forall i, j | 0 <= i < j < |writers| :: writers[i] != writers[j]
  }

  /** Whether a waiting slot refers to the slice. */
  method RefersTo(w: WriteAtBuffer, a: array<bv8>) returns (yes: bool)
    ensures yes <==> a in Arrays(w.bufferSlot)
  {
    yes := false;
    for i := 0 to |w.bufferSlot|
      invariant yes <==> exists j | 0 <= j < i :: w.bufferSlot[j].data == a
    {
      yes := yes || w.bufferSlot[i].data == a;
    }
  }

  /** A caller loads its slice: slots that refer to it keep their places and get other bytes; the rest are as before. */
  method Load(a: array<bv8>, data: Bytes, w: WriteAtBuffer, ghost total: nat, ghost cov: set<int>)
    requires w.Valid() && |data| <= a.Length
    modifies a
    ensures w.Valid() && a[..|data|] == data
    ensures a !in Arrays(w.bufferSlot) ==> w.View() == old(w.View())
    ensures old(Shaped(w.View(), total, cov)) ==> Shaped(w.View(), total, cov)
  {
    ghost var before := w.View();
    for i := 0 to |data|
      invariant w.Valid() && a[..i] == data[..i]
      modifies a
    {
      a[i] := data[i];
    }
    assert data[..|data|] == data;
    if Shaped(before, total, cov) {
      ShapeKept(before, w.View(), total, cov);
    }
  }

  /** Two buffers with slots of the same places and lengths. */
  ghost predicate SamePlaces(a: seq<Slot>, b: seq<Slot>) {
    |a| == |b| && forall i | 0 <= i < |a| :: a[i].pos == b[i].pos && |a[i].data| == |b[i].data|
  }

  lemma {:induction false} PlacesKept(lo: int, a: seq<Slot>, b: seq<Slot>)
    requires SamePlaces(a, b) && Sorted(lo, a)
    ensures Sorted(lo, b) && SlotCover(a) == SlotCover(b)
    decreases |a|
  {
    if a != [] {
      PlacesKept(a[0].End(), a[1..], b[1..]);
    }
  }

  lemma {:induction false} ShapeKept(a: Buffer, b: Buffer, total: nat, cov: set<int>)
    requires Shaped(a, total, cov) && b.out == a.out && SamePlaces(a.slots, b.slots)
    ensures Shaped(b, total, cov)
  {
    PlacesKept(|a.out| + 1, a.slots, b.slots);
    forall s | s in b.slots ensures s.End() <= total {
      var i :| 0 <= i < |b.slots| && b.slots[i] == s;
      assert a.slots[i] in a.slots;
    }
  }

  /** One of the writers writes a slice; the others stay as they are. */
  method WriteBy(w: WriteAtBuffer, writers: seq<ChunkWriteSeeker>, who: nat, a: array<bv8>, size: nat)
    returns (ok: bool)
    requires w.Valid() && Sharing(writers, w) && who < |writers| && size <= a.Length
    modifies w, writers
    ensures w.Valid() && Arrays(w.bufferSlot) <= old(Arrays(w.bufferSlot)) + {a}
    ensures var r := ChunkWrite(old(Views(writers)[who]), old(w.View()), a[..size]);
            ok == r.ok && w.View() == r.buffer && Views(writers) == old(Views(writers))[who := r.seeker]
  {
    ghost var views := Views(writers);
    var n: nat;
    n, ok := writers[who].Write(a, size);
    ghost var s := writers[who].View();
    forall i | 0 <= i < |writers| ensures writers[i].View() == views[who := s][i] {
    }
  }

  /** One turn: the writer's caller loads its slice with the next bytes and writes it. */
  method CopyTurn(c: Bytes, w: WriteAtBuffer, writers: seq<ChunkWriteSeeker>, t: Turn, a: array<bv8>, before: bool)
    returns (ok: bool)
    requires w.Valid() && Sharing(writers, w) && t.who < |writers| && t.size <= a.Length
    requires a !in Arrays(w.bufferSlot)
    modifies a, w, writers
    ensures w.Valid() && Arrays(w.bufferSlot) <= old(Arrays(w.bufferSlot)) + {a}
    ensures Copying(Views(writers), w.View(), ok) == TakeTurn(c, Copying(old(Views(writers)), old(w.View()), before), t)
  {
    ghost var views, view := Views(writers), w.View();
    var s := writers[t.who];
    var data := TurnData(c, Seeker(s.offset, s.chunkSize, s.ptr, s.remainder), t.size);
    Load(a, data, w, 0, {});
    assert Views(writers) == views && w.View() == view;
    var fine := WriteBy(w, writers, t.who, a, |data|);
    ok := before && fine;
  }

  /**
   One turn whatever the slice: its caller loads it, though waiting slots may refer to
   it, and writes it. The copy stays part way, whatever the slots then hold.
   */
  method ReuseTurn(c: Bytes, w: WriteAtBuffer, writers: seq<ChunkWriteSeeker>, t: Turn, a: array<bv8>, before: bool)
    returns (ok: bool)
    requires w.Valid() && Sharing(writers, w) && t.who < |writers| && t.size <= a.Length
    requires PartWay(|c|, Copying(Views(writers), w.View(), before))
    modifies a, w, writers
    ensures w.Valid() && PartWay(|c|, Copying(Views(writers), w.View(), ok))
    ensures Arrays(w.bufferSlot) <= old(Arrays(w.bufferSlot)) + {a}
  {
    ghost var views, cov := Views(writers), Done(Views(writers), |c|);
    var s := writers[t.who];
    var data := TurnData(c, Seeker(s.offset, s.chunkSize, s.ptr, s.remainder), t.size);
    Load(a, data, w, |c|, cov);
    assert Views(writers) == views;
    ghost var loaded := Copying(views, w.View(), before);
    var fine := WriteBy(w, writers, t.who, a, |data|);
    ok := before && fine;
    TurnKeeps(c, loaded, t, Copying(Views(writers), w.View(), ok));
  }

  lemma {:induction false} TurnKeeps(c: Bytes, st: Copying, t: Turn, st': Copying)
    requires PartWay(|c|, st) && t.who < |st.writers| && st' == TakeTurn(c, st, t)
    ensures PartWay(|c|, st')
  {
    PartWayKept(c, st, [t]);
    assert [t][1..] == [];
    assert RunTurns(c, st', []) == st';
  }

  lemma {:induction false} RunOneMore(c: Bytes, st: Copying, turns: seq<Turn>, i: nat)
    requires i < |turns| && forall t | t in turns :: t.who < |st.writers|
    ensures forall t | t in turns[..i] :: t in turns
    ensures |RunTurns(c, st, turns[..i]).writers| == |st.writers|
    ensures RunTurns(c, st, turns[..i + 1]) == TakeTurn(c, RunTurns(c, st, turns[..i]), turns[i])
    decreases i
  {
    assert turns[0] in turns;
    if i == 0 {
      assert turns[..1][1..] == [];
    } else {
      var rest := turns[1..];
      assert forall t | t in rest :: t in turns;
      RunOneMore(c, TakeTurn(c, st, turns[0]), rest, i - 1);
      assert turns[..i][1..] == rest[..i - 1] && turns[..i + 1][1..] == rest[..i];
      assert turns[..i][0] == turns[0] == turns[..i + 1][0];
    }
  }

  /** Turns with slices to load, each large enough for its turn. */
  ghost predicate Equipped(turns: seq<Turn>, slices: seq<array<bv8>>, writers: nat) {
    |slices| == |turns| && forall i | 0 <= i < |turns| :: turns[i].who < writers && turns[i].size <= slices[i].Length
  }

  lemma {:induction false} EquippedTurns(turns: seq<Turn>, slices: seq<array<bv8>>, writers: nat, k: nat)
    requires Equipped(turns, slices, writers) && k <= |turns|
    ensures forall t | t in turns :: t.who < writers
    ensures forall t | t in turns[..k] :: t.who < writers
  {
  }

  /** The next turn of a copy that began at start, unless a waiting slot refers to its slice. */
  method NextTurn(c: Bytes, w: WriteAtBuffer, writers: seq<ChunkWriteSeeker>, turns: seq<Turn>, i: nat, a: array<bv8>,
                  before: bool, ghost start: Copying)
    returns (shared: bool, ok: bool)
    requires w.Valid() && Sharing(writers, w) && |start.writers| == |writers|
    requires i < |turns| && turns[i].size <= a.Length && forall t | t in turns :: t.who < |writers|
    requires Copying(Views(writers), w.View(), before) == RunTurns(c, start, turns[..i])
    modifies a, w, writers
    ensures w.Valid() && Arrays(w.bufferSlot) <= old(Arrays(w.bufferSlot)) + {a}
    ensures if shared
            then && a in Arrays(w.bufferSlot) && Arrays(w.bufferSlot) == old(Arrays(w.bufferSlot))
                 && Copying(Views(writers), w.View(), before) == RunTurns(c, start, turns[..i])
            else Copying(Views(writers), w.View(), ok) == RunTurns(c, start, turns[..i + 1])
  {
    ok := before;
    shared := RefersTo(w, a);
    if !shared {
      RunOneMore(c, start, turns, i);
      ok := CopyTurn(c, w, writers, turns[i], a, before);
    }
  }

  /** The slices of the first turns. */
  ghost function Loaded(slices: seq<array<bv8>>, n: nat): set<array<bv8>>
    requires n <= |slices|
  {
    set a | a in slices[..n]
  }

  lemma {:induction false} LoadedMore(slices: seq<array<bv8>>, n: nat)
    requires n < |slices|
    ensures Loaded(slices, n + 1) == Loaded(slices, n) + {slices[n]}
  {
    TakeOneMore(slices, n);
  }

  /**
   The copy, from any point of it, up to the first turn whose slice a waiting slot
   refers to. It does what the value model does.
   */
  method Copy(c: Bytes, w: WriteAtBuffer, writers: seq<ChunkWriteSeeker>, turns: seq<Turn>, slices: seq<array<bv8>>)
    returns (taken: nat, ok: bool)
    requires w.Valid() && Sharing(writers, w) && Equipped(turns, slices, |writers|)
    modifies w, writers, slices
    ensures w.Valid() && taken <= |turns|
    ensures taken < |turns| ==> slices[taken] in Arrays(w.bufferSlot)
    ensures Arrays(w.bufferSlot) <= old(Arrays(w.bufferSlot)) + Loaded(slices, taken)
    ensures forall t | t in turns[..taken] :: t.who < |writers|
    ensures Copying(Views(writers), w.View(), ok)
         == RunTurns(c, Copying(old(Views(writers)), old(w.View()), true), turns[..taken])
  {
    taken, ok := 0, true;
    ghost var start, arrays := Copying(Views(writers), w.View(), true), Arrays(w.bufferSlot);
    EquippedTurns(turns, slices, |writers|, 0);
    while taken < |turns|
      invariant taken <= |turns| && w.Valid()
      invariant Copying(Views(writers), w.View(), ok) == RunTurns(c, start, turns[..taken])
      invariant Arrays(w.bufferSlot) <= arrays + Loaded(slices, taken)
    {
      var shared, fine := NextTurn(c, w, writers, turns, taken, slices[taken], ok, start);
      if shared {
        break;
      }
      ok := fine;
      LoadedMore(slices, taken);
      taken := taken + 1;
    }
  }

  /**
   A copy that runs to its end from any point, whatever the waiting slots hold by
   then: the output is the content exactly when the slots held its bytes at that
   point, and so did the output.
   */
  method FinishCopy(c: Bytes, w: WriteAtBuffer, writers: seq<ChunkWriteSeeker>, turns: seq<Turn>,
                    slices: seq<array<bv8>>)
    returns (taken: nat, ok: bool)
    requires w.Valid() && Sharing(writers, w) && Equipped(turns, slices, |writers|)
    requires PartWay(|c|, Copying(Views(writers), w.View(), true))
    modifies w, writers, slices
    ensures w.Valid() && taken <= |turns|
    ensures taken < |turns| ==> slices[taken] in Arrays(w.bufferSlot)
    ensures PartWay(|c|, Copying(Views(writers), w.View(), ok))
    ensures (forall s | s in Views(writers) :: s.remainder == 0) ==>
              && ok && w.bufferSlot == []
              && (w.output == c <==> old(w.output) <= c && SlotsMatch(c, old(w.View()).slots))
  {
    ghost var start := Copying(Views(writers), w.View(), true);
    taken, ok := Copy(c, w, writers, turns, slices);
    CopyFromIff(c, start, turns[..taken]);
    PartWayKept(c, start, turns[..taken]);
  }

  /**
   A copy with any slices, reused or not: no write fails, it stays part way, so that
   FinishCopy can follow, and once the windows are finished everything is emitted.
   Only the bytes can be wrong.
   */
  method CopyReusing(c: Bytes, w: WriteAtBuffer, writers: seq<ChunkWriteSeeker>, turns: seq<Turn>,
                     slices: seq<array<bv8>>)
    returns (ok: bool)
    requires w.Valid() && Sharing(writers, w) && Equipped(turns, slices, |writers|)
    requires PartWay(|c|, Copying(Views(writers), w.View(), true))
    modifies w, writers, slices
    ensures w.Valid() && ok && PartWay(|c|, Copying(Views(writers), w.View(), ok))
    ensures (forall s | s in Views(writers) :: s.remainder == 0) ==> w.bufferSlot == [] && |w.output| == |c|
  {
    ok := true;
    for i := 0 to |turns|
      invariant w.Valid() && PartWay(|c|, Copying(Views(writers), w.View(), ok))
    {
      ok := ReuseTurn(c, w, writers, turns[i], slices[i], ok);
    }
    if forall s | s in Views(writers) :: s.remainder == 0 {
      PartWayDone(|c|, Copying(Views(writers), w.View(), ok));
    }
  }

  /** A whole copy by fresh writers, each turn with a slice of its own: the output is the content. */
  method CopyChunks(c: Bytes, w: WriteAtBuffer, writers: seq<ChunkWriteSeeker>, turns: seq<Turn>,
                    slices: seq<array<bv8>>)
    returns (ok: bool)
    requires w.Valid() && w.View() == Buffer([], []) && Sharing(writers, w) && Equipped(turns, slices, |writers|)
    requires Fresh(c, Views(writers))
    requires forall i, j | 0 <= i < j < |slices| :: slices[i] != slices[j]
    modifies w, writers, slices
    ensures w.Valid() && ok && forall t | t in turns :: t.who < |writers|
    ensures InProgress(c, Copying(Views(writers), w.View(), ok))
    ensures Copying(Views(writers), w.View(), ok)
         == RunTurns(c, Copying(old(Views(writers)), Buffer([], []), true), turns)
    ensures (forall s | s in Views(writers) :: s.remainder == 0) ==> w.View() == Buffer(c, [])
  {
    ghost var start := Copying(Views(writers), Buffer([], []), true);
    EquippedTurns(turns, slices, |writers|, |turns|);
    var taken: nat;
    taken, ok := Copy(c, w, writers, turns, slices);
    AllTaken(slices, taken, Arrays(w.bufferSlot));
    WholeCopy(c, start, turns, taken, Copying(Views(writers), w.View(), ok));
  }

  /** Slices that are all different: none is in use before its turn. */
  lemma {:induction false} AllTaken(slices: seq<array<bv8>>, taken: nat, arrays: set<array<bv8>>)
    requires forall i, j | 0 <= i < j < |slices| :: slices[i] != slices[j]
    requires taken <= |slices| && (taken < |slices| ==> slices[taken] in arrays)
    requires arrays <= Loaded(slices, taken)
    ensures taken == |slices|
  {
  }

  lemma {:induction false} WholeCopy(c: Bytes, start: Copying, turns: seq<Turn>, taken: nat, end: Copying)
    requires Fresh(c, start.writers) && start == Copying(start.writers, Buffer([], []), true)
    requires taken == |turns| && forall t | t in turns :: t.who < |start.writers|
    requires (forall t | t in turns[..taken] :: t.who < |start.writers|) && end == RunTurns(c, start, turns[..taken])
    ensures InProgress(c, end) && end == RunTurns(c, start, turns)
    ensures (forall s | s in end.writers :: s.remainder == 0) ==> end.buffer == Buffer(c, [])
  {
    assert turns[..taken] == turns;
    FinishedCopy(c, start.writers, turns);
  }
}
