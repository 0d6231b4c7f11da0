/**
 WriteAtBuffer as the object it is. A slot keeps the caller's byte slice, not a
 copy, so a slot's bytes are whatever that slice holds when it is emitted.
 */
module WriteAtBuffers {
  import opened WriteAt

  /** The first size bytes of a slice waiting to be emitted at pos. */
  datatype BufferAt = BufferAt(pos: int, size: nat, data: array<bv8>)

  ghost predicate WellSized(slots: seq<BufferAt>) {
    forall s | s in slots :: s.size <= s.data.Length
  }

  ghost function Arrays(slots: seq<BufferAt>): set<array<bv8>> {
    set s | s in slots :: s.data
  }

  /** The slots with the bytes their slices hold now. */
  ghost function SlotView(slots: seq<BufferAt>): (view: seq<Slot>)
    requires WellSized(slots)
    reads Arrays(slots)
    ensures |view| == |slots|
    ensures forall i | 0 <= i < |slots| :: view[i] == Slot(slots[i].pos, slots[i].data[..slots[i].size])
  {
    if slots == [] then []
    else [Slot(slots[0].pos, slots[0].data[..slots[0].size])] + SlotView(slots[1..])
  }

  ghost predicate Ordered(slots: seq<BufferAt>) {
    forall i, j | 0 <= i < j < |slots| :: slots[i].pos <= slots[j].pos
  }

  lemma {:induction false} SlotViewInsert(slots: seq<BufferAt>, s: BufferAt, index: nat)
    requires WellSized(slots) && s.size <= s.data.Length && index <= |slots|
    requires forall i | 0 <= i < index :: slots[i].pos <= s.pos
    requires forall i | index <= i < |slots| :: s.pos < slots[i].pos
    ensures WellSized(slots[..index] + [s] + slots[index..])
    ensures SlotView(slots[..index] + [s] + slots[index..]) == Insert(SlotView(slots), Slot(s.pos, s.data[..s.size]))
  {
    var slot, before := Slot(s.pos, s.data[..s.size]), SlotView(slots);
    WellSizedInsert(slots, s, index);
    SlotViewIs(slots[..index] + [s] + slots[index..], before[..index] + [slot] + before[index..]);
    InsertAt(before, slot, index);
  }

  lemma {:induction false} WellSizedInsert(slots: seq<BufferAt>, s: BufferAt, index: nat)
    requires WellSized(slots) && s.size <= s.data.Length && index <= |slots|
    ensures WellSized(slots[..index] + [s] + slots[index..])
  {
  }

  lemma {:induction false} SlotViewIs(slots: seq<BufferAt>, view: seq<Slot>)
    requires WellSized(slots) && |view| == |slots|
    requires forall i | 0 <= i < |slots| :: view[i] == Slot(slots[i].pos, slots[i].data[..slots[i].size])
    ensures SlotView(slots) == view
  {
    var v := SlotView(slots);
    assert forall i | 0 <= i < |slots| :: v[i] == view[i];
  }

  lemma {:induction false} OrderedInsert(slots: seq<BufferAt>, s: BufferAt, index: nat)
    requires Ordered(slots) && index <= |slots|
    requires forall i | 0 <= i < index :: slots[i].pos <= s.pos
    requires forall i | index <= i < |slots| :: s.pos < slots[i].pos
    ensures Ordered(slots[..index] + [s] + slots[index..])
    ensures Arrays(slots[..index] + [s] + slots[index..]) <= Arrays(slots) + {s.data}
  {
    var all := slots[..index] + [s] + slots[index..];
    forall i, j | 0 <= i < j < |all|
      ensures all[i].pos <= all[j].pos
    {
      assert all[i] == if i < index then slots[i] else if i == index then s else slots[i - 1];
      assert all[j] == if j < index then slots[j] else if j == index then s else slots[j - 1];
    }
    assert forall x | x in all :: x == s || x in slots;
  }

  class WriteAtBuffer {
    var output: Bytes
    var outAt: int
    var bufferSlot: seq<BufferAt>

    ghost predicate Valid()
      reads this
    {
      outAt == |output| && WellSized(bufferSlot) && Ordered(bufferSlot)
    }

    ghost function View(): Buffer
      requires Valid()
      reads this, Arrays(bufferSlot)
    {
      Buffer(output, SlotView(bufferSlot))
    }

    constructor ()
      ensures Valid() && View() == Buffer([], [])
    {
      output, outAt, bufferSlot := [], 0, [];
    }

    method Close() returns (ok: bool)
      requires Valid()
      ensures ok <==> View().slots == []
    {
      ok := |bufferSlot| == 0;
    }

    /** sort.Search: the first slot with a greater position. */
    method Search(offset: int) returns (index: nat)
      requires Valid()
      ensures index <= |bufferSlot|
      ensures forall i | 0 <= i < index :: bufferSlot[i].pos <= offset
      ensures forall i | index <= i < |bufferSlot| :: offset < bufferSlot[i].pos
    {
      var lo, hi := 0, |bufferSlot|;
      while lo < hi
        invariant 0 <= lo <= hi <= |bufferSlot|
        invariant forall i | 0 <= i < lo :: bufferSlot[i].pos <= offset
        invariant forall i | hi <= i < |bufferSlot| :: offset < bufferSlot[i].pos
      {
        var mid := (lo + hi) / 2;
        if offset < bufferSlot[mid].pos {
          hi := mid;
        } else {
          lo := mid + 1;
        }
      }
      index := lo;
    }

    /** Writes the first size bytes of b. */
    method WriteAt(b: array<bv8>, size: nat, offset: int) returns (n: nat, ok: bool)
      requires Valid() && size <= b.Length
      modifies this
      ensures Valid()
      ensures View() == Write(old(View()), b[..size], offset).buffer
      ensures n == size && ok == Write(old(View()), b[..size], offset).ok
      ensures Arrays(bufferSlot) <= old(Arrays(bufferSlot)) + {b}
    {
      if offset == outAt {
        output := output + b[..size];
        outAt := outAt + size;
      } else if size > 0 {
        AddSlot(b, size, offset);
      }
      ok := DrainSlots();
      n := size;
    }

    method AddSlot(b: array<bv8>, size: nat, offset: int)
      requires Valid() && 0 < size <= b.Length
      modifies this`bufferSlot
      ensures Valid()
      ensures View() == old(View()).(slots := Insert(old(View()).slots, Slot(offset, b[..size])))
      ensures Arrays(bufferSlot) <= old(Arrays(bufferSlot)) + {b}
    {
      var index := Search(offset);
      var slot := BufferAt(offset, size, b);
      SlotViewInsert(bufferSlot, slot, index);
      OrderedInsert(bufferSlot, slot, index);
      bufferSlot := bufferSlot[..index] + [slot] + bufferSlot[index..];
    }

    /** The loop that emits contiguous slots. */
    method DrainSlots() returns (ok: bool)
      requires Valid()
      modifies this
      ensures Valid()
      ensures (View(), ok) == Drain(old(View()))
      ensures Arrays(bufferSlot) <= old(Arrays(bufferSlot))
    {
      while bufferSlot != []
        invariant Valid()
        invariant Drain(View()) == Drain(old(View()))
        invariant Arrays(bufferSlot) <= old(Arrays(bufferSlot))
        decreases |bufferSlot|
      {
        var s := bufferSlot[0];
        ghost var before := View();
        if outAt > s.pos {
          return false;
        } else if outAt < s.pos {
          return true;
        }
        output := output + s.data[..s.size];
        outAt := outAt + s.size;
        bufferSlot := bufferSlot[1..];
        assert View() == Buffer(before.out + before.slots[0].data, before.slots[1..]);
      }
      ok := true;
    }
  }

  /** A caller that reuses its slice while a slot still refers to it changes what is emitted. */
  method ReuseCorrupts() returns (emitted: Bytes)
    ensures emitted == [9, 9]
    ensures var content := [9, 7]; emitted != content && |emitted| == |content|
  {
    var w := new WriteAtBuffer();
    var b := new bv8[1];
    b[0] := 7;
    var n, ok := w.WriteAt(b, 1, 1);
    assert b[..1] == [7];
    assert w.View() == Buffer([], [Slot(1, [7])]);
    assert w.bufferSlot[0].data in Arrays(w.bufferSlot);
    assert w.bufferSlot == [BufferAt(1, 1, b)] by {
      assert |w.bufferSlot[0].data[..w.bufferSlot[0].size]| == 1;
    }
    b[0] := 9;
    assert b[..1] == [9];
    assert w.View() == Buffer([], [Slot(1, [9])]);
    n, ok := w.WriteAt(b, 1, 0);
    DrainsOne(9);
    emitted := w.output;
  }

  lemma {:induction false} DrainsOne(x: bv8)
    ensures Write(Buffer([], [Slot(1, [x])]), [x], 0).buffer.out == [x, x]
  {
    assert [] + [x] == [x];
    assert Drain(Buffer([x, x], [])).0 == Buffer([x, x], []);
    assert Drain(Buffer([x], [Slot(1, [x])])).0.out == [x, x];
  }
}
