/**
 The out-of-order writer: WriteAtBuffer emits bytes as soon as they are
 contiguous with what was emitted and keeps the others in sorted slots.
 */
module WriteAt {
  import opened Common

  type Bytes = seq<bv8>

  datatype Slot = Slot(pos: int, data: Bytes) {
    function End(): int {
      pos + |data|
    }
  }

  /** The emitted bytes and the waiting slots; the output position is |out|. */
  datatype Buffer = Buffer(out: Bytes, slots: seq<Slot>)

  datatype Written = Written(buffer: Buffer, n: nat, ok: bool)

  // ----- WriteAt on values

  /** Insertion before the first slot with a greater position. */
  function Insert(slots: seq<Slot>, s: Slot): seq<Slot> {
    if slots == [] || s.pos < slots[0].pos then [s] + slots
    else [slots[0]] + Insert(slots[1..], s)
  }

  lemma {:induction false} InsertAt(slots: seq<Slot>, s: Slot, index: nat)
    requires index <= |slots|
    requires forall i | 0 <= i < index :: slots[i].pos <= s.pos
    requires index < |slots| ==> s.pos < slots[index].pos
    ensures Insert(slots, s) == slots[..index] + [s] + slots[index..]
    decreases index
  {
    if index > 0 {
      InsertAt(slots[1..], s, index - 1);
    }
  }

  /** Emits slots while the first one starts at the output position; false when it starts before it. */
  function Drain(b: Buffer): (Buffer, bool)
    decreases |b.slots|
  {
    if b.slots == [] || |b.out| < b.slots[0].pos then (b, true)
    else if |b.out| > b.slots[0].pos then (b, false)
    else Drain(Buffer(b.out + b.slots[0].data, b.slots[1..]))
  }

  function Place(b: Buffer, data: Bytes, offset: int): Buffer {
    if offset == |b.out| then b.(out := b.out + data)
    else if data == [] then b
    else b.(slots := Insert(b.slots, Slot(offset, data)))
  }

  function Write(b: Buffer, data: Bytes, offset: int): Written {
    var (b', ok) := Drain(Place(b, data, offset));
    Written(b', |data|, ok)
  }

  // ----- the invariant

  predicate Between(a: int, i: int, b: int) {
    a <= i < b
  }

  function Range(a: int, b: int): set<int> {
    set i | a <= i < b && Between(a, i, b)
  }

  /** Non-empty slots at or after lo, each ending before the next one starts. */
  ghost predicate Sorted(lo: int, slots: seq<Slot>)
    decreases |slots|
  {
    slots != [] ==> lo <= slots[0].pos && slots[0].data != [] && Sorted(slots[0].End(), slots[1..])
  }

  ghost predicate Matches(c: Bytes, data: Bytes, offset: int) {
    0 <= offset && offset + |data| <= |c| && c[offset..offset + |data|] == data
  }

  ghost predicate SlotsMatch(c: Bytes, slots: seq<Slot>) {
    forall s | s in slots :: Matches(c, s.data, s.pos)
  }

  function SlotCover(slots: seq<Slot>): set<int> {
    if slots == [] then {} else Range(slots[0].pos, slots[0].End()) + SlotCover(slots[1..])
  }

  /** b holds exactly the bytes of c at the positions cov, and can emit nothing more. */
  ghost predicate Holds(b: Buffer, c: Bytes, cov: set<int>) {
    && b.out <= c
    && Sorted(|b.out| + 1, b.slots)
    && SlotsMatch(c, b.slots)
    && cov == Range(0, |b.out|) + SlotCover(b.slots)
  }

  lemma {:induction false} CoverBounds(lo: int, slots: seq<Slot>)
    requires Sorted(lo, slots)
    ensures forall i | i in SlotCover(slots) :: lo <= i
    decreases |slots|
  {
    if slots != [] {
      CoverBounds(slots[0].End(), slots[1..]);
    }
  }

  /** The emitted output is the longest covered prefix, and only a gap keeps slots waiting. */
  lemma {:induction false} LongestPrefix(b: Buffer, c: Bytes, cov: set<int>)
    requires Holds(b, c, cov)
    ensures b.out == c[..|b.out|]
    ensures Range(0, |b.out|) <= cov && |b.out| !in cov
    ensures b.slots == [] <==> cov == Range(0, |b.out|)
  {
    CoverBounds(|b.out| + 1, b.slots);
    if b.slots != [] {
      assert b.slots[0].pos in cov;
    }
  }

  // ----- draining

  lemma {:induction false} DrainHolds(b: Buffer, c: Bytes)
    requires b.out <= c && Sorted(|b.out|, b.slots) && SlotsMatch(c, b.slots)
    ensures Drain(b).1
    ensures Holds(Drain(b).0, c, Range(0, |b.out|) + SlotCover(b.slots))
    decreases |b.slots|
  {
    if b.slots != [] && b.slots[0].pos == |b.out| {
      var s := b.slots[0];
      var b' := Buffer(b.out + s.data, b.slots[1..]);
      assert c[..|b'.out|] == c[..|b.out|] + c[s.pos..s.End()];
      DrainHolds(b', c);
      assert Range(0, |b'.out|) == Range(0, |b.out|) + Range(s.pos, s.End());
    }
  }

  // ----- inserting

  lemma {:induction false} InsertSorted(lo: int, slots: seq<Slot>, s: Slot)
    requires Sorted(lo, slots) && lo <= s.pos && s.data != []
    requires Range(s.pos, s.End()) !! SlotCover(slots)
    ensures Sorted(lo, Insert(slots, s))
    ensures SlotCover(Insert(slots, s)) == SlotCover(slots) + Range(s.pos, s.End())
    ensures forall x | x in Insert(slots, s) :: x == s || x in slots
    decreases |slots|
  {
    if slots == [] {
      assert ([s] + slots)[1..] == slots;
    } else if s.pos < slots[0].pos {
      assert slots[0].pos in SlotCover(slots);
      assert slots[0].pos !in Range(s.pos, s.End());
      assert ([s] + slots)[1..] == slots;
    } else {
      var h := slots[0];
      assert s.pos in Range(s.pos, s.End()) && s.pos !in SlotCover(slots);
      assert h.End() <= s.pos;
      InsertSorted(h.End(), slots[1..], s);
      assert Insert(slots, s)[1..] == Insert(slots[1..], s);
    }
  }

  lemma {:induction false} SortedRaise(lo: int, lo': int, slots: seq<Slot>)
    requires Sorted(lo, slots)
    requires slots != [] ==> lo' <= slots[0].pos
    ensures Sorted(lo', slots)
  {
  }

  /** A write that overlaps nothing written before succeeds and adds exactly its own positions. */
  lemma {:induction false} WriteHolds(b: Buffer, c: Bytes, cov: set<int>, data: Bytes, offset: int)
    requires Holds(b, c, cov) && Matches(c, data, offset)
    requires Range(offset, offset + |data|) !! cov
    ensures Write(b, data, offset).ok && Write(b, data, offset).n == |data|
    ensures Holds(Write(b, data, offset).buffer, c, cov + Range(offset, offset + |data|))
  {
    PlaceHolds(b, c, cov, data, offset);
    DrainHolds(Place(b, data, offset), c);
  }

  lemma {:induction false} PlaceHolds(b: Buffer, c: Bytes, cov: set<int>, data: Bytes, offset: int)
    requires Holds(b, c, cov) && Matches(c, data, offset)
    requires Range(offset, offset + |data|) !! cov
    ensures var b' := Place(b, data, offset);
            && b'.out <= c && Sorted(|b'.out|, b'.slots) && SlotsMatch(c, b'.slots)
            && Range(0, |b'.out|) + SlotCover(b'.slots) == cov + Range(offset, offset + |data|)
  {
    var b' := Place(b, data, offset);
    var added := Range(offset, offset + |data|);
    if offset == |b.out| {
      assert c[..|b'.out|] == c[..|b.out|] + c[offset..offset + |data|];
      if b.slots != [] {
        assert b.slots[0].pos in cov;
        assert b.slots[0].pos !in added;
      }
      SortedRaise(|b.out| + 1, |b'.out|, b.slots);
      assert Range(0, |b'.out|) == Range(0, |b.out|) + added;
    } else if data != [] {
      assert offset in added && offset !in cov;
      assert offset > |b.out|;
      InsertSorted(|b.out| + 1, b.slots, Slot(offset, data));
      SortedRaise(|b.out| + 1, |b.out|, b'.slots);
    } else {
      SortedRaise(|b.out| + 1, |b.out|, b.slots);
      assert added == {};
    }
    assert Range(0, |b'.out|) + SlotCover(b'.slots) == cov + added;
  }

  /**
   A non-empty write fails exactly when its offset is negative, or it overlaps written
   bytes and does not start beyond the output position.
   */
  lemma {:induction false} OverlapFailsIff(b: Buffer, c: Bytes, cov: set<int>, data: Bytes, offset: int)
    requires Holds(b, c, cov) && data != []
    ensures !Write(b, data, offset).ok
       <==> offset < 0 || (offset <= |b.out| && !(Range(offset, offset + |data|) !! cov))
  {
    CoverBounds(|b.out| + 1, b.slots);
    var b' := Place(b, data, offset);
    if offset == |b.out| {
      AppendFailsIff(b, c, cov, data);
    } else if offset < |b.out| {
      assert b'.slots == Insert(b.slots, Slot(offset, data));
      assert offset in Range(offset, offset + |data|) && (offset >= 0 ==> offset in cov);
    } else {
      InsertedBeyond(|b.out|, b.slots, Slot(offset, data));
    }
  }

  lemma {:induction false} InsertedBeyond(at: int, slots: seq<Slot>, s: Slot)
    requires at < s.pos && (slots != [] ==> at < slots[0].pos)
    ensures Insert(slots, s) != [] && at < Insert(slots, s)[0].pos
  {
  }

  lemma {:induction false} AppendFailsIff(b: Buffer, c: Bytes, cov: set<int>, data: Bytes)
    requires Holds(b, c, cov) && data != []
    ensures !Write(b, data, |b.out|).ok <==> !(Range(|b.out|, |b.out| + |data|) !! cov)
  {
    var added := Range(|b.out|, |b.out| + |data|);
    var b' := Place(b, data, |b.out|);
    CoverBounds(|b.out| + 1, b.slots);
    if b.slots != [] && b.slots[0].pos < |b'.out| {
      assert b.slots[0].pos in added && b.slots[0].pos in cov;
    } else {
      SortedRaise(|b.out| + 1, |b'.out|, b.slots);
      CoverBounds(|b'.out|, b.slots);
      DrainTotal(b');
    }
  }

  lemma {:induction false} DrainTotal(b: Buffer)
    requires Sorted(|b.out|, b.slots)
    ensures Drain(b).1
    decreases |b.slots|
  {
    if b.slots != [] && b.slots[0].pos == |b.out| {
      DrainTotal(Buffer(b.out + b.slots[0].data, b.slots[1..]));
    }
  }

  // ----- overlapping writes

  /** Non-empty slots in order of their positions, the first at or after lo; they may overlap. */
  ghost predicate InOrder(lo: int, slots: seq<Slot>)
    decreases |slots|
  {
    slots != [] ==> lo <= slots[0].pos && slots[0].data != [] && InOrder(slots[0].pos, slots[1..])
  }

  /** A buffer on which no write has failed: every slot waits beyond the output position. */
  ghost predicate Waits(b: Buffer) {
    InOrder(|b.out| + 1, b.slots)
  }

  /** How many slots cover position i. */
  function Times(slots: seq<Slot>, i: int): nat {
    if slots == [] then 0 else (if slots[0].pos <= i < slots[0].End() then 1 else 0) + Times(slots[1..], i)
  }

  /** Some position is covered twice, with no gap between it and the start. */
  ghost predicate Clash(at: int, slots: seq<Slot>) {
    exists p | at <= p :: Times(slots, p) >= 2 && forall q | at <= q <= p :: Times(slots, q) >= 1
  }

  lemma {:induction false} NotCovered(lo: int, slots: seq<Slot>, i: int)
    requires InOrder(lo, slots) && (slots != [] ==> i < slots[0].pos)
    ensures Times(slots, i) == 0
    decreases |slots|
  {
    if slots != [] {
      NotCovered(slots[0].pos, slots[1..], i);
    }
  }

  /** Behind a first slot, a clash is a slot that starts within it or a clash after it. */
  lemma {:induction false} ClashBehind(s: Slot, rest: seq<Slot>)
    requires s.data != [] && InOrder(s.pos, rest)
    ensures Clash(s.pos, [s] + rest) <==> (rest != [] && rest[0].pos < s.End()) || Clash(s.End(), rest)
  {
    var all := [s] + rest;
    assert all[1..] == rest;
    if rest != [] && rest[0].pos < s.End() {
      assert Times(all, rest[0].pos) >= 2;
    } else if Clash(s.End(), rest) {
      var p :| s.End() <= p && Times(rest, p) >= 2 && forall q | s.End() <= q <= p :: Times(rest, q) >= 1;
      assert Times(all, p) >= 2;
      forall q | s.pos <= q <= p ensures Times(all, q) >= 1 {
        assert q >= s.End() ==> Times(rest, q) >= 1;
      }
    }
    if Clash(s.pos, all) {
      var p :| s.pos <= p && Times(all, p) >= 2 && forall q | s.pos <= q <= p :: Times(all, q) >= 1;
      if p < s.End() {
        if rest == [] || p < rest[0].pos {
          NotCovered(s.pos, rest, p);
        }
      } else {
        assert Times(rest, p) >= 2;
        forall q | s.End() <= q <= p ensures Times(rest, q) >= 1 {
          assert Times(all, q) >= 1;
        }
      }
    }
  }

  /** Draining meets a slot it has passed exactly when the first is one, or there is a clash. */
  lemma {:induction false} DrainFailsIff(lo: int, b: Buffer)
    requires InOrder(lo, b.slots)
    ensures !Drain(b).1 <==> (b.slots != [] && b.slots[0].pos < |b.out|) || Clash(|b.out|, b.slots)
    ensures Drain(b).1 ==> Waits(Drain(b).0)
    decreases |b.slots|
  {
    if b.slots == [] || |b.out| < b.slots[0].pos {
      NotCovered(lo, b.slots, |b.out|);
    } else if |b.out| == b.slots[0].pos {
      var s, rest := b.slots[0], b.slots[1..];
      assert b.slots == [s] + rest;
      ClashBehind(s, rest);
      DrainFailsIff(s.pos, Buffer(b.out + s.data, rest));
    }
  }

  lemma {:induction false} InsertInOrder(lo: int, slots: seq<Slot>, s: Slot)
    requires InOrder(lo, slots) && s.data != []
    ensures InOrder(if s.pos < lo then s.pos else lo, Insert(slots, s))
    decreases |slots|
  {
    if slots != [] && s.pos >= slots[0].pos {
      InsertInOrder(slots[0].pos, slots[1..], s);
      assert Insert(slots, s)[1..] == Insert(slots[1..], s);
    } else {
      assert ([s] + slots)[1..] == slots;
    }
  }

  /**
   Whatever was written before, a write fails exactly when it starts before the output
   position, or a position is then written twice with no gap before it.
   */
  lemma {:induction false} WriteFailsIff(b: Buffer, data: Bytes, offset: int)
    requires Waits(b)
    ensures !Write(b, data, offset).ok
       <==> data != [] && (offset < |b.out| || Clash(|b.out|, [Slot(offset, data)] + b.slots))
    ensures Write(b, data, offset).ok ==> Waits(Write(b, data, offset).buffer)
  {
    var b', s := Place(b, data, offset), Slot(offset, data);
    if data == [] {
      assert b' == b by {
        ConcatEmpty(b.out);
      }
      DrainFailsIff(|b.out| + 1, b);
      NotCovered(|b.out| + 1, b.slots, |b.out|);
    } else if offset == |b.out| {
      DrainFailsIff(|b.out| + 1, b');
      ClashBehind(s, b.slots);
    } else {
      InsertInOrder(|b.out| + 1, b.slots, s);
      if offset > |b.out| {
        InsertedBeyond(|b.out|, b.slots, s);
        NotCovered(|b.out| + 1, b.slots, |b.out|);
        assert ([s] + b.slots)[1..] == b.slots;
        assert Times([s] + b.slots, |b.out|) == 0;
      }
    }
  }

  /** Draining emits up to the first position that no slot covers, each byte from the only slot that covers it. */
  lemma {:induction false} DrainEmits(lo: int, b: Buffer)
    requires InOrder(lo, b.slots) && Drain(b).1
    ensures Emits(b.out, b.slots, Drain(b).0.out)
    ensures b.slots != [] ==> |b.out| <= b.slots[0].pos
    decreases |b.slots|
  {
    if b.slots == [] || |b.out| < b.slots[0].pos {
      NotCovered(lo, b.slots, |b.out|);
    } else {
      var s, rest, b' := b.slots[0], b.slots[1..], Drain(b).0;
      var b1 := Buffer(b.out + s.data, rest);
      DrainEmits(s.pos, b1);
      assert b1.out <= b'.out;
      forall i | |b.out| <= i < |b'.out| ensures Times(b.slots, i) == 1 && ByteAt(b.slots, i) == Some(b'.out[i]) {
        if i < s.End() {
          NotCovered(s.pos, rest, i);
          assert b'.out[i] == b1.out[i] == s.data[i - s.pos];
        }
      }
    }
  }

  /** From out to out', each byte is that of the only slot at its position, and the next position has none. */
  ghost predicate Emits(out: Bytes, slots: seq<Slot>, out': Bytes) {
    && out <= out' && Times(slots, |out'|) == 0
    && forall i | |out| <= i < |out'| :: Times(slots, i) == 1 && ByteAt(slots, i) == Some(out'[i])
  }

  /** What an accepted write emits, whatever was written before, overlapping slots included. */
  lemma {:induction false} WriteEmits(b: Buffer, data: Bytes, offset: int)
    requires Waits(b) && Write(b, data, offset).ok
    ensures Emits(b.out, [Slot(offset, data)] + b.slots, Write(b, data, offset).buffer.out)
  {
    var b', s := Place(b, data, offset), Slot(offset, data);
    var all := [s] + b.slots;
    assert all[1..] == b.slots && all[0] == s;
    NotCovered(|b.out| + 1, b.slots, |b.out|);
    if offset == |b.out| {
      AppendEmits(b, data);
    } else if data == [] {
      DrainEmits(|b.out| + 1, b);
      assert Drain(b).0 == b;
    } else {
      WriteFailsIff(b, data, offset);
      InsertedBeyond(|b.out|, b.slots, s);
      assert Drain(b').0 == b';
    }
  }

  lemma {:induction false} AppendEmits(b: Buffer, data: Bytes)
    requires Waits(b) && Write(b, data, |b.out|).ok
    ensures Emits(b.out, [Slot(|b.out|, data)] + b.slots, Write(b, data, |b.out|).buffer.out)
  {
    var b1, s := Buffer(b.out + data, b.slots), Slot(|b.out|, data);
    var all, b' := [s] + b.slots, Drain(b1).0;
    assert all[1..] == b.slots && all[0] == s;
    DrainEmits(|b.out| + 1, b1);
    forall i | |b.out| <= i < |b'.out| ensures Times(all, i) == 1 && ByteAt(all, i) == Some(b'.out[i]) {
      if i < s.End() {
        NotCovered(|b.out| + 1, b.slots, i);
        assert b'.out[i] == b1.out[i] == data[i - |b.out|];
      }
    }
  }

  /** Once a write has failed every later one fails. */
  lemma {:induction false} FailsForGood(b: Buffer, data: Bytes, offset: int, data': Bytes, offset': int)
    requires !Write(b, data, offset).ok
    ensures !Write(Write(b, data, offset).buffer, data', offset').ok
  {
    DrainStuck(Place(b, data, offset));
  }

  lemma {:induction false} DrainStuck(b: Buffer)
    requires !Drain(b).1
    ensures var b' := Drain(b).0; b'.slots != [] && b'.slots[0].pos < |b'.out|
    decreases |b.slots|
  {
    if |b.out| == b.slots[0].pos {
      DrainStuck(Buffer(b.out + b.slots[0].data, b.slots[1..]));
    }
  }

  /** In every run of writes none of which failed, WriteFailsIff says which next one does. */
  lemma {:induction false} WriteAllWaits(b: Buffer, ps: seq<Piece>)
    requires Waits(b) && WriteAll(b, ps).ok
    ensures Waits(WriteAll(b, ps).buffer)
    decreases |ps|
  {
    if ps != [] {
      var p, before := ps[|ps| - 1], ps[..|ps| - 1];
      WriteAllWaits(b, before);
      WriteFailsIff(WriteAll(b, before).buffer, p.data, p.offset);
    }
  }

  // ----- whole runs

  datatype Piece = Piece(offset: int, data: Bytes)

  function Cover(ps: seq<Piece>): set<int> {
    if ps == [] then {}
    else var p := ps[|ps| - 1]; Cover(ps[..|ps| - 1]) + Range(p.offset, p.offset + |p.data|)
  }

  /** Pieces of c that overlap neither each other nor cov. */
  ghost predicate Pieces(c: Bytes, cov: set<int>, ps: seq<Piece>) {
    ps != [] ==>
      var p := ps[|ps| - 1];
      && Pieces(c, cov, ps[..|ps| - 1])
      && Matches(c, p.data, p.offset)
      && Range(p.offset, p.offset + |p.data|) !! cov + Cover(ps[..|ps| - 1])
  }

  /** The writes in order of arrival; ok as long as every one of them was. */
  function WriteAll(b: Buffer, ps: seq<Piece>): Written {
    if ps == [] then Written(b, 0, true)
    else
      var w := WriteAll(b, ps[..|ps| - 1]);
      var p := ps[|ps| - 1];
      var w' := Write(w.buffer, p.data, p.offset);
      Written(w'.buffer, w.n + w'.n, w.ok && w'.ok)
  }

  /** In any arrival order, every write succeeds and the output is the longest covered prefix of c. */
  lemma {:induction false} WriteAllHolds(b: Buffer, c: Bytes, cov: set<int>, ps: seq<Piece>)
    requires Holds(b, c, cov) && Pieces(c, cov, ps)
    ensures WriteAll(b, ps).ok
    ensures Holds(WriteAll(b, ps).buffer, c, cov + Cover(ps))
    decreases |ps|
  {
    if ps == [] {
      assert cov + Cover(ps) == cov;
    } else {
      var p, before := ps[|ps| - 1], ps[..|ps| - 1];
      WriteAllHolds(b, c, cov, before);
      PieceHolds(WriteAll(b, before).buffer, c, cov, Cover(before), p, Cover(ps));
    }
  }

  lemma {:induction false} PieceHolds(b: Buffer, c: Bytes, cov: set<int>, before: set<int>, p: Piece, all: set<int>)
    requires Holds(b, c, cov + before) && Matches(c, p.data, p.offset)
    requires Range(p.offset, p.offset + |p.data|) !! cov + before
    requires all == before + Range(p.offset, p.offset + |p.data|)
    ensures Write(b, p.data, p.offset).ok && Holds(Write(b, p.data, p.offset).buffer, c, cov + all)
  {
    WriteHolds(b, c, cov + before, p.data, p.offset);
    assert (cov + before) + Range(p.offset, p.offset + |p.data|) == cov + all;
  }

  /** Once everything is covered the output is the content and nothing waits. */
  lemma {:induction false} HoldsAll(b: Buffer, c: Bytes)
    requires Holds(b, c, Range(0, |c|))
    ensures b == Buffer(c, [])
  {
    LongestPrefix(b, c, Range(0, |c|));
    assert |b.out| !in Range(0, |c|);
    assert c[..|c|] == c;
  }

  // ----- slots whose bytes have changed

  /** Waiting slots in order within the first total positions, whatever bytes they hold. */
  ghost predicate Shaped(b: Buffer, total: nat, cov: set<int>) {
    && |b.out| <= total && Sorted(|b.out| + 1, b.slots)
    && (forall s | s in b.slots :: s.End() <= total)
    && cov == Range(0, |b.out|) + SlotCover(b.slots)
  }

  /** The byte a slot holds for position i. */
  function ByteAt(slots: seq<Slot>, i: int): Option<bv8> {
    if slots == [] then None
    else if slots[0].pos <= i < slots[0].End() then Some(slots[0].data[i - slots[0].pos])
    else ByteAt(slots[1..], i)
  }

  /** The content c with what the buffer has emitted and holds now put over it. */
  function Shown(b: Buffer, c: Bytes): (now: Bytes)
    ensures |now| == |c|
  {
    seq(|c|, i requires 0 <= i < |c| =>
      if i < |b.out| then b.out[i]
      else match ByteAt(b.slots, i)
        case Some(byte) => byte
        case None => c[i])
  }

  lemma {:induction false} ByteOfSlot(lo: int, slots: seq<Slot>, k: nat, i: int)
    requires Sorted(lo, slots) && k < |slots| && slots[k].pos <= i < slots[k].End()
    ensures lo <= i && ByteAt(slots, i) == Some(slots[k].data[i - slots[k].pos])
    decreases |slots|
  {
    if k > 0 {
      ByteOfSlot(slots[0].End(), slots[1..], k - 1, i);
    }
  }

  lemma {:induction false} ByteIffCovered(slots: seq<Slot>, i: int)
    ensures ByteAt(slots, i).Some? <==> i in SlotCover(slots)
    decreases |slots|
  {
    if slots != [] {
      ByteIffCovered(slots[1..], i);
    }
  }

  /** A slot holds bytes of c exactly when c agrees with every one of them. */
  lemma {:induction false} MatchesIff(c: Bytes, data: Bytes, offset: nat)
    requires offset + |data| <= |c|
    ensures Matches(c, data, offset) <==> forall i | 0 <= i < |data| :: c[offset + i] == data[i]
  {
    var part := c[offset..offset + |data|];
    assert forall i | 0 <= i < |data| :: part[i] == c[offset + i];
  }

  /** The buffer holds the content it shows, which is c outside the positions it covers. */
  lemma {:induction false} ShownHolds(b: Buffer, c: Bytes, cov: set<int>)
    requires Shaped(b, |c|, cov)
    ensures Holds(b, Shown(b, c), cov)
    ensures forall i | 0 <= i < |c| && i !in cov :: Shown(b, c)[i] == c[i]
  {
    var now := Shown(b, c);
    forall s | s in b.slots ensures Matches(now, s.data, s.pos) {
      ShownSlot(b, c, cov, s);
    }
    forall i | 0 <= i < |c| && i !in cov ensures now[i] == c[i] {
      ByteIffCovered(b.slots, i);
      assert i !in Range(0, |b.out|);
    }
  }

  lemma {:induction false} ShownSlot(b: Buffer, c: Bytes, cov: set<int>, s: Slot)
    requires Shaped(b, |c|, cov) && s in b.slots
    ensures 0 < s.pos && Matches(Shown(b, c), s.data, s.pos)
  {
    var now := Shown(b, c);
    var k :| 0 <= k < |b.slots| && b.slots[k] == s;
    SlotsNonEmpty(|b.out| + 1, b.slots, k);
    forall i | 0 <= i < |s.data| ensures now[s.pos + i] == s.data[i] {
      ByteOfSlot(|b.out| + 1, b.slots, k, s.pos + i);
    }
    MatchesIff(now, s.data, s.pos);
  }

  lemma {:induction false} SlotsNonEmpty(lo: int, slots: seq<Slot>, k: nat)
    requires Sorted(lo, slots) && k < |slots|
    ensures lo <= slots[k].pos && slots[k].data != []
    decreases |slots|
  {
    if k > 0 {
      SlotsNonEmpty(slots[0].End(), slots[1..], k - 1);
    }
  }

  /** The content shown is c exactly when what was emitted and what the slots hold now are bytes of c. */
  lemma {:induction false} ShownIff(b: Buffer, c: Bytes, cov: set<int>)
    requires Shaped(b, |c|, cov)
    ensures Shown(b, c) == c <==> b.out <= c && SlotsMatch(c, b.slots)
  {
    ShownHolds(b, c, cov);
    if b.out <= c && SlotsMatch(c, b.slots) {
      forall i | 0 <= i < |c| ensures Shown(b, c)[i] == c[i] {
        if |b.out| <= i {
          ByteMatches(b.slots, c, i);
        }
      }
    }
  }

  lemma {:induction false} ByteMatches(slots: seq<Slot>, c: Bytes, i: nat)
    requires SlotsMatch(c, slots) && i < |c|
    ensures ByteAt(slots, i).Some? ==> ByteAt(slots, i).value == c[i]
    decreases |slots|
  {
    if slots != [] {
      assert slots[0] in slots;
      MatchesIff(c, slots[0].data, slots[0].pos);
      if slots[0].pos <= i < slots[0].End() {
        assert c[slots[0].pos + (i - slots[0].pos)] == c[i];
      } else {
        ByteMatches(slots[1..], c, i);
      }
    }
  }

  lemma {:induction false} SamePieces(c: Bytes, now: Bytes, cov: set<int>, ps: seq<Piece>)
    requires Pieces(c, cov, ps) && |now| == |c| && forall i | 0 <= i < |c| && i !in cov :: now[i] == c[i]
    ensures Pieces(now, cov, ps)
    decreases |ps|
  {
    if ps != [] {
      var p := ps[|ps| - 1];
      SamePieces(c, now, cov, ps[..|ps| - 1]);
      MatchesIff(c, p.data, p.offset);
      MatchesIff(now, p.data, p.offset);
      forall i | 0 <= i < |p.data| ensures now[p.offset + i] == p.data[i] {
        assert p.offset + i in Range(p.offset, p.offset + |p.data|);
      }
    }
  }

  /**
   Whatever the callers did to the slices that waiting slots refer to: when the
   remaining pieces of c are written, everything is emitted, and the output is c
   exactly when the slots held bytes of c at the start, and so did the output.
   */
  lemma {:induction false} ReuseHarmlessIff(b: Buffer, c: Bytes, cov: set<int>, ps: seq<Piece>)
    requires Shaped(b, |c|, cov) && Pieces(c, cov, ps) && cov + Cover(ps) == Range(0, |c|)
    ensures WriteAll(b, ps).ok && WriteAll(b, ps).buffer.slots == []
    ensures WriteAll(b, ps).buffer.out == c <==> b.out <= c && SlotsMatch(c, b.slots)
  {
    var now := Shown(b, c);
    ShownHolds(b, c, cov);
    ShownIff(b, c, cov);
    SamePieces(c, now, cov, ps);
    WriteAllHolds(b, now, cov, ps);
    HoldsAll(WriteAll(b, ps).buffer, now);
  }
}
