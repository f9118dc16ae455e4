/** The in-process slot ring between the reading worker and its consumer, every operation under one
    lock, and the stream of slots the consumer sees. */
module NativeRing {
  import opened Common
  import opened Alignment
  import opened RingIndex
  import opened AsyncReader

  const FLAG_EOF: nat := 1

  datatype Slot = Slot(buffer: seq<Byte>, token: nat, fileIndex: nat, fileOffset: nat, length: nat, flags: nat,
                       full: bool)

  /** What a slot carries. */
  datatype Piece = Piece(fileIndex: nat, offset: nat, data: seq<Byte>, flags: nat)

  // ----- the canonical stream

  /** `data`, which starts at `offset` of its file, from position `from` on, cut into slots. */
  function Pieces(fileIndex: nat, offset: nat, data: seq<Byte>, from: nat, slotSize: nat): seq<Piece>
    requires slotSize > 0
    decreases |data| - from
  {
    if from >= |data| then []
    else [Piece(fileIndex, offset + from, data[from..Min(from + slotSize, |data|)], 0)]
         + Pieces(fileIndex, offset, data, from + slotSize, slotSize)
  }

  /** All slots of one file: its content, then one empty end-of-file slot at its length. */
  function FileStream(fileIndex: nat, content: seq<Byte>, slotSize: nat): seq<Piece>
    requires slotSize > 0
  {
    Pieces(fileIndex, 0, content, 0, slotSize) + [Piece(fileIndex, |content|, [], FLAG_EOF)]
  }

  function CeilDiv(n: nat, d: nat): nat
    requires d > 0
  {
    (n + d - 1) / d
  }

  lemma CeilDivStep(n: nat, d: nat)
    requires 0 < n && d > 0
    ensures CeilDiv(n, d) == 1 + CeilDiv(if n <= d then 0 else n - d, d)
  {
    var m := if n <= d then 0 else n - d;
    var q, r := (m + d - 1) / d, (m + d - 1) % d;
    if n <= d {
      UniqueRemainder(d - 1, d, 0, d - 1);
      UniqueRemainder(n + d - 1, d, 1, n - 1);
    } else {
      UniqueRemainder(n + d - 1, d, q + 1, r);
    }
  }

  lemma {:induction false} PiecesCount(fileIndex: nat, offset: nat, data: seq<Byte>, from: nat, slotSize: nat)
    requires slotSize > 0
    ensures |Pieces(fileIndex, offset, data, from, slotSize)| ==
            CeilDiv(if from <= |data| then |data| - from else 0, slotSize)
    decreases |data| - from
  {
    if from < |data| {
      PiecesCount(fileIndex, offset, data, from + slotSize, slotSize);
      CeilDivStep(|data| - from, slotSize);
    } else {
      UniqueRemainder(slotSize - 1, slotSize, 0, slotSize - 1);
    }
  }

  lemma PiecesNext(fileIndex: nat, offset: nat, data: seq<Byte>, from: nat, slotSize: nat)
    requires slotSize > 0
    ensures |Pieces(fileIndex, offset, data, from, slotSize)| > 0 <==> from < |data|
    ensures from < |data| ==>
      var end := Min(from + slotSize, |data|);
      Pieces(fileIndex, offset, data, from, slotSize)
      == [Piece(fileIndex, offset + from, data[from..end], 0)] + Pieces(fileIndex, offset, data, end, slotSize)
    ensures from >= |data| ==> Pieces(fileIndex, offset, data, from, slotSize) == []
  {
  }

  lemma PieceOfChunk(file: seq<Byte>, at: nat, from: nat, next: nat, size: nat)
    requires from <= next <= size && at + from <= |file|
    ensures var chunk := file[at..Min(at + size, |file|)];
            from <= |chunk| && chunk[from..Min(next, |chunk|)] == file[at + from..Min(at + next, |file|)]
  {
  }

  /** Cutting a chunk that is a whole number of slots, then what follows it, cuts the file. */
  lemma {:induction false} PiecesOfChunk(fileIndex: nat, file: seq<Byte>, at: nat, from: nat, size: nat, slotSize: nat)
    requires slotSize > 0 && at <= |file| && OnChunk(from, slotSize) && OnChunk(size, slotSize) && from <= size
             && at + from <= |file|
    ensures var chunk := file[at..Min(at + size, |file|)];
            Pieces(fileIndex, 0, file, at + from, slotSize)
            == Pieces(fileIndex, at, chunk, from, slotSize) + Pieces(fileIndex, 0, file, at + size, slotSize)
    decreases size - from
  {
    hide OnChunk, Pieces;
    var chunk := file[at..Min(at + size, |file|)];
    PiecesNext(fileIndex, 0, file, at + from, slotSize);
    PiecesNext(fileIndex, at, chunk, from, slotSize);
    if from == size || at + from == |file| {
      PiecesNext(fileIndex, 0, file, at + size, slotSize);
    } else {
      OnChunkApart(from, size, slotSize);
      OnChunkNext(from, slotSize);
      var next := from + slotSize;
      PieceOfChunk(file, at, from, next, size);
      if at + next <= |file| {
        PiecesOfChunk(fileIndex, file, at, next, size, slotSize);
      } else {
        PiecesNext(fileIndex, 0, file, |file|, slotSize);
        PiecesNext(fileIndex, at, chunk, |chunk|, slotSize);
        PiecesNext(fileIndex, 0, file, at + size, slotSize);
      }
    }
  }

  /** Slots of one file's content from position `from` on: none is empty, each starts where the one before ends,
      all but the last are full, and the last ends with the content. */
  ghost predicate CutUp(ps: seq<Piece>, fileIndex: nat, content: seq<Byte>, from: nat, slotSize: nat) {
    && (forall k :: 0 <= k < |ps| ==> SlotOf(ps[k], fileIndex, content, slotSize))
    && (forall k :: 0 <= k < |ps| - 1 ==> |ps[k].data| == slotSize && ps[k + 1].offset == ps[k].offset + slotSize)
    && if ps == [] then from >= |content|
       else ps[0].offset == from && ps[|ps| - 1].offset + |ps[|ps| - 1].data| == |content|
  }

  ghost predicate SlotOf(p: Piece, fileIndex: nat, content: seq<Byte>, slotSize: nat) {
    p.fileIndex == fileIndex && p.flags == 0 && 0 < |p.data| <= slotSize
    && p.offset + |p.data| <= |content| && p.data == content[p.offset..p.offset + |p.data|]
  }

  lemma {:induction false} PiecesCutUp(fileIndex: nat, content: seq<Byte>, from: nat, slotSize: nat)
    requires slotSize > 0
    ensures CutUp(Pieces(fileIndex, 0, content, from, slotSize), fileIndex, content, from, slotSize)
    decreases |content| - from
  {
    if from < |content| {
      PiecesCutUp(fileIndex, content, from + slotSize, slotSize);
      var rest := Pieces(fileIndex, 0, content, from + slotSize, slotSize);
      var p := Piece(fileIndex, from, content[from..Min(from + slotSize, |content|)], 0);
      assert from + slotSize >= |content| ==> rest == [];
      assert Pieces(fileIndex, 0, content, from, slotSize) == [p] + rest;
      hide Pieces, CutUp;
      OnePieceMore(p, rest, fileIndex, content, slotSize);
    }
  }

  lemma OnePieceMore(p: Piece, rest: seq<Piece>, fileIndex: nat, content: seq<Byte>, slotSize: nat)
    requires SlotOf(p, fileIndex, content, slotSize)
    requires if p.offset + |p.data| == |content| then rest == []
             else |p.data| == slotSize && CutUp(rest, fileIndex, content, p.offset + slotSize, slotSize)
    ensures CutUp([p] + rest, fileIndex, content, p.offset, slotSize)
  {
    assert p.offset + |p.data| <= |content|;
    hide SlotOf;
    var ps := [p] + rest;
    assert forall k :: 1 <= k < |ps| ==> ps[k] == rest[k - 1];
  }

  /** A file's stream is its content cut up, then an empty slot at the content's end with flag 1. */
  lemma StreamCutUp(fileIndex: nat, content: seq<Byte>, slotSize: nat)
    requires slotSize > 0
    ensures var s := FileStream(fileIndex, content, slotSize);
            && s != [] && s[|s| - 1] == Piece(fileIndex, |content|, [], 1)
            && CutUp(s[..|s| - 1], fileIndex, content, 0, slotSize)
  {
    PiecesCutUp(fileIndex, content, 0, slotSize);
    var s := FileStream(fileIndex, content, slotSize);
    assert s[..|s| - 1] == Pieces(fileIndex, 0, content, 0, slotSize);
  }

  /** The slots of all chunks a large-file read delivered. */
  function PiecesOfChunks(fileIndex: nat, chunks: seq<Chunk>, slotSize: nat): seq<Piece>
    requires slotSize > 0
  {
    if chunks == [] then []
    else
      Pieces(fileIndex, chunks[0].offset, chunks[0].data, 0, slotSize)
      + PiecesOfChunks(fileIndex, chunks[1..], slotSize)
  }

  /** The large path publishes the same slots as the small path, whatever the chunk size. */
  lemma {:induction false} ChunkingInvisible(fileIndex: nat, file: seq<Byte>, from: nat, chunkSize: nat, slotSize: nat)
    requires slotSize > 0 && chunkSize > 0 && OnChunk(chunkSize, slotSize)
    ensures PiecesOfChunks(fileIndex, Cut(file, from, chunkSize), slotSize) ==
            Pieces(fileIndex, 0, file, from, slotSize)
    decreases |file| - from
  {
    if from < |file| {
      var cs := Cut(file, from, chunkSize);
      assert cs[1..] == Cut(file, from + chunkSize, chunkSize);
      ChunkingInvisible(fileIndex, file, from + chunkSize, chunkSize, slotSize);
      PiecesOfChunk(fileIndex, file, from, 0, chunkSize, slotSize);
    }
  }

  lemma {:induction false} PiecesOfChunksAppend(fileIndex: nat, a: seq<Chunk>, c: Chunk, slotSize: nat)
    requires slotSize > 0
    ensures PiecesOfChunks(fileIndex, a + [c], slotSize) == PiecesOfChunks(fileIndex, a, slotSize)
            + Pieces(fileIndex, c.offset, c.data, 0, slotSize)
  {
    if a == [] {
      assert ([] + [c])[1..] == [];
    } else {
      assert (a + [c])[1..] == a[1..] + [c];
      PiecesOfChunksAppend(fileIndex, a[1..], c, slotSize);
    }
  }

  // ----- the ring on values

  predicate Carries(slot: Slot, p: Piece, sequence: nat) {
    && slot.full && slot.token == sequence + 1 && slot.fileIndex == p.fileIndex && slot.fileOffset == p.offset
    && slot.flags == p.flags && slot.length == |p.data| <= |slot.buffer| && slot.buffer[..slot.length] == p.data
  }

  /** The pieces published and not released are in their slots; every other slot is free. */
  ghost predicate RingOk(slots: seq<Slot>, published: seq<Piece>, read: nat, slotSize: nat) {
    && |slots| > 0 && read <= |published| <= read + |slots|
    && (forall i :: 0 <= i < |slots| ==> |slots[i].buffer| == slotSize)
    && (forall q :: read <= q < |published| ==> Carries(slots[SlotIndex(q, |slots|)], published[q], q))
    && (forall q :: |published| <= q < read + |slots| ==> !slots[SlotIndex(q, |slots|)].full)
  }

  function Filled(slot: Slot, p: Piece, sequence: nat): Slot
    requires |p.data| <= |slot.buffer|
  {
    Slot(p.data + slot.buffer[|p.data|..], sequence + 1, p.fileIndex, p.offset, |p.data|, p.flags, true)
  }

  lemma RingPut(slots: seq<Slot>, published: seq<Piece>, read: nat, slotSize: nat, p: Piece)
    requires RingOk(slots, published, read, slotSize) && |published| < read + |slots| && |p.data| <= slotSize
    ensures var i := SlotIndex(|published|, |slots|);
            && !slots[i].full && |p.data| <= |slots[i].buffer|
            && RingOk(slots[i := Filled(slots[i], p, |published|)], published + [p], read, slotSize)
  {
    var w := |published|;
    var i := SlotIndex(w, |slots|);
    var filled := Filled(slots[i], p, w);
    var after := slots[i := filled];
    assert filled.buffer[..|p.data|] == p.data;
    hide SlotIndex;
    forall q | read <= q < read + |slots| && q != w
      ensures after[SlotIndex(q, |slots|)] == slots[SlotIndex(q, |slots|)]
    {
      if q < w {
        DistinctSlots(q, w, |slots|);
      } else {
        DistinctSlots(w, q, |slots|);
      }
    }
  }

  lemma RingTake(slots: seq<Slot>, published: seq<Piece>, read: nat, slotSize: nat)
    requires RingOk(slots, published, read, slotSize) && read < |published|
    ensures var i := SlotIndex(read, |slots|);
            RingOk(slots[i := slots[i].(full := false, length := 0, flags := 0)], published, read + 1, slotSize)
  {
    var i := SlotIndex(read, |slots|);
    var after := slots[i := slots[i].(full := false, length := 0, flags := 0)];
    NextLap(read, |slots|);
    hide SlotIndex;
    forall q | read < q < read + |slots| ensures after[SlotIndex(q, |slots|)] == slots[SlotIndex(q, |slots|)] {
      DistinctSlots(read, q, |slots|);
    }
  }

  function PieceBytes(ps: seq<Piece>): nat { if ps == [] then 0 else |ps[0].data| + PieceBytes(ps[1..]) }

  lemma {:induction false} PieceBytesAppend(ps: seq<Piece>, p: Piece)
    ensures PieceBytes(ps + [p]) == PieceBytes(ps) + |p.data|
  {
    if ps == [] {
      assert ([] + [p])[1..] == [];
    } else {
      assert (ps + [p])[1..] == ps[1..] + [p];
      PieceBytesAppend(ps[1..], p);
    }
  }

  /** A slot that says end-of-file comes after its file's hash was recorded. */
  ghost predicate HashesReady(published: seq<Piece>, results: map<nat, seq<Byte>>) {
    forall q :: 0 <= q < |published| && published[q].flags == FLAG_EOF ==> published[q].fileIndex in results
  }

  lemma HashesAppend(published: seq<Piece>, results: map<nat, seq<Byte>>, p: Piece)
    requires HashesReady(published, results) && (p.flags == FLAG_EOF ==> p.fileIndex in results)
    ensures HashesReady(published + [p], results)
  {
  }

  // ----- the shared state

  /** What happens on the consumer's side while the worker does not hold the lock. */
  datatype Turn = Turn(releases: seq<nat>, cancel: bool, fail: bool)

  /** The run was cancelled from the other side while the worker waited. */
  predicate CancelledIn(turns: seq<Turn>) { exists i :: 0 <= i < |turns| && turns[i].cancel }

  /** The run failed on the other side while the worker waited. */
  predicate FailedIn(turns: seq<Turn>) { exists i :: 0 <= i < |turns| && turns[i].fail }

  /** After the last turn of its script the worker gives up, once it has found the ring full. */
  function NextTurn(rest: seq<Turn>, full: bool): Turn { if rest == [] then Turn([], full, false) else rest[0] }

  datatype Code = OK | TIMEOUT | DONE | CANCELLED | ERROR | INVALID

  datatype Published = PublishedOk | WasCancelled | WasFailed | TooSmall

  class NativeState {
    const slotSize: nat
    var slots: seq<Slot>
    var writeIndex: nat
    var readIndex: nat
    var bufferedBytes: nat
    var occupiedSlots: nat
    var done: bool
    var cancelled: bool
    var failed: bool
    var results: map<nat, seq<Byte>>
    ghost var published: seq<Piece>

    ghost predicate Valid()
      reads this`slots, this`published, this`readIndex, this`writeIndex, this`occupiedSlots, this`bufferedBytes,
        this`results
    {
      && slotSize > 0 && RingOk(slots, published, readIndex, slotSize)
      && writeIndex == |published| && occupiedSlots == |published| - readIndex
      && bufferedBytes == PieceBytes(published[readIndex..])
      && HashesReady(published, results)
    }

    constructor (size: nat, count: nat)
      requires size > 0 && count >= 2
      ensures Valid() && published == [] && slotSize == size && |slots| == count && !done && !cancelled && !failed
              && results == map[]
    {
      slotSize := size;
      slots := seq(count, _ => Slot(seq(size, _ => 0), 0, 0, 0, 0, 0, false));
      writeIndex := 0;
      readIndex := 0;
      bufferedBytes := 0;
      occupiedSlots := 0;
      done := false;
      cancelled := false;
      failed := false;
      results := map[];
      published := [];
    }

    /** Looks at the slot at the read index; never waits here, the caller polls. */
    method AcquireSlot(expected: int) returns (code: Code, slot: Option<Slot>)
      requires Valid()
      ensures readIndex < |published| ==>
        code == (if expected >= 0 && published[readIndex].fileIndex != expected then ERROR else OK)
      ensures readIndex == |published| ==>
        code == if cancelled then CANCELLED else if failed then ERROR else if done then DONE else TIMEOUT
      ensures slot.Some? <==> code == OK
      ensures slot.Some? ==> Carries(slot.value, published[readIndex], readIndex)
    {
      ReadIndexFull();
      var index := SlotIndex(readIndex, |slots|);
      slot := None;
      if slots[index].full {
        if expected >= 0 && slots[index].fileIndex != expected {
          return ERROR, None;
        }
        return OK, Some(slots[index]);
      }
      code := if cancelled then CANCELLED else if failed then ERROR else if done then DONE else TIMEOUT;
    }

    lemma ReadIndexFull()
      requires Valid()
      ensures |slots| > 0 && (slots[SlotIndex(readIndex, |slots|)].full <==> readIndex < |published|)
      ensures readIndex < |published| ==> Carries(slots[SlotIndex(readIndex, |slots|)], published[readIndex], readIndex)
    {
    }

    /** One look at whether the consumer has enough to start on; `TIMEOUT` means it looks again.  The
        counters it goes by are the bytes and slots published and not yet released. */
    method WaitUntilBuffered(target: nat, deadlinePassed: bool, allBytesRead: bool) returns (code: Code)
      requires Valid()
      ensures code == if cancelled then CANCELLED
                      else if failed then ERROR
                      else if PieceBytes(published[readIndex..]) >= target || done
                        || |published| == readIndex + |slots| then OK
                      else if deadlinePassed && allBytesRead then OK else TIMEOUT
    {
      if cancelled { return CANCELLED; }
      if failed { return ERROR; }
      if bufferedBytes >= target || done || occupiedSlots == |slots| { return OK; }
      return if deadlinePassed && allBytesRead then OK else TIMEOUT;
    }

    /** Gives the slot at the read index back, if the token is the one it carries. */
    method ReleaseSlot(token: nat) returns (code: Code)
      requires Valid()
      modifies this`slots, this`readIndex, this`bufferedBytes, this`occupiedSlots
      ensures Valid() && |slots| == |old(slots)|
      ensures code == if old(readIndex) < |published| && token == old(readIndex) + 1 then OK else INVALID
      ensures readIndex == if code == OK then old(readIndex) + 1 else old(readIndex)
      ensures code == OK ==> occupiedSlots == old(occupiedSlots) - 1
                             && bufferedBytes == old(bufferedBytes) - |published[old(readIndex)].data|
      ensures code != OK ==>
        slots == old(slots) && bufferedBytes == old(bufferedBytes) && occupiedSlots == old(occupiedSlots)
    {
      hide SlotIndex, RingOk, HashesReady;
      ReadIndexFull();
      var index := SlotIndex(readIndex, |slots|);
      if !slots[index].full || slots[index].token != token {
        return INVALID;
      }
      var length := slots[index].length;
      RingTake(slots, published, readIndex, slotSize);
      assert published[readIndex..][1..] == published[readIndex + 1..];
      slots := slots[index := slots[index].(full := false, length := 0, flags := 0)];
      readIndex := readIndex + 1;
      bufferedBytes := SaturatingSub(bufferedBytes, length);
      occupiedSlots := SaturatingSub(occupiedSlots, 1);
      code := OK;
    }

    /** The other side's turn: any releases, then perhaps a cancellation or an error. */
    method OthersTurn(turn: Turn)
      requires Valid()
      modifies this`slots, this`readIndex, this`bufferedBytes, this`occupiedSlots, this`cancelled, this`failed
      ensures Valid() && |slots| == |old(slots)| && readIndex >= old(readIndex)
      ensures cancelled == (old(cancelled) || turn.cancel) && failed == (old(failed) || turn.fail)
      ensures turn.releases == [] ==> occupiedSlots == old(occupiedSlots)
    {
      hide SlotIndex, RingOk, HashesReady, PieceBytes;
      for i := 0 to |turn.releases|
        invariant Valid() && |slots| == |old(slots)| && readIndex >= old(readIndex)
        invariant cancelled == old(cancelled) && failed == old(failed)
        invariant i == 0 ==> occupiedSlots == old(occupiedSlots)
      {
        var code := ReleaseSlot(turn.releases[i]);
      }
      cancelled := cancelled || turn.cancel;
      failed := failed || turn.fail;
    }

    /** Writes one slot and counts it; the caller holds the lock and saw the slot free. */
    method Put(p: Piece)
      requires Valid() && occupiedSlots < |slots| && |p.data| <= slotSize
      requires p.flags == FLAG_EOF ==> p.fileIndex in results
      modifies this`slots, this`writeIndex, this`bufferedBytes, this`occupiedSlots, this`published
      ensures Valid() && |slots| == |old(slots)| && published == old(published) + [p]
              && occupiedSlots == old(occupiedSlots) + 1
    {
      hide SlotIndex, RingOk;
      var n := |published|;
      RingPut(slots, published, readIndex, slotSize, p);
      HashesAppend(published, results, p);
      assert (published + [p])[readIndex..] == published[readIndex..] + [p];
      PieceBytesAppend(published[readIndex..], p);
      var index := SlotIndex(writeIndex, |slots|);
      slots := slots[index := Filled(slots[index], p, writeIndex)];
      writeIndex := writeIndex + 1;
      bufferedBytes := bufferedBytes + |p.data|;
      occupiedSlots := occupiedSlots + 1;
      published := published + [p];
    }

    lemma Occupancy()
      requires Valid()
      ensures slotSize > 0 && |slots| > 0 && occupiedSlots <= |slots|
    {
    }

    lemma RoomWhenFree()
      requires Valid()
      ensures |slots| > 0 && occupiedSlots <= |slots|
              && (slots[SlotIndex(writeIndex, |slots|)].full <==> occupiedSlots == |slots|)
      ensures forall i :: 0 <= i < |slots| ==> |slots[i].buffer| == slotSize
    {
      if occupiedSlots == |slots| {
        NextLap(readIndex, |slots|);
        assert Carries(slots[SlotIndex(readIndex, |slots|)], published[readIndex], readIndex);
      }
    }

    /** Publishes one slot as soon as one is free. */
    method Publish(p: Piece, turns: seq<Turn>) returns (r: Published, rest: seq<Turn>)
      requires Valid() && (p.flags == FLAG_EOF ==> p.fileIndex in results)
      modifies this`slots, this`writeIndex, this`readIndex, this`bufferedBytes, this`occupiedSlots, this`cancelled,
        this`failed, this`published
      ensures Valid() && |slots| == |old(slots)| && |rest| <= |turns|
      ensures published == if r == PublishedOk then old(published) + [p] else old(published)
      ensures r == PublishedOk ==> !cancelled && !failed
      ensures r == PublishedOk ==> cancelled == old(cancelled) && failed == old(failed)
      ensures cancelled != old(cancelled) ==> cancelled && r == WasCancelled
      // nothing is published only when someone stopped the run, or the consumer never made room
      ensures match r
              case PublishedOk => true
              case WasCancelled => cancelled && (old(cancelled) || CancelledIn(turns) || occupiedSlots == |slots|)
              case WasFailed => !cancelled && failed && (old(failed) || FailedIn(turns))
              case TooSmall => |p.data| > slotSize
    {
      hide SlotIndex, RingOk, HashesReady, PieceBytes;
      rest := turns;
      var full := false;
      while true
        invariant Valid() && |slots| == |old(slots)| && published == old(published)
        invariant |rest| <= |turns| && rest == turns[|turns| - |rest|..]
        invariant full ==> occupiedSlots == |slots|
        invariant cancelled == old(cancelled) && failed == old(failed) && (full ==> !cancelled && !failed)
        decreases |rest|, !full
      {
        OthersTurn(NextTurn(rest, full));
        rest := if rest == [] then [] else rest[1..];
        if cancelled {
          return WasCancelled, rest;
        }
        if failed {
          return WasFailed, rest;
        }
        RoomWhenFree();
        var index := SlotIndex(writeIndex, |slots|);
        if !slots[index].full {
          if |p.data| > |slots[index].buffer| {
            return TooSmall, rest;
          }
          Put(p);
          return PublishedOk, rest;
        }
        full := true;
      }
    }

    /** One turn with the lock: as many slots of the block as are free. */
    method PutBatch(fileIndex: nat, offset: nat, data: seq<Byte>, consumed: nat) returns (batchBytes: nat)
      requires Valid() && occupiedSlots < |slots| && consumed < |data|
      modifies this`slots, this`writeIndex, this`bufferedBytes, this`occupiedSlots, this`published
      ensures Valid() && |slots| == |old(slots)| && 0 < batchBytes && consumed + batchBytes <= |data|
      ensures old(published) <= published
      ensures published + Pieces(fileIndex, offset, data, consumed + batchBytes, slotSize)
              == old(published) + Pieces(fileIndex, offset, data, consumed, slotSize)
    {
      hide Valid, Pieces, CeilDiv;
      Occupancy();
      PiecesCount(fileIndex, offset, data, consumed, slotSize);
      PiecesNext(fileIndex, offset, data, consumed, slotSize);
      var remainingSlots := CeilDiv(|data| - consumed, slotSize);
      var batchSlots := Min(remainingSlots, |slots| - occupiedSlots);
      batchBytes := 0;
      ghost var all := old(published) + Pieces(fileIndex, offset, data, consumed, slotSize);
      for b := 0 to batchSlots
        invariant Valid() && |slots| == |old(slots)| && consumed + batchBytes <= |data|
        invariant b > 0 ==> batchBytes > 0
        invariant occupiedSlots == old(occupiedSlots) + b
        invariant |Pieces(fileIndex, offset, data, consumed + batchBytes, slotSize)| == remainingSlots - b
        invariant old(published) <= published
                  && published + Pieces(fileIndex, offset, data, consumed + batchBytes, slotSize) == all
      {
        var start := consumed + batchBytes;
        var end := Min(start + slotSize, |data|);
        PiecesNext(fileIndex, offset, data, start, slotSize);
        Regroup(published, Piece(fileIndex, offset + start, data[start..end], 0),
                Pieces(fileIndex, offset, data, end, slotSize));
        Put(Piece(fileIndex, offset + start, data[start..end], 0));
        batchBytes := batchBytes + (end - start);
      }
    }

    /** Publishes a block of a file cut into slots, as many at a time as are free. */
    method PublishBatch(fileIndex: nat, offset: nat, data: seq<Byte>, turns: seq<Turn>)
      returns (r: Published, rest: seq<Turn>)
      requires Valid()
      modifies this`slots, this`writeIndex, this`readIndex, this`bufferedBytes, this`occupiedSlots, this`cancelled,
        this`failed, this`published
      ensures Valid() && |slots| == |old(slots)| && |rest| <= |turns|
      ensures r == PublishedOk ==> published == old(published) + Pieces(fileIndex, offset, data, 0, slotSize)
      ensures r == PublishedOk ==> cancelled == old(cancelled) && failed == old(failed)
      ensures r != PublishedOk ==>
        old(published) <= published <= old(published) + Pieces(fileIndex, offset, data, 0, slotSize)
      ensures cancelled != old(cancelled) ==> cancelled && r == WasCancelled
      // the block ends early only when someone stopped the run, or the consumer never made room
      ensures match r
              case PublishedOk => true
              case WasCancelled => cancelled && (old(cancelled) || CancelledIn(turns) || occupiedSlots == |slots|)
              case WasFailed => !cancelled && failed && (old(failed) || FailedIn(turns))
              case TooSmall => false
    {
      hide Valid, Pieces;
      Occupancy();
      rest := turns;
      var consumed, full := 0, false;
      ghost var all := old(published) + Pieces(fileIndex, offset, data, 0, slotSize);
      while consumed < |data|
        invariant Valid() && |slots| == |old(slots)|
        invariant |rest| <= |turns| && rest == turns[|turns| - |rest|..]
        invariant 0 <= consumed <= |data|
        invariant full ==> occupiedSlots == |slots|
        invariant cancelled == old(cancelled) && failed == old(failed)
        invariant old(published) <= published && published + Pieces(fileIndex, offset, data, consumed, slotSize) == all
        decreases |data| - consumed, |rest|, !full
      {
        OthersTurn(NextTurn(rest, full));
        rest := if rest == [] then [] else rest[1..];
        if cancelled {
          return WasCancelled, rest;
        }
        if failed {
          return WasFailed, rest;
        }
        Occupancy();
        full := occupiedSlots == |slots|;
        if !full {
          var batchBytes := PutBatch(fileIndex, offset, data, consumed);
          consumed := consumed + batchBytes;
        }
      }
      PiecesNext(fileIndex, offset, data, consumed, slotSize);
      r := PublishedOk;
    }
  
    /** Records a file's hash, here the bytes fed to the hasher. */
    method Record(fileIndex: nat, hashed: seq<Byte>)
      requires Valid()
      modifies this`results
      ensures Valid() && results == old(results)[fileIndex := hashed]
    {
      results := results[fileIndex := hashed];
    }

    method Finish(wasCancelled: bool, wasError: bool)
      requires Valid()
      modifies this`done, this`cancelled, this`failed
      ensures Valid() && done && cancelled == (old(cancelled) || wasCancelled) && failed == (old(failed) || wasError)
    {
      hide Valid;
      done := true;
      cancelled := cancelled || wasCancelled;
      failed := failed || wasError;
    }
  }

  lemma Regroup(a: seq<Piece>, p: Piece, b: seq<Piece>)
    ensures a + ([p] + b) == (a + [p]) + b
  {
  }
}
