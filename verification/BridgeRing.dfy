/** The cross-process slot ring: one producer, one consumer and an observer share a header of
    atomics, a block of slots and two counting semaphores.  Each action is one atomic update or
    one write to a slot; every interleaving of them is a run.  Sequence numbers do not wrap here. */
module BridgeRing {
  import opened RingIndex

  type Byte = bv8

  const HASH_CAPACITY: nat := 768

  datatype Payload = Payload(fileIndex: int, fileOffset: nat, data: seq<Byte>, flags: nat, hashes: seq<Byte>)

  datatype Slot = Slot(token: nat, fileIndex: int, fileOffset: nat, length: nat, flags: nat,
                       hashLength: nat, hashes: seq<Byte>, bytes: seq<Byte>)

  datatype Producer =
    | PIdle
    | PWaiting(p: Payload)
    | PHolding(p: Payload)
    | PReady(p: Payload)
    | PTokenWritten(p: Payload, sequence: nat)
    | PHeaderWritten(p: Payload, sequence: nat)
    | PDataWritten(p: Payload, sequence: nat)
    | PIndexed(p: Payload)
    | PBytesAdded(p: Payload)
    | PSlotAdded(p: Payload)

  datatype Consumer =
    | CIdle
    | CWaiting(expected: int)
    | CGranted(expected: int)
    | CReading(token: nat)
    | CReleasing(length: nat)
    | CBytesGone
    | CSlotGone
    | CIndexStored
    | CTimedOut
    | CSawDone
    | CDone
    | CFailed

  datatype Code = OK | DONE

  datatype Observer =
    | OIdle
    | OStarted(target: nat)
    | OUncancelled(target: nat)
    | OClear(target: nat)
    | OSawOccupied(target: nat, occupied: int)
    | OBelowTarget(target: nat, occupied: int)
    | OUndecided(target: nat, occupied: int)
    | OReturned(target: nat, code: Code)

  /** `published` and `delivered` are what only the proof remembers: the payloads whose write index
      was stored, and the payloads read from slot memory by successful acquires. */
  datatype State = State(
    slots: seq<Slot>, slotSize: nat,
    writeIndex: nat, readIndex: nat, bufferedBytes: int, occupiedSlots: int,
    producerDone: bool, cancelled: bool, error: bool,
    empty: nat, full: nat,
    producer: Producer, consumer: Consumer, observer: Observer,
    published: seq<Payload>, delivered: seq<Payload>)

  datatype ProducerAction =
    | Publish(p: Payload) | TakeEmpty | AbandonPublish | CheckCancelled
    | WriteToken | WriteHeader | WriteData | StoreWriteIndex | AddBytes | AddSlot | SignalFull
    | CompleteProducer

  datatype ConsumerAction =
    | Acquire(expected: int) | TakeFull | AbandonAcquire | TimeOut | LoadDone | LoadOccupied | Inspect
    | Release(token: nat) | SubtractBytes | SubtractSlot | StoreReadIndex | SignalEmpty

  datatype ObserverAction =
    | Watch(target: nat) | WatchCancelled | WatchError | WatchOccupied | WatchBuffered | WatchDone | WatchDoneAgain

  datatype Action = ByProducer(pa: ProducerAction) | ByConsumer(ca: ConsumerAction) | ByObserver(oa: ObserverAction)
    | Cancel | SetError

  function Zeros(n: nat): (z: seq<Byte>)
    ensures |z| == n
  {
    seq(n, _ => 0)
  }

  /** What a consumer reads out of a slot. */
  function Load(slot: Slot): Payload
    requires slot.length <= |slot.bytes| && slot.hashLength <= |slot.hashes|
  {
    Payload(slot.fileIndex, slot.fileOffset, slot.bytes[..slot.length], slot.flags, slot.hashes[..slot.hashLength])
  }

  predicate Shaped(s: State) {
    && |s.slots| >= 2
    && (forall i :: 0 <= i < |s.slots| ==> |s.slots[i].bytes| == s.slotSize && |s.slots[i].hashes| == HASH_CAPACITY)
    && (s.producer.PIdle? || Fits(s.producer.p, s.slotSize))
  }

  predicate Fits(p: Payload, slotSize: nat) { |p.data| <= slotSize && |p.hashes| <= HASH_CAPACITY }

  predicate ProducerEnabled(s: State, a: ProducerAction) {
    match a
    case Publish(_) => s.producer.PIdle? && !s.producerDone
    case TakeEmpty => s.producer.PWaiting? && s.empty > 0
    case AbandonPublish => s.producer.PWaiting? && (s.cancelled || s.error)
    case CheckCancelled => s.producer.PHolding?
    case WriteToken => s.producer.PReady?
    case WriteHeader => s.producer.PTokenWritten?
    case WriteData => s.producer.PHeaderWritten?
    case StoreWriteIndex => s.producer.PDataWritten?
    case AddBytes => s.producer.PIndexed?
    case AddSlot => s.producer.PBytesAdded?
    case SignalFull => s.producer.PSlotAdded?
    case CompleteProducer => s.producer.PIdle?
  }

  predicate ConsumerEnabled(s: State, a: ConsumerAction) {
    match a
    case Acquire(_) => s.consumer.CIdle? || s.consumer.CDone?
    case TakeFull => s.consumer.CWaiting? && s.full > 0
    case AbandonAcquire => s.consumer.CWaiting? && (s.cancelled || s.error)
    case TimeOut => s.consumer.CWaiting?
    case LoadDone => s.consumer.CTimedOut?
    case LoadOccupied => s.consumer.CSawDone?
    case Inspect => s.consumer.CGranted?
    case Release(_) => s.consumer.CReading?
    case SubtractBytes => s.consumer.CReleasing?
    case SubtractSlot => s.consumer.CBytesGone?
    case StoreReadIndex => s.consumer.CSlotGone?
    case SignalEmpty => s.consumer.CIndexStored?
  }

  predicate ObserverEnabled(s: State, a: ObserverAction) {
    match a
    case Watch(_) => s.observer.OIdle? || s.observer.OReturned?
    case WatchCancelled => s.observer.OStarted?
    case WatchError => s.observer.OUncancelled?
    case WatchOccupied => s.observer.OClear?
    case WatchBuffered => s.observer.OSawOccupied?
    case WatchDone => s.observer.OBelowTarget?
    case WatchDoneAgain => s.observer.OUndecided?
  }

  predicate Enabled(s: State, a: Action) {
    match a
    case ByProducer(pa) => ProducerEnabled(s, pa)
    case ByConsumer(ca) => ConsumerEnabled(s, ca)
    case ByObserver(oa) => ObserverEnabled(s, oa)
    case Cancel => true
    case SetError => true
  }

  function SetSlot(s: State, sequence: nat, slot: Slot): seq<Slot>
    requires |s.slots| > 0
  {
    s.slots[SlotIndex(sequence, |s.slots|) := slot]
  }

  function SlotAt(s: State, sequence: nat): Slot
    requires |s.slots| > 0
  {
    s.slots[SlotIndex(sequence, |s.slots|)]
  }

  function ProducerStep(s: State, a: ProducerAction): State
    requires Shaped(s) && ProducerEnabled(s, a)
  {
    match a
    case Publish(p) => if Fits(p, s.slotSize) then s.(producer := PWaiting(p)) else s
    case TakeEmpty => s.(empty := s.empty - 1, producer := PHolding(s.producer.p))
    case AbandonPublish => s.(producer := PIdle)
    case CheckCancelled =>
      if s.cancelled then s.(empty := s.empty + 1, producer := PIdle) else s.(producer := PReady(s.producer.p))
    case WriteToken =>
      s.(slots := SetSlot(s, s.writeIndex, SlotAt(s, s.writeIndex).(token := s.writeIndex + 1)),
         producer := PTokenWritten(s.producer.p, s.writeIndex))
    case WriteHeader =>
      var p, q := s.producer.p, s.producer.sequence;
      s.(slots := SetSlot(s, q, SlotAt(s, q).(fileIndex := p.fileIndex, fileOffset := p.fileOffset, length := |p.data|,
                                               flags := p.flags, hashLength := |p.hashes|,
                                               hashes := p.hashes + Zeros(HASH_CAPACITY - |p.hashes|))),
         producer := PHeaderWritten(p, q))
    case WriteData =>
      var p, q := s.producer.p, s.producer.sequence;
      s.(slots := SetSlot(s, q, SlotAt(s, q).(bytes := p.data + SlotAt(s, q).bytes[|p.data|..])),
         producer := PDataWritten(p, q))
    case StoreWriteIndex =>
      s.(writeIndex := s.producer.sequence + 1, published := s.published + [s.producer.p],
         producer := PIndexed(s.producer.p))
    case AddBytes => s.(bufferedBytes := s.bufferedBytes + |s.producer.p.data|, producer := PBytesAdded(s.producer.p))
    case AddSlot => s.(occupiedSlots := s.occupiedSlots + 1, producer := PSlotAdded(s.producer.p))
    case SignalFull => s.(full := s.full + 1, producer := PIdle)
    case CompleteProducer => s.(producerDone := true)
  }

  function ConsumerStep(s: State, a: ConsumerAction): State
    requires Shaped(s) && ConsumerEnabled(s, a)
  {
    match a
    case Acquire(expected) => s.(consumer := CWaiting(expected))
    case TakeFull => s.(full := s.full - 1, consumer := CGranted(s.consumer.expected))
    case AbandonAcquire => s.(consumer := CIdle)
    case TimeOut => s.(consumer := CTimedOut)
    case LoadDone => s.(consumer := if s.producerDone then CSawDone else CIdle)
    case LoadOccupied => s.(consumer := if s.occupiedSlots == 0 then CDone else CIdle)
    case Inspect =>
      var slot := SlotAt(s, s.readIndex);
      if slot.token != s.readIndex + 1 || slot.fileIndex != s.consumer.expected
         || slot.length > s.slotSize || slot.hashLength > HASH_CAPACITY then s.(error := true, consumer := CFailed)
      else s.(consumer := CReading(slot.token), delivered := s.delivered + [Load(slot)])
    case Release(token) =>
      var slot := SlotAt(s, s.readIndex);
      if s.consumer.token != token || slot.token != token then s
      else s.(consumer := CReleasing(slot.length))
    case SubtractBytes => s.(bufferedBytes := s.bufferedBytes - s.consumer.length, consumer := CBytesGone)
    case SubtractSlot => s.(occupiedSlots := s.occupiedSlots - 1, consumer := CSlotGone)
    case StoreReadIndex => s.(readIndex := s.readIndex + 1, consumer := CIndexStored)
    case SignalEmpty => s.(empty := s.empty + 1, consumer := CIdle)
  }

  function ObserverStep(s: State, a: ObserverAction): State
    requires Shaped(s) && ObserverEnabled(s, a)
  {
    match a
    case Watch(target) => s.(observer := OStarted(target))
    case WatchCancelled => s.(observer := if s.cancelled then OIdle else OUncancelled(s.observer.target))
    case WatchError => s.(observer := if s.error then OIdle else OClear(s.observer.target))
    case WatchOccupied => s.(observer := OSawOccupied(s.observer.target, s.occupiedSlots))
    case WatchBuffered =>
      var t, o := s.observer.target, s.observer.occupied;
      s.(observer := if s.bufferedBytes >= t || o >= |s.slots| then OReturned(t, OK) else OBelowTarget(t, o))
    case WatchDone =>
      var t, o := s.observer.target, s.observer.occupied;
      s.(observer := if s.producerDone && o > 0 then OReturned(t, OK) else OUndecided(t, o))
    case WatchDoneAgain =>
      s.(observer := if s.producerDone then OReturned(s.observer.target, DONE) else OStarted(s.observer.target))
  }

  function Next(s: State, a: Action): State
    requires Shaped(s) && Enabled(s, a)
  {
    match a
    case ByProducer(pa) => ProducerStep(s, pa)
    case ByConsumer(ca) => ConsumerStep(s, ca)
    case ByObserver(oa) => ObserverStep(s, oa)
    case Cancel => s.(cancelled := true)
    case SetError => s.(error := true)
  }

  predicate Initial(s: State) {
    && Shaped(s)
    && s.writeIndex == s.readIndex == 0 && s.bufferedBytes == s.occupiedSlots == 0
    && !s.producerDone && !s.cancelled && !s.error
    && s.empty == |s.slots| && s.full == 0
    && s.producer == PIdle && s.consumer == CIdle && s.observer == OIdle
    && s.published == s.delivered == []
  }

  // ----- the invariant

  /** Published payloads not yet counted in `bufferedBytes`, in `occupiedSlots`, in `full`. */
  function BytesLag(p: Producer): nat { if p.PIndexed? then 1 else 0 }

  function SlotLag(p: Producer): nat { if p.PIndexed? || p.PBytesAdded? then 1 else 0 }

  function FullLag(p: Producer): nat { if p.PIndexed? || p.PBytesAdded? || p.PSlotAdded? then 1 else 0 }

  /** An empty-slot permit held for a payload that is not published yet. */
  function Permit(p: Producer): nat {
    if p.PHolding? || p.PReady? || p.PTokenWritten? || p.PHeaderWritten? || p.PDataWritten? then 1 else 0
  }

  /** The slot at `readIndex` belongs to the consumer. */
  function Taken(c: Consumer): nat {
    if c.CGranted? || c.CReading? || c.CReleasing? || c.CBytesGone? || c.CSlotGone? || c.CFailed? then 1 else 0
  }

  function Delivered(c: Consumer): nat {
    if c.CReading? || c.CReleasing? || c.CBytesGone? || c.CSlotGone? then 1 else 0
  }

  function BytesGone(c: Consumer): nat { if c.CBytesGone? || c.CSlotGone? then 1 else 0 }

  function SlotGone(c: Consumer): nat { if c.CSlotGone? then 1 else 0 }

  function EmptyLag(c: Consumer): nat { if c.CIndexStored? then 1 else 0 }

  /** The semaphores and the slot counter, exactly. */
  predicate Counted(s: State) {
    && s.writeIndex == |s.published|
    && s.full == |s.published| - FullLag(s.producer) - s.readIndex - Taken(s.consumer)
    && s.empty == |s.slots| - |s.published| - Permit(s.producer) + s.readIndex - EmptyLag(s.consumer)
    && s.occupiedSlots == |s.published| - SlotLag(s.producer) - s.readIndex - SlotGone(s.consumer)
    && (s.consumer.CFailed? ==> s.error)
  }

  function Bytes(ps: seq<Payload>): nat { if ps == [] then 0 else |ps[0].data| + Bytes(ps[1..]) }

  /** The byte counter, exactly: what is published and counted, and not yet released. */
  predicate BytesCounted(s: State) {
    && s.readIndex + BytesGone(s.consumer) <= |s.published| - BytesLag(s.producer)
    && s.bufferedBytes == Bytes(s.published[s.readIndex + BytesGone(s.consumer)..|s.published| - BytesLag(s.producer)])
    && (s.consumer.CReleasing? ==> s.readIndex < |s.published| && s.consumer.length == |s.published[s.readIndex].data|)
  }

  predicate Holds(slot: Slot, p: Payload, sequence: nat) {
    && slot.token == sequence + 1 && slot.length <= |slot.bytes| && slot.hashLength <= |slot.hashes|
    && Load(slot) == p
  }

  /** Slot memory: every payload published and not released is intact, the one being written is
      written as far as the producer has come. */
  predicate Stored(s: State)
    requires Shaped(s)
  {
    && (forall q :: s.readIndex <= q < |s.published| ==> Holds(SlotAt(s, q), s.published[q], q))
    && (match s.producer
        case PTokenWritten(_, q) => q == s.writeIndex && SlotAt(s, q).token == q + 1
        case PHeaderWritten(p, q) => q == s.writeIndex && HeaderHolds(SlotAt(s, q), p, q)
        case PDataWritten(p, q) => q == s.writeIndex && Holds(SlotAt(s, q), p, q)
        case PIndexed(p) => |s.published| > 0 && s.published[|s.published| - 1] == p
        case _ => true)
  }

  predicate HeaderHolds(slot: Slot, p: Payload, sequence: nat) {
    && slot.token == sequence + 1 && slot.fileIndex == p.fileIndex && slot.fileOffset == p.fileOffset
    && slot.length == |p.data| && slot.flags == p.flags && slot.hashLength == |p.hashes|
    && slot.hashLength <= |slot.hashes| && slot.hashes[..slot.hashLength] == p.hashes
  }

  /** What acquires returned is what was published, in order; a slot in use carries its own token. */
  predicate InOrder(s: State) {
    && s.readIndex + Delivered(s.consumer) <= |s.published|
    && s.delivered == s.published[..s.readIndex + Delivered(s.consumer)]
    && (s.consumer.CReading? ==> s.consumer.token == s.readIndex + 1)
  }

  /** Completion comes after the last publish, and `CDone` after the last release. */
  predicate Finished(s: State) {
    && (s.producerDone ==> s.producer.PIdle?)
    && (s.consumer.CSawDone? ==> s.producerDone)
    && (s.consumer.CDone? ==> s.producerDone && s.readIndex == |s.published|)
  }

  predicate Inv(s: State) {
    Shaped(s) && Counted(s) && BytesCounted(s) && Stored(s) && InOrder(s) && Finished(s)
  }

  // ----- every action keeps it

  lemma {:induction false} BytesAppend(ps: seq<Payload>, p: Payload)
    ensures Bytes(ps + [p]) == Bytes(ps) + |p.data|
  {
    if ps == [] {
      assert [p][1..] == [];
    } else {
      assert (ps + [p])[1..] == ps[1..] + [p];
      BytesAppend(ps[1..], p);
    }
  }

  predicate SlotShaped(slot: Slot, slotSize: nat) { |slot.bytes| == slotSize && |slot.hashes| == HASH_CAPACITY }

  lemma SetSlotShaped(s: State, q: nat, slot: Slot)
    requires Shaped(s) && SlotShaped(slot, s.slotSize)
    ensures forall i :: 0 <= i < |SetSlot(s, q, slot)| ==> SlotShaped(SetSlot(s, q, slot)[i], s.slotSize)
    ensures |SetSlot(s, q, slot)| == |s.slots|
  {
  }

  lemma ProducerShaped(s: State, a: ProducerAction)
    requires Shaped(s) && ProducerEnabled(s, a)
    ensures Shaped(ProducerStep(s, a)) && |ProducerStep(s, a).slots| == |s.slots|
  {
    hide SlotIndex, Zeros, SetSlot;
    match a
    case WriteToken =>
      SetSlotShaped(s, s.writeIndex, SlotAt(s, s.writeIndex).(token := s.writeIndex + 1));
    case WriteHeader =>
      var p, q := s.producer.p, s.producer.sequence;
      SetSlotShaped(s, q, SlotAt(s, q).(fileIndex := p.fileIndex, fileOffset := p.fileOffset, length := |p.data|,
                                        flags := p.flags, hashLength := |p.hashes|,
                                        hashes := p.hashes + Zeros(HASH_CAPACITY - |p.hashes|)));
    case WriteData =>
      var p, q := s.producer.p, s.producer.sequence;
      SetSlotShaped(s, q, SlotAt(s, q).(bytes := p.data + SlotAt(s, q).bytes[|p.data|..]));
    case _ =>
  }

  lemma ConsumerShaped(s: State, a: ConsumerAction)
    requires Shaped(s) && ConsumerEnabled(s, a)
    ensures ConsumerStep(s, a).slots == s.slots && Shaped(ConsumerStep(s, a))
  {
    hide SlotIndex, SlotAt;
  }

  lemma ShapedKept(s: State, a: Action)
    requires Shaped(s) && Enabled(s, a)
    ensures Shaped(Next(s, a)) && |Next(s, a).slots| == |s.slots|
  {
    hide SlotAt, ProducerStep, ConsumerStep;
    match a
    case ByProducer(pa) => ProducerShaped(s, pa);
    case ByConsumer(ca) => ConsumerShaped(s, ca);
    case _ =>
  }

  lemma ProducerCounted(s: State, a: ProducerAction)
    requires Inv(s) && ProducerEnabled(s, a)
    ensures Counted(ProducerStep(s, a))
  {
    hide SlotIndex, Zeros, Holds, HeaderHolds, Load, BytesCounted, InOrder, Shaped;
  }

  lemma ConsumerCounted(s: State, a: ConsumerAction)
    requires Inv(s) && ConsumerEnabled(s, a)
    ensures Counted(ConsumerStep(s, a))
  {
    hide SlotIndex, Zeros, HeaderHolds, BytesCounted;
  }

  /** A slot the consumer owns was published and signalled. */
  lemma TakenInside(s: State)
    requires Counted(s)
    ensures s.readIndex + Taken(s.consumer) + FullLag(s.producer) <= |s.published|
  {
  }

  lemma IndexBytes(s: State)
    requires Inv(s) && s.producer.PDataWritten?
    ensures BytesCounted(ProducerStep(s, StoreWriteIndex))
  {
    hide SlotIndex, Zeros, Bytes, InOrder, Finished, Counted, Stored, Shaped;
    var r := s.readIndex + BytesGone(s.consumer);
    var t := ProducerStep(s, StoreWriteIndex);
    assert t.published[r..|s.published|] == s.published[r..|s.published| - BytesLag(s.producer)];
  }

  lemma AddedBytes(s: State)
    requires Inv(s) && s.producer.PIndexed?
    ensures BytesCounted(ProducerStep(s, AddBytes))
  {
    hide SlotIndex, Zeros, Bytes, InOrder, Finished, Counted, Holds, HeaderHolds, Shaped;
    var w := |s.published|;
    var r := s.readIndex + BytesGone(s.consumer);
    assert s.published[r..w] == s.published[r..w - 1] + [s.producer.p];
    BytesAppend(s.published[r..w - 1], s.producer.p);
  }

  lemma ProducerBytes(s: State, a: ProducerAction)
    requires Inv(s) && ProducerEnabled(s, a)
    ensures BytesCounted(ProducerStep(s, a))
  {
    hide SlotIndex, Zeros, Bytes, InOrder, Finished, Counted, Stored, Shaped;
    if a.StoreWriteIndex? {
      IndexBytes(s);
    } else if a.AddBytes? {
      AddedBytes(s);
    }
  }

  lemma ConsumerBytes(s: State, a: ConsumerAction)
    requires Inv(s) && ConsumerEnabled(s, a)
    ensures BytesCounted(ConsumerStep(s, a))
  {
    hide SlotIndex, Zeros, HeaderHolds, Shaped, Counted, Holds, InOrder, Finished, Load, Bytes;
    TakenInside(s);
    match a
    case Release(token) =>
      ReleasedLength(s);
    case SubtractBytes =>
      var w := |s.published| - BytesLag(s.producer);
      BytesSplit(s.published[s.readIndex..w]);
      assert s.published[s.readIndex..w][1..] == s.published[s.readIndex + 1..w];
    case _ =>
  }

  lemma BytesSplit(ps: seq<Payload>)
    requires ps != []
    ensures Bytes(ps) == |ps[0].data| + Bytes(ps[1..])
  {
  }

  lemma ReleasedLength(s: State)
    requires Inv(s) && s.consumer.CReading?
    ensures s.readIndex < |s.published| && SlotAt(s, s.readIndex).length == |s.published[s.readIndex].data|
    ensures SlotAt(s, s.readIndex).token == s.readIndex + 1
  {
    assert Holds(SlotAt(s, s.readIndex), s.published[s.readIndex], s.readIndex);
  }

  lemma OtherSlots(s: State, slot: Slot)
    requires |s.slots| > 0 && |s.published| < s.readIndex + |s.slots|
    ensures var t := s.(slots := SetSlot(s, |s.published|, slot));
            && SlotAt(t, |s.published|) == slot
            && forall q :: s.readIndex <= q < |s.published| ==> SlotAt(t, q) == SlotAt(s, q)
  {
    var t := s.(slots := SetSlot(s, |s.published|, slot));
    forall q | s.readIndex <= q < |s.published| ensures SlotAt(t, q) == SlotAt(s, q) {
      DistinctSlots(q, |s.published|, |s.slots|);
    }
  }

  lemma PermitMeansRoom(s: State)
    requires Counted(s) && Permit(s.producer) == 1
    ensures |s.published| < s.readIndex + |s.slots| && s.writeIndex == |s.published|
  {
  }

  predicate PublishedIntact(s: State)
    requires |s.slots| > 0
  {
    forall q :: s.readIndex <= q < |s.published| ==> Holds(SlotAt(s, q), s.published[q], q)
  }

  lemma WriteKeepsOthers(s: State, slot: Slot, t: State)
    requires |s.slots| > 0 && PublishedIntact(s) && Counted(s) && Permit(s.producer) == 1
    requires t.slots == SetSlot(s, |s.published|, slot) && t.published == s.published && t.readIndex == s.readIndex
    ensures |t.slots| > 0 && PublishedIntact(t) && SlotAt(t, s.writeIndex) == slot
  {
    PermitMeansRoom(s);
    OtherSlots(s, slot);
    var u := s.(slots := SetSlot(s, |s.published|, slot));
    hide Holds, Counted, SlotIndex;
    forall q | s.readIndex <= q < |s.published| ensures Holds(SlotAt(t, q), s.published[q], q) {
      assert SlotAt(t, q) == SlotAt(u, q) == SlotAt(s, q);
    }
    assert SlotAt(t, |s.published|) == SlotAt(u, |s.published|);
  }

  lemma SomeSlots(s: State)
    requires Shaped(s)
    ensures |s.slots| > 0
  {
  }

  lemma ProducerStored(s: State, a: ProducerAction)
    requires Inv(s) && ProducerEnabled(s, a)
    ensures Shaped(ProducerStep(s, a)) && Stored(ProducerStep(s, a))
  {
    hide SlotIndex, Zeros, Counted, BytesCounted, InOrder, Finished, SetSlot, SlotAt, Holds, HeaderHolds, Shaped;
    ProducerShaped(s, a);
    SomeSlots(s);
    var t := ProducerStep(s, a);
    assert PublishedIntact(s);
    match a
    case WriteToken =>
      TokenWritten(s);
    case WriteHeader =>
      HeaderWritten(s);
    case WriteData =>
      DataWritten(s);
    case StoreWriteIndex =>
      IndexStored(s);
    case _ =>
      SameSlots(s, t);
  }

  lemma SameSlots(s: State, t: State)
    requires |s.slots| > 0 && PublishedIntact(s) && t.slots == s.slots && t.published == s.published
             && t.readIndex >= s.readIndex
    ensures PublishedIntact(t)
  {
    hide Holds, SlotIndex;
    forall q | t.readIndex <= q < |t.published| ensures Holds(SlotAt(t, q), t.published[q], q) {
      assert SlotAt(t, q) == SlotAt(s, q);
    }
  }

  lemma TokenWritten(s: State)
    requires Inv(s) && s.producer.PReady?
    ensures var t := ProducerStep(s, WriteToken);
            |t.slots| > 0 && PublishedIntact(t) && SlotAt(t, s.writeIndex).token == s.writeIndex + 1
  {
    hide SlotIndex, Zeros, BytesCounted, InOrder, Finished, SetSlot, SlotAt, Holds, HeaderHolds, Shaped;
    var t := ProducerStep(s, WriteToken);
    WriteKeepsOthers(s, SlotAt(s, s.writeIndex).(token := s.writeIndex + 1), t);
  }

  lemma HeaderWritten(s: State)
    requires Inv(s) && s.producer.PTokenWritten?
    ensures var t := ProducerStep(s, WriteHeader);
            |t.slots| > 0 && PublishedIntact(t) && HeaderHolds(SlotAt(t, s.writeIndex), s.producer.p, s.writeIndex)
  {
    hide SlotIndex, Zeros, BytesCounted, InOrder, Finished, SetSlot, SlotAt, Holds;
    var t := ProducerStep(s, WriteHeader);
    var p := s.producer.p;
    var slot := SlotAt(s, s.writeIndex).(fileIndex := p.fileIndex, fileOffset := p.fileOffset, length := |p.data|,
                                         flags := p.flags, hashLength := |p.hashes|,
                                         hashes := p.hashes + Zeros(HASH_CAPACITY - |p.hashes|));
    WriteKeepsOthers(s, slot, t);
  }

  lemma DataWritten(s: State)
    requires Inv(s) && s.producer.PHeaderWritten?
    ensures var t := ProducerStep(s, WriteData);
            |t.slots| > 0 && PublishedIntact(t) && Holds(SlotAt(t, s.writeIndex), s.producer.p, s.writeIndex)
  {
    hide SlotIndex, Zeros, BytesCounted, InOrder, Finished, SetSlot;
    var t := ProducerStep(s, WriteData);
    var p := s.producer.p;
    var old_ := SlotAt(s, s.writeIndex);
    assert SlotShaped(old_, s.slotSize);
    var slot := old_.(bytes := p.data + old_.bytes[|p.data|..]);
    assert Holds(slot, p, s.writeIndex) by {
      assert slot.bytes[..slot.length] == p.data;
    }
    WriteKeepsOthers(s, slot, t);
  }

  lemma IndexStored(s: State)
    requires Inv(s) && s.producer.PDataWritten?
    ensures var t := ProducerStep(s, StoreWriteIndex); |t.slots| > 0 && PublishedIntact(t)
  {
    hide SlotIndex, Zeros, BytesCounted, InOrder, Finished, SetSlot, Holds;
    var t := ProducerStep(s, StoreWriteIndex);
    forall q | t.readIndex <= q < |t.published| ensures Holds(SlotAt(t, q), t.published[q], q) {
      assert SlotAt(t, q) == SlotAt(s, q);
    }
  }

  lemma ConsumerUntouched(s: State, a: ConsumerAction)
    requires Shaped(s) && ConsumerEnabled(s, a)
    ensures var t := ConsumerStep(s, a);
            t.published == s.published && t.readIndex >= s.readIndex && t.producer == s.producer
            && t.writeIndex == s.writeIndex
  {
    hide SlotIndex, SlotAt, Shaped, Load;
  }

  lemma ConsumerStored(s: State, a: ConsumerAction)
    requires Inv(s) && ConsumerEnabled(s, a)
    ensures Shaped(ConsumerStep(s, a)) && Stored(ConsumerStep(s, a))
  {
    hide SlotIndex, SlotAt, Holds, HeaderHolds, BytesCounted, InOrder, Finished, Counted, Load, Shaped, ConsumerStep,
         ConsumerEnabled;
    ConsumerShaped(s, a);
    ConsumerUntouched(s, a);
    SomeSlots(s);
    var t := ConsumerStep(s, a);
    assert PublishedIntact(s);
    SameSlots(s, t);
    SlotUnmoved(s, t, s.writeIndex);
  }

  lemma SlotUnmoved(s: State, t: State, q: nat)
    requires |s.slots| > 0 && t.slots == s.slots
    ensures SlotAt(t, q) == SlotAt(s, q)
  {
  }

  lemma ProducerOrder(s: State, a: ProducerAction)
    requires Inv(s) && ProducerEnabled(s, a)
    ensures InOrder(ProducerStep(s, a)) && Finished(ProducerStep(s, a))
  {
    hide SlotIndex, Zeros, BytesCounted, Counted, Stored, SetSlot, SlotAt, Shaped;
  }

  lemma ConsumerOrder(s: State, a: ConsumerAction)
    requires Inv(s) && ConsumerEnabled(s, a)
    ensures InOrder(ConsumerStep(s, a))
  {
    hide SlotIndex, BytesCounted, Counted, SlotAt, Finished, Load, HeaderHolds;
    TakenInside(s);
    if a.Inspect? {
      var slot := SlotAt(s, s.readIndex);
      assert Holds(slot, s.published[s.readIndex], s.readIndex);
      assert s.published[..s.readIndex] + [s.published[s.readIndex]] == s.published[..s.readIndex + 1];
    }
  }

  lemma ConsumerFinished(s: State, a: ConsumerAction)
    requires Inv(s) && ConsumerEnabled(s, a)
    ensures Finished(ConsumerStep(s, a))
  {
    hide SlotIndex, BytesCounted, SlotAt, Load, HeaderHolds, Stored, InOrder, Shaped;
  }

  /** Every action, by whichever process, keeps the invariant. */
  lemma StepKeeps(s: State, a: Action)
    requires Inv(s) && Enabled(s, a)
    ensures Inv(Next(s, a))
  {
    hide Counted, BytesCounted, Stored, InOrder, Finished, Shaped, ProducerStep, ConsumerStep;
    ShapedKept(s, a);
    match a
    case ByProducer(pa) =>
      ProducerCounted(s, pa);
      ProducerBytes(s, pa);
      ProducerStored(s, pa);
      ProducerOrder(s, pa);
    case ByConsumer(ca) =>
      ConsumerCounted(s, ca);
      ConsumerBytes(s, ca);
      ConsumerStored(s, ca);
      ConsumerOrder(s, ca);
      ConsumerFinished(s, ca);
    case ByObserver(oa) =>
      Elsewhere(s, s.(observer := ObserverStep(s, oa).observer));
    case Cancel =>
      Elsewhere(s, s.(cancelled := true));
    case SetError =>
      Elsewhere(s, s.(error := true));
  }

  lemma Elsewhere(s: State, t: State)
    requires Inv(s) && t == s.(observer := t.observer, cancelled := t.cancelled, error := s.error || t.error)
    ensures Inv(t)
  {
    hide SlotIndex, Holds, HeaderHolds, Bytes, Load;
    assert forall q :: SlotAt(t, q) == SlotAt(s, q);
  }
}
