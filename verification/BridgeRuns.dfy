/** What the ring guarantees over whole runs. */
module BridgeRuns {
  import opened BridgeRing
  import opened RingIndex

  predicate Allowed(s: State, run: seq<Action>)
    requires Shaped(s)
    decreases |run|
  {
    run != [] ==> Enabled(s, run[0]) && (ShapedKept(s, run[0]); Allowed(Next(s, run[0]), run[1..]))
  }

  function After(s: State, run: seq<Action>): (t: State)
    requires Shaped(s) && Allowed(s, run)
    ensures Shaped(t)
    decreases |run|
  {
    if run == [] then s else (ShapedKept(s, run[0]); After(Next(s, run[0]), run[1..]))
  }

  /** Every state of every interleaving satisfies the invariant. */
  lemma {:induction false} RunsKeep(s: State, run: seq<Action>)
    requires Inv(s) && Allowed(s, run)
    ensures Inv(After(s, run))
    decreases |run|
  {
    if run != [] {
      hide Inv, Next, Enabled;
      StepKeeps(s, run[0]);
      ShapedKept(s, run[0]);
      RunsKeep(Next(s, run[0]), run[1..]);
    }
  }

  lemma StartsOk(s: State)
    requires Initial(s)
    ensures Inv(s)
  {
  }

  // ----- safety of every reachable state

  lemma Bounded(s: State)
    requires Inv(s)
    ensures s.delivered <= s.published && 0 <= s.occupiedSlots <= |s.slots| && 0 <= s.bufferedBytes
    ensures s.empty + s.full <= |s.slots|
  {
    hide Shaped, Stored, Bytes;
    assert s.bufferedBytes >= 0;
  }

  // ----- the end by cancellation or error

  /** The payload the producer is past the check with. */
  function Committed(p: Producer): nat {
    if p.PReady? || p.PTokenWritten? || p.PHeaderWritten? || p.PDataWritten? then 1 else 0
  }

  lemma CancelledStep(s: State, a: Action)
    requires Shaped(s) && Enabled(s, a) && s.cancelled
    ensures var t := Next(s, a);
            && t.cancelled && s.published <= t.published
            && |t.published| + Committed(t.producer) <= |s.published| + Committed(s.producer)
  {
    hide Shaped, ProducerStep, ConsumerStep, ObserverStep, Committed;
    match a
    case ByProducer(pa) => ProducerCancelled(s, pa);
    case ByConsumer(ca) => ConsumerCancelled(s, ca);
    case ByObserver(oa) => ObserverCancelled(s, oa);
    case _ =>
  }

  lemma ProducerCancelled(s: State, pa: ProducerAction)
    requires Shaped(s) && ProducerEnabled(s, pa) && s.cancelled
    ensures var t := ProducerStep(s, pa);
            && t.cancelled && s.published <= t.published
            && |t.published| + Committed(t.producer) <= |s.published| + Committed(s.producer)
  {
    hide Shaped, SetSlot, SlotAt, Fits, Zeros;
  }

  lemma ConsumerCancelled(s: State, ca: ConsumerAction)
    requires Shaped(s) && ConsumerEnabled(s, ca)
    ensures var t := ConsumerStep(s, ca);
            t.cancelled == s.cancelled && t.published == s.published && t.producer == s.producer
  {
    hide Shaped, SlotAt, Load;
  }

  lemma ObserverCancelled(s: State, oa: ObserverAction)
    requires Shaped(s) && ObserverEnabled(s, oa)
    ensures var t := ObserverStep(s, oa);
            t.cancelled == s.cancelled && t.published == s.published && t.producer == s.producer
  {
    hide Shaped;
  }

  /** After a cancellation at most the payload that was past the check is still published. */
  lemma {:induction false} CancelEndsPublishing(s: State, run: seq<Action>)
    requires Shaped(s) && Allowed(s, run) && s.cancelled
    ensures var t := After(s, run);
            && t.cancelled && s.published <= t.published
            && |t.published| + Committed(t.producer) <= |s.published| + Committed(s.producer)
    decreases |run|
  {
    if run != [] {
      hide Shaped, Next, Enabled, Committed;
      CancelledStep(s, run[0]);
      ShapedKept(s, run[0]);
      CancelEndsPublishing(Next(s, run[0]), run[1..]);
    }
  }

  /** No wait outlasts a cancellation or an error: whichever side waits can leave at once, and the ring is as
      before; without either it can leave only with a permit, or on its own time limit. */
  lemma WaitsEnd(s: State)
    requires Shaped(s)
    ensures s.producer.PWaiting? ==>
      if s.cancelled || s.error then Enabled(s, ByProducer(AbandonPublish))
                                     && Next(s, ByProducer(AbandonPublish)) == s.(producer := PIdle)
      else forall pa :: ProducerEnabled(s, pa) ==> pa == TakeEmpty && s.empty > 0
    ensures s.consumer.CWaiting? ==>
      if s.cancelled || s.error then Enabled(s, ByConsumer(AbandonAcquire))
                                     && Next(s, ByConsumer(AbandonAcquire)) == s.(consumer := CIdle)
      else forall ca :: ConsumerEnabled(s, ca) ==> ca == TimeOut || (ca == TakeFull && s.full > 0)
  {
  }

  /** First in, first out, and both counters within the ring. */
  lemma FirstInFirstOut(start: State, run: seq<Action>)
    requires Initial(start) && Allowed(start, run)
    ensures var s := After(start, run);
            && s.delivered <= s.published
            && 0 <= s.occupiedSlots <= |s.slots| && 0 <= s.bufferedBytes
            && s.empty + s.full <= |s.slots|
  {
    StartsOk(start);
    RunsKeep(start, run);
    hide Inv, Initial, Allowed, After;
    Bounded(After(start, run));
  }

  /** The producer never writes the slot the consumer owns, whatever happens next. */
  lemma SlotUndisturbed(s: State, a: Action)
    requires Inv(s) && Enabled(s, a) && Taken(s.consumer) == 1
    ensures Permit(s.producer) == 1 ==> SlotIndex(s.writeIndex, |s.slots|) != SlotIndex(s.readIndex, |s.slots|)
    ensures |Next(s, a).slots| == |s.slots| && SlotAt(Next(s, a), s.readIndex) == SlotAt(s, s.readIndex)
  {
    WritesApart(s);
    match a
    case ByProducer(pa) => ProducerUndisturbed(s, pa);
    case ByConsumer(ca) =>
      hide ConsumerStep, Inv, SlotAt;
      ConsumerShaped(s, ca);
      SlotUnmoved(s, ConsumerStep(s, ca), s.readIndex);
    case _ =>
  }

  /** From the grant to the release, over any run: the slot's memory and the consumer's claim stay. */
  lemma {:induction false} SlotKept(s: State, run: seq<Action>)
    requires Inv(s) && Allowed(s, run) && Taken(s.consumer) == 1
    requires ByConsumer(StoreReadIndex) !in run
    ensures var t := After(s, run);
      t.readIndex == s.readIndex && Taken(t.consumer) == 1 && |t.slots| == |s.slots|
      && SlotAt(t, s.readIndex) == SlotAt(s, s.readIndex)
    decreases |run|
  {
    if run != [] {
      StillTaken(s, run[0]);
      hide Inv, Next, Enabled, Taken, SlotAt;
      SlotUndisturbed(s, run[0]);
      StepKeeps(s, run[0]);
      ShapedKept(s, run[0]);
      SlotKept(Next(s, run[0]), run[1..]);
    }
  }

  lemma StillTaken(s: State, a: Action)
    requires Inv(s) && Enabled(s, a) && Taken(s.consumer) == 1 && a != ByConsumer(StoreReadIndex)
    ensures Next(s, a).readIndex == s.readIndex && Taken(Next(s, a).consumer) == 1
  {
    hide ProducerStep, ConsumerStep, Counted, BytesCounted, Stored, InOrder, Finished, Shaped;
    match a
    case ByProducer(pa) => ConsumerUnmoved(s, pa);
    case ByConsumer(ca) => ConsumerStays(s, ca);
    case _ =>
  }

  lemma ConsumerUnmoved(s: State, a: ProducerAction)
    requires Shaped(s) && ProducerEnabled(s, a)
    ensures var t := ProducerStep(s, a);
      t.consumer == s.consumer && t.readIndex == s.readIndex && t.observer == s.observer && t.cancelled == s.cancelled
      && t.error == s.error
  {
    hide SlotIndex, Zeros, SlotAt, SetSlot;
  }

  lemma ConsumerStays(s: State, a: ConsumerAction)
    requires Shaped(s) && ConsumerEnabled(s, a) && Taken(s.consumer) == 1 && !a.StoreReadIndex?
    ensures ConsumerStep(s, a).readIndex == s.readIndex && Taken(ConsumerStep(s, a).consumer) == 1
  {
    hide SlotIndex, SlotAt, Load, ConsumerEnabled;
    match a
    case Inspect =>
    case Release(_) =>
    case SubtractBytes =>
    case SubtractSlot =>
    case _ => NotTaken(s, a);
  }

  lemma NotTaken(s: State, a: ConsumerAction)
    requires ConsumerEnabled(s, a) && Taken(s.consumer) == 1
    ensures a.Inspect? || a.Release? || a.SubtractBytes? || a.SubtractSlot? || a.StoreReadIndex?
  {
  }

  lemma WritesApart(s: State)
    requires Inv(s) && Taken(s.consumer) == 1
    ensures Permit(s.producer) == 1 ==> SlotIndex(s.writeIndex, |s.slots|) != SlotIndex(s.readIndex, |s.slots|)
  {
    TakenInside(s);
    if Permit(s.producer) == 1 {
      PermitMeansRoom(s);
      DistinctSlots(s.readIndex, s.writeIndex, |s.slots|);
    }
  }

  lemma ProducerUndisturbed(s: State, a: ProducerAction)
    requires Inv(s) && ProducerEnabled(s, a)
    requires Permit(s.producer) == 1 ==> SlotIndex(s.writeIndex, |s.slots|) != SlotIndex(s.readIndex, |s.slots|)
    ensures |ProducerStep(s, a).slots| == |s.slots| && SlotAt(ProducerStep(s, a), s.readIndex) == SlotAt(s, s.readIndex)
  {
    hide SlotIndex, Zeros, Holds, HeaderHolds, Counted, BytesCounted, InOrder, Finished;
  }

  /** A granted acquire hands out the next published payload; it is refused only when the caller
      asked for another file. */
  lemma AcquireSucceeds(s: State)
    requires Inv(s) && s.consumer.CGranted?
    ensures s.readIndex < |s.published|
    ensures var t := ConsumerStep(s, Inspect); var p := s.published[s.readIndex];
            if p.fileIndex == s.consumer.expected then t.consumer == CReading(s.readIndex + 1)
              && t.delivered == s.delivered + [p] && t.error == s.error
            else t.consumer == CFailed && t.error
  {
    TakenInside(s);
    hide Counted, BytesCounted, Finished, SlotIndex;
    assert Holds(SlotAt(s, s.readIndex), s.published[s.readIndex], s.readIndex);
    assert SlotAt(s, s.readIndex) in s.slots;
  }

  /** Releasing with the token that acquire returned always goes through, and neither counter
      is taken below zero by it. */
  lemma ReleaseSucceeds(s: State)
    requires Inv(s)
    ensures s.consumer.CReading? ==>
      s.consumer.token == s.readIndex + 1 && ConsumerStep(s, Release(s.consumer.token)).consumer.CReleasing?
    ensures s.consumer.CReleasing? ==> s.consumer.length <= s.bufferedBytes
    ensures s.consumer.CBytesGone? ==> s.occupiedSlots >= 1
  {
    TakenInside(s);
    if s.consumer.CReading? {
      ReleasedLength(s);
    }
    if s.consumer.CReleasing? {
      BytesSplit(s.published[s.readIndex..|s.published| - BytesLag(s.producer)]);
    }
  }

  predicate Drained(s: State) { s.occupiedSlots == 0 && s.delivered == s.published }

  lemma DoneDrained(s: State)
    requires Inv(s) && s.consumer.CDone?
    ensures s.producerDone && Drained(s) && s.empty == |s.slots|
  {
    hide Shaped, Stored, BytesCounted;
    assert s.published[..|s.published|] == s.published;
  }

  /** An acquire that returns DONE: the producer has completed and every slot came back. */
  lemma AcquireDone(start: State, run: seq<Action>)
    requires Initial(start) && Allowed(start, run) && After(start, run).consumer.CDone?
    ensures var s := After(start, run); s.producerDone && Drained(s) && s.empty == |s.slots|
  {
    StartsOk(start);
    RunsKeep(start, run);
    hide Inv, Initial, Allowed, After;
    DoneDrained(After(start, run));
  }

  // ----- building runs

  lemma {:induction false} Extend(s: State, run: seq<Action>, a: Action)
    requires Shaped(s) && Allowed(s, run) && Enabled(After(s, run), a)
    ensures Allowed(s, run + [a]) && After(s, run + [a]) == Next(After(s, run), a)
    decreases |run|
  {
    hide Shaped, Next, Enabled;
    ShapedKept(s, if run == [] then a else run[0]);
    if run == [] {
      assert [a][1..] == [];
      assert run + [a] == [a];
      assert Allowed(Next(s, a), []);
    } else {
      Extend(Next(s, run[0]), run[1..], a);
      assert (run + [a])[0] == run[0] && (run + [a])[1..] == run[1..] + [a];
    }
  }

  /** Runs as lists of actions taken one after another, each where the previous one led. */
  ghost predicate Leads(s: State, run: seq<Action>, t: State) {
    Shaped(s) && Allowed(s, run) && After(s, run) == t
  }

  lemma LeadsOn(s: State, run: seq<Action>, t: State, a: Action)
    requires Leads(s, run, t) && Shaped(t) && Enabled(t, a)
    ensures Leads(s, run + [a], Next(t, a))
  {
    hide Shaped, Next, Enabled;
    Extend(s, run, a);
  }
}
