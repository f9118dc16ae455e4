/** What DONE from `wait_until_buffered` means: the call looks at the ring through several separate
    reads, while producer and consumer go on. */
module BridgeWatch {
  import opened BridgeRing
  import opened BridgeRuns
  import opened RingIndex

  predicate NoNewWatch(run: seq<Action>) {
    forall i :: 0 <= i < |run| ==> !(run[i].ByObserver? && run[i].oa.Watch?)
  }

  /** Whatever the schedule, the call in progress reports DONE only with the ring drained. */
  ghost predicate DoneMeansDrained(s: State)
    requires Shaped(s)
  {
    forall run: seq<Action> ::
      Allowed(s, run) && NoNewWatch(run) && After(s, run).observer.OReturned? && After(s, run).observer.code == DONE ==>
        Drained(After(s, run))
  }

  /** Once the producer is done an empty ring stays empty, and the observer's copy agrees. */
  predicate Settled(s: State) {
    && s.producerDone
    && (match s.observer
        case OSawOccupied(_, o) => o > 0 || s.occupiedSlots == 0
        case OBelowTarget(_, o) => o > 0 || s.occupiedSlots == 0
        case OUndecided(_, o) => s.occupiedSlots == 0
        case OReturned(_, code) => code == DONE ==> s.occupiedSlots == 0
        case _ => true)
  }

  lemma SettledStep(s: State, a: Action)
    requires Inv(s) && Settled(s) && Enabled(s, a)
    ensures Settled(Next(s, a))
  {
    hide SlotIndex, Zeros, Stored, BytesCounted, InOrder, SlotAt, SetSlot, Load;
    match a
    case ByProducer(pa) =>
    case ByConsumer(ca) =>
    case ByObserver(oa) =>
      Positive(s);
    case Cancel =>
    case SetError =>
  }

  lemma Positive(s: State)
    requires Inv(s)
    ensures s.occupiedSlots >= 0 && (s.occupiedSlots == 0 && s.producerDone ==> s.delivered == s.published)
  {
    TakenInside(s);
    if s.occupiedSlots == 0 && s.producerDone {
      assert s.published[..|s.published|] == s.published;
    }
  }

  lemma {:induction false} SettledRun(s: State, run: seq<Action>)
    requires Inv(s) && Settled(s) && Allowed(s, run)
    ensures Inv(After(s, run)) && Settled(After(s, run))
    decreases |run|
  {
    if run != [] {
      hide Inv, Next, Enabled, Settled;
      StepKeeps(s, run[0]);
      ShapedKept(s, run[0]);
      SettledStep(s, run[0]);
      SettledRun(Next(s, run[0]), run[1..]);
    }
  }

  // ----- schedules

  /** A schedule from `s` to `t` in which the observer does nothing new and no one gives up. */
  ghost predicate Reaches(s: State, run: seq<Action>, t: State) {
    Leads(s, run, t) && Inv(t) && NoNewWatch(run)
  }

  /** Still in the call, before its first look; nobody completed, cancelled or failed. */
  predicate Steady(s: State, t: State) {
    t.observer == s.observer && !t.producerDone && !t.cancelled && !t.error && |t.slots| == |s.slots|
  }

  /** A granted acquire was asked for the file of the slot it will find. */
  predicate RightFile(s: State) {
    s.consumer.CGranted? ==> s.readIndex < |s.published| && s.published[s.readIndex].fileIndex == s.consumer.expected
  }

  lemma LeadsNowhere(s: State)
    requires Inv(s)
    ensures Reaches(s, [], s)
  {
  }

  lemma OneMore(s: State, before: seq<Action>, t: State, a: ProducerAction) returns (run: seq<Action>, u: State)
    requires Reaches(s, before, t) && ProducerEnabled(t, a)
    ensures Shaped(t) && u == ProducerStep(t, a) && Reaches(s, run, u)
  {
    hide Leads, Shaped, ProducerStep, ProducerEnabled, Counted, BytesCounted, Stored, InOrder, Finished;
    StepKeeps(t, ByProducer(a));
    run, u := before + [ByProducer(a)], ProducerStep(t, a);
    LeadsOn(s, before, t, ByProducer(a));
  }

  lemma OneTake(s: State, before: seq<Action>, t: State, a: ConsumerAction) returns (run: seq<Action>, u: State)
    requires Reaches(s, before, t) && ConsumerEnabled(t, a)
    ensures Shaped(t) && u == ConsumerStep(t, a) && Reaches(s, run, u)
  {
    hide Leads, Shaped, ConsumerStep, ConsumerEnabled, Counted, BytesCounted, Stored, InOrder, Finished;
    StepKeeps(t, ByConsumer(a));
    run, u := before + [ByConsumer(a)], ConsumerStep(t, a);
    LeadsOn(s, before, t, ByConsumer(a));
  }

  lemma OneLook(s: State, before: seq<Action>, t: State, a: ObserverAction) returns (run: seq<Action>, u: State)
    requires Reaches(s, before, t) && ObserverEnabled(t, a) && !a.Watch?
    ensures Shaped(t) && u == ObserverStep(t, a) && Reaches(s, run, u)
  {
    hide Leads, Shaped, ObserverStep, ObserverEnabled, Counted, BytesCounted, Stored, InOrder, Finished;
    StepKeeps(t, ByObserver(a));
    run, u := before + [ByObserver(a)], ObserverStep(t, a);
    LeadsOn(s, before, t, ByObserver(a));
  }

  // ----- the producer goes on

  /** Where one undisturbed producer action leads. */
  predicate Moved(t: State, a: ProducerAction, u: State) {
    && u.observer == t.observer && u.producerDone == t.producerDone && u.cancelled == t.cancelled && u.error == t.error
    && |u.slots| == |t.slots| && u.consumer == t.consumer && u.readIndex == t.readIndex
    && t.published <= u.published
    && u.occupiedSlots == t.occupiedSlots + (if a.AddSlot? then 1 else 0)
    && u.full == t.full + (if a.SignalFull? then 1 else 0)
    && (match a
        case Publish(_) => u.producer.PWaiting? && u.empty == t.empty
        case TakeEmpty => u.producer.PHolding?
        case CheckCancelled => u.producer.PReady?
        case WriteToken => u.producer.PTokenWritten?
        case WriteHeader => u.producer.PHeaderWritten?
        case WriteData => u.producer.PDataWritten?
        case StoreWriteIndex => u.producer.PIndexed?
        case AddBytes => u.producer.PBytesAdded?
        case AddSlot => u.producer.PSlotAdded?
        case SignalFull => u.producer.PIdle?
        case _ => true)
  }

  const EMPTY_PAYLOAD: Payload := Payload(0, 0, [], 0, [])

  lemma MovedTo(t: State, a: ProducerAction)
    requires Shaped(t) && ProducerEnabled(t, a)
    requires !t.cancelled && !a.CompleteProducer? && !a.AbandonPublish? && (a.Publish? ==> a.p == EMPTY_PAYLOAD)
    ensures Moved(t, a, ProducerStep(t, a))
  {
    hide SlotIndex, Zeros, SlotAt;
  }

  lemma OneMove(s: State, before: seq<Action>, t: State, a: ProducerAction) returns (run: seq<Action>, u: State)
    requires Reaches(s, before, t) && ProducerEnabled(t, a)
    requires !t.cancelled && !a.CompleteProducer? && !a.AbandonPublish? && (a.Publish? ==> a.p == EMPTY_PAYLOAD)
    ensures Reaches(s, run, u) && Moved(t, a, u)
  {
    hide Reaches, Moved, Shaped, ProducerStep, ProducerEnabled;
    run, u := OneMore(s, before, t, a);
    MovedTo(t, a);
  }

  function StepsLeft(p: Producer): nat {
    match p
    case PIdle => 0
    case PWaiting(_) => 9
    case PHolding(_) => 8
    case PReady(_) => 7
    case PTokenWritten(_, _) => 6
    case PHeaderWritten(_, _) => 5
    case PDataWritten(_, _) => 4
    case PIndexed(_) => 3
    case PBytesAdded(_) => 2
    case PSlotAdded(_) => 1
  }

  /** With room, the producer ends the publish it is in. */
  lemma {:induction false} FinishPublish(s: State, before: seq<Action>, t: State) returns (run: seq<Action>, u: State)
    requires Reaches(s, before, t) && Steady(t, t) && (t.producer.PWaiting? ==> t.empty > 0)
    ensures Reaches(s, run, u) && Steady(t, u) && u.producer.PIdle?
    ensures u.consumer == t.consumer && u.readIndex == t.readIndex && t.published <= u.published
    ensures u.occupiedSlots <= t.occupiedSlots + 1
    ensures StepsLeft(t.producer) <= 1 ==> u.occupiedSlots == t.occupiedSlots
    decreases StepsLeft(t.producer)
  {
    hide Reaches;
    match t.producer
    case PIdle => run, u := before, t;
    case PWaiting(_) => run, u := OneMove(s, before, t, TakeEmpty); run, u := FinishPublish(s, run, u);
    case PHolding(_) => run, u := OneMove(s, before, t, CheckCancelled); run, u := FinishPublish(s, run, u);
    case PReady(_) => run, u := OneMove(s, before, t, WriteToken); run, u := FinishPublish(s, run, u);
    case PTokenWritten(_, _) => run, u := OneMove(s, before, t, WriteHeader); run, u := FinishPublish(s, run, u);
    case PHeaderWritten(_, _) => run, u := OneMove(s, before, t, WriteData); run, u := FinishPublish(s, run, u);
    case PDataWritten(_, _) => run, u := OneMove(s, before, t, StoreWriteIndex); run, u := FinishPublish(s, run, u);
    case PIndexed(_) => run, u := OneMove(s, before, t, AddBytes); run, u := FinishPublish(s, run, u);
    case PBytesAdded(_) => run, u := OneMove(s, before, t, AddSlot); run, u := FinishPublish(s, run, u);
    case PSlotAdded(_) => run, u := OneMove(s, before, t, SignalFull); run, u := FinishPublish(s, run, u);
  }

  // ----- the consumer goes on

  /** Where one consumer action leads that finds the right file and its own token. */
  predicate Took(t: State, a: ConsumerAction, u: State) {
    && u.observer == t.observer && u.producerDone == t.producerDone && u.cancelled == t.cancelled && u.error == t.error
    && |u.slots| == |t.slots| && u.producer == t.producer && u.published == t.published
    && u.readIndex == t.readIndex + (if a.StoreReadIndex? then 1 else 0)
    && (match a
        case Acquire(e) => u.consumer == CWaiting(e) && u.full == t.full
        case TakeFull => t.consumer.CWaiting? && u.consumer == CGranted(t.consumer.expected)
        case TimeOut => u.consumer == CTimedOut
        case LoadDone => u.consumer == if t.producerDone then CSawDone else CIdle
        case Inspect => u.consumer.CReading?
        case Release(_) => u.consumer.CReleasing?
        case SubtractBytes => u.consumer == CBytesGone
        case SubtractSlot => u.consumer == CSlotGone
        case StoreReadIndex => u.consumer == CIndexStored
        case SignalEmpty => u.consumer == CIdle
        case _ => true)
  }

  lemma TookTo(t: State, a: ConsumerAction)
    requires Inv(t) && ConsumerEnabled(t, a) && RightFile(t) && (a.Release? ==> a.token == t.consumer.token)
    ensures Took(t, a, ConsumerStep(t, a))
  {
    if a.Inspect? {
      AcquireSucceeds(t);
      hide Counted, BytesCounted, Stored, InOrder, Finished, SlotAt, Load;
    } else {
      ReleaseSucceeds(t);
      hide Counted, BytesCounted, Stored, InOrder, Finished, SlotAt, Load;
    }
  }

  lemma OneTurn(s: State, before: seq<Action>, t: State, a: ConsumerAction) returns (run: seq<Action>, u: State)
    requires Reaches(s, before, t) && ConsumerEnabled(t, a) && RightFile(t)
             && (a.Release? ==> a.token == t.consumer.token)
    ensures Reaches(s, run, u) && Took(t, a, u)
  {
    hide Took, Leads, NoNewWatch, Inv, Shaped, ConsumerStep, ConsumerEnabled, RightFile;
    run, u := OneTake(s, before, t, a);
    TookTo(t, a);
  }

  function TurnsLeft(c: Consumer): nat {
    match c
    case CWaiting(_) => 2
    case CTimedOut => 1
    case CGranted(_) => 6
    case CReading(_) => 5
    case CReleasing(_) => 4
    case CBytesGone => 3
    case CSlotGone => 2
    case CIndexStored => 1
    case _ => 0
  }

  /** How the consumer goes on, with time-outs where it waits. */
  function NextTurn(c: Consumer): ConsumerAction {
    match c
    case CWaiting(_) => TimeOut
    case CTimedOut => LoadDone
    case CGranted(_) => Inspect
    case CReading(token) => Release(token)
    case CReleasing(_) => SubtractBytes
    case CBytesGone => SubtractSlot
    case CSlotGone => StoreReadIndex
    case _ => SignalEmpty
  }

  lemma TurnTaken(t: State, u: State)
    requires TurnsLeft(t.consumer) > 0 && Took(t, NextTurn(t.consumer), u) && !t.producerDone
    ensures TurnsLeft(u.consumer) < TurnsLeft(t.consumer) && !u.consumer.CGranted?
    ensures u.readIndex + Taken(u.consumer) == t.readIndex + Taken(t.consumer)
    ensures u.observer == t.observer && u.producerDone == t.producerDone && u.cancelled == t.cancelled
            && u.error == t.error
    ensures |u.slots| == |t.slots| && u.producer == t.producer && u.published == t.published
    ensures TurnsLeft(u.consumer) > 0 || u.consumer.CIdle?
  {
  }

  /** The consumer ends the call it is in; a slot it owns it gives back. */
  lemma {:induction false} FinishTurn(s: State, before: seq<Action>, t: State) returns (run: seq<Action>, u: State)
    requires Reaches(s, before, t) && Steady(s, t) && RightFile(t)
    ensures Reaches(s, run, u) && Steady(s, u) && u.consumer.CIdle? && u.producer == t.producer
            && u.published == t.published
    ensures u.readIndex == t.readIndex + Taken(t.consumer)
    decreases TurnsLeft(t.consumer)
  {
    NotStopped(s, before, t);
    if t.consumer.CIdle? {
      run, u := before, t;
    } else {
      TurnEnabled(t);
      hide Reaches, Took, ConsumerEnabled;
      run, u := OneTurn(s, before, t, NextTurn(t.consumer));
      TurnTaken(t, u);
      run, u := FinishTurn(s, run, u);
    }
  }

  lemma TurnEnabled(t: State)
    requires TurnsLeft(t.consumer) > 0
    ensures ConsumerEnabled(t, NextTurn(t.consumer))
    ensures NextTurn(t.consumer).Release? ==> t.consumer.CReading? && NextTurn(t.consumer).token == t.consumer.token
  {
  }

  lemma NotStopped(s: State, before: seq<Action>, t: State)
    requires Reaches(s, before, t) && Steady(s, t)
    ensures !t.consumer.CFailed? && !t.consumer.CSawDone? && !t.consumer.CDone?
  {
  }

  /** One slot after another, until none is signalled. */
  lemma {:induction false} Drain(s: State, before: seq<Action>, t: State) returns (run: seq<Action>, u: State)
    requires Reaches(s, before, t) && Steady(s, t) && t.consumer.CIdle?
    ensures Reaches(s, run, u) && Steady(s, u) && u.consumer.CIdle? && u.producer == t.producer
            && u.published == t.published
    ensures u.full == 0
    decreases |t.published| - t.readIndex
  {
    NextSlot(s, before, t);
    hide Reaches;
    if t.full == 0 {
      run, u := before, t;
    } else {
      run, u := OneTurn(s, before, t, Acquire(t.published[t.readIndex].fileIndex));
      run, u := OneTurn(s, run, u, TakeFull);
      run, u := FinishTurn(s, run, u);
      run, u := Drain(s, run, u);
    }
  }

  lemma NextSlot(s: State, before: seq<Action>, t: State)
    requires Reaches(s, before, t) && t.consumer.CIdle?
    ensures t.full > 0 ==> t.readIndex < |t.published|
  {
  }

  // ----- the schedule that misleads

  /** A ring with nothing signalled and nobody at work is empty, and has room. */
  lemma EmptyRing(s: State, before: seq<Action>, t: State)
    requires Reaches(s, before, t) && t.consumer.CIdle? && t.full == 0
    ensures t.producer.PIdle? ==> t.occupiedSlots == 0 && t.bufferedBytes == 0
    ensures t.producer.PIdle? || t.producer.PWaiting? ==> t.empty > 0
  {
    if t.producer.PIdle? {
      assert t.published[t.readIndex..|t.published|] == [];
    }
  }

  /** Whatever both are doing, they may come to rest with the ring empty before the observer looks. */
  lemma ComesToRest(s: State) returns (run: seq<Action>, t: State)
    requires Inv(s) && Steady(s, s) && RightFile(s)
    ensures Reaches(s, run, t) && Steady(s, t) && t.producer.PIdle? && t.consumer.CIdle?
    ensures t.occupiedSlots == 0 && t.bufferedBytes == 0 && t.empty > 0
  {
    LeadsNowhere(s);
    run, t := FinishTurn(s, [], s);
    run, t := Drain(s, run, t);
    EmptyRing(s, run, t);
    run, t := FinishPublish(s, run, t);
    run, t := Drain(s, run, t);
    EmptyRing(s, run, t);
  }

  /** One uninterrupted publish of an empty payload. */
  lemma PublishOne(s: State, before: seq<Action>, t: State) returns (run: seq<Action>, u: State)
    requires Reaches(s, before, t) && t.producer.PIdle? && !t.producerDone && !t.cancelled && t.empty > 0
    ensures Reaches(s, run, u)
    ensures u.producer.PIdle? && !u.producerDone && u.occupiedSlots == t.occupiedSlots + 1 && u.observer == t.observer
  {
    hide Reaches;
    run, u := OneMove(s, before, t, Publish(EMPTY_PAYLOAD));
    run, u := OneMove(s, run, u, TakeEmpty);
    run, u := OneMove(s, run, u, CheckCancelled);
    run, u := OneMove(s, run, u, WriteToken);
    run, u := OneMove(s, run, u, WriteHeader);
    run, u := OneMove(s, run, u, WriteData);
    run, u := OneMove(s, run, u, StoreWriteIndex);
    run, u := OneMove(s, run, u, AddBytes);
    run, u := OneMove(s, run, u, AddSlot);
    run, u := OneMove(s, run, u, SignalFull);
  }

  /** The observer's looks, all at one state, up to the completion flag that is not yet set. */
  lemma LooksPast(s: State, before: seq<Action>, t: State) returns (run: seq<Action>, u: State)
    requires Reaches(s, before, t) && t.observer.OClear? && t.bufferedBytes < t.observer.target
             && t.occupiedSlots < |t.slots|
    ensures Reaches(s, run, u) && u.observer.OBelowTarget?
    ensures u == t.(observer := u.observer)
  {
    hide Reaches, Shaped;
    run, u := OneLook(s, before, t, WatchOccupied);
    run, u := OneLook(s, run, u, WatchBuffered);
  }

  /** The producer completes, and the observer looks once more. */
  lemma EndsDone(s: State, before: seq<Action>, t: State) returns (run: seq<Action>, u: State)
    requires Reaches(s, before, t) && t.observer.OUndecided? && t.producer.PIdle?
    ensures Reaches(s, run, u) && u.observer.OReturned? && u.observer.code == DONE
    ensures u.occupiedSlots == t.occupiedSlots && u.delivered == t.delivered && u.published == t.published
  {
    hide Reaches, Shaped, ProducerStep;
    CompletesAt(s, before, t);
    run, u := OneMore(s, before, t, CompleteProducer);
    run, u := OneLook(s, run, u, WatchDoneAgain);
  }

  /** The producer publishes and completes between the observer's looks at the slot count and at the
      completion flag. */
  lemma StaleDone(s: State) returns (run: seq<Action>, t: State)
    requires Inv(s) && s.observer.OStarted? && s.observer.target > 0 && Steady(s, s) && RightFile(s)
    ensures Leads(s, run, t) && NoNewWatch(run) && t.observer.OReturned? && t.observer.code == DONE && !Drained(t)
  {
    hide Reaches, Shaped, ProducerStep, SlotIndex, Inv;
    run, t := ComesToRest(s);
    Rings(s, run, t);
    run, t := OneLook(s, run, t, WatchCancelled);
    run, t := OneLook(s, run, t, WatchError);
    run, t := LooksPast(s, run, t);
    run, t := PublishOne(s, run, t);
    run, t := OneLook(s, run, t, WatchDone);
    run, t := EndsDone(s, run, t);
    Rings(s, run, t);
  }

  /** With the consumer stuck on a slot of another file, the ring is neither full nor filled to the
      target, and the slot is never given back. */
  lemma StuckDone(s: State) returns (run: seq<Action>, t: State)
    requires Inv(s) && s.observer.OStarted? && Steady(s, s) && !RightFile(s)
    requires s.bufferedBytes < s.observer.target && s.occupiedSlots < |s.slots|
    ensures Leads(s, run, t) && NoNewWatch(run) && t.observer.OReturned? && t.observer.code == DONE && !Drained(t)
  {
    LeadsNowhere(s);
    RoomLeft(s);
    hide Reaches, Shaped, ProducerStep, SlotIndex, Inv;
    run, t := OneLook(s, [], s, WatchCancelled);
    run, t := OneLook(s, run, t, WatchError);
    run, t := LooksPast(s, run, t);
    run, t := OneLook(s, run, t, WatchDone);
    run, t := FinishPublish(s, run, t);
    StillGranted(s, run, t);
    run, t := EndsDone(s, run, t);
    Rings(s, run, t);
  }

  lemma RoomLeft(s: State)
    requires Inv(s) && s.consumer.CGranted? && s.occupiedSlots < |s.slots|
    ensures s.producer.PWaiting? ==> s.empty > 0
  {
  }

  lemma StillGranted(s: State, run: seq<Action>, t: State)
    requires Reaches(s, run, t) && t.consumer.CGranted?
    ensures t.delivered != t.published
  {
    TakenInside(t);
  }

  lemma Rings(s: State, run: seq<Action>, t: State)
    requires Reaches(s, run, t)
    ensures |t.slots| >= 2 && Leads(s, run, t) && NoNewWatch(run)
  {
  }

  lemma CompletesAt(s: State, run: seq<Action>, t: State)
    requires Reaches(s, run, t) && t.producer.PIdle?
    ensures Shaped(t) && ProducerStep(t, CompleteProducer) == t.(producerDone := true)
  {
  }

  /** It happens in a fresh ring, to the first call with a positive target. */
  lemma StaleDoneFromStart(start: State, target: nat) returns (run: seq<Action>, t: State)
    requires Initial(start) && target > 0
    ensures Shaped(start) && Allowed(start, run) && After(start, run) == t
    ensures t.observer == OReturned(target, DONE) && !Drained(t)
  {
    StartsOk(start);
    var watch := ByObserver(Watch(target));
    StepKeeps(start, watch);
    var s := Next(start, watch);
    var rest;
    rest, t := StaleDone(s);
    run := [watch] + rest;
    assert run[1..] == rest;
    TargetKept(s, rest);
  }

  lemma {:induction false} TargetKept(s: State, run: seq<Action>)
    requires Shaped(s) && Allowed(s, run) && NoNewWatch(run) && !s.observer.OIdle?
    ensures var t := After(s, run); t.observer.OIdle? || t.observer.target == s.observer.target
    decreases |run|
  {
    if run != [] {
      assert NoNewWatch(run[1..]) && !(run[0].ByObserver? && run[0].oa.Watch?);
      LookKeepsTarget(s, run[0]);
      ShapedKept(s, run[0]);
      var t := Next(s, run[0]);
      hide Shaped, Next, Enabled;
      if t.observer.OIdle? {
        StaysIdle(t, run[1..]);
      } else {
        TargetKept(t, run[1..]);
      }
    }
  }

  lemma {:induction false} StaysIdle(s: State, run: seq<Action>)
    requires Shaped(s) && Allowed(s, run) && NoNewWatch(run) && s.observer.OIdle?
    ensures After(s, run).observer.OIdle?
    decreases |run|
  {
    if run != [] {
      assert NoNewWatch(run[1..]) && !(run[0].ByObserver? && run[0].oa.Watch?);
      LookKeepsTarget(s, run[0]);
      ShapedKept(s, run[0]);
      hide Shaped, Next, Enabled;
      StaysIdle(Next(s, run[0]), run[1..]);
    }
  }

  lemma LookKeepsTarget(s: State, a: Action)
    requires Shaped(s) && Enabled(s, a) && !(a.ByObserver? && a.oa.Watch?)
    ensures var t := Next(s, a);
      && (s.observer.OIdle? ==> t.observer.OIdle?)
      && (!s.observer.OIdle? ==> t.observer.OIdle? || t.observer.target == s.observer.target)
  {
    hide Shaped, ProducerStep, ConsumerStep, ProducerEnabled, ConsumerEnabled;
    if !a.ByObserver? { ObserverUnmoved(s, a); }
  }

  /** Only the observer moves the observer, and what stops it is never taken back. */
  lemma ObserverUnmoved(s: State, a: Action)
    requires Shaped(s) && Enabled(s, a) && !a.ByObserver?
    ensures var t := Next(s, a); t.observer == s.observer && (s.cancelled ==> t.cancelled) && (s.error ==> t.error)
  {
    hide Shaped, ProducerStep, ProducerEnabled, SlotIndex, SlotAt, Load;
    match a
    case ByProducer(pa) => ConsumerUnmoved(s, pa);
    case ByConsumer(ca) =>
    case _ =>
  }

  // ----- calls that cannot mislead

  /** A call that starts after the producer completed reports DONE only with the ring drained. */
  lemma DoneAfterCompletion(s: State)
    requires Inv(s) && s.observer.OStarted? && s.producerDone
    ensures DoneMeansDrained(s)
  {
    forall run: seq<Action> | Allowed(s, run) && NoNewWatch(run) && After(s, run).observer.OReturned?
      && After(s, run).observer.code == DONE
      ensures Drained(After(s, run))
    {
      SettledRun(s, run);
      Positive(After(s, run));
    }
  }

  /** The consumer gives no slot back any more: it was granted one of another file than it asked for. */
  predicate Stuck(s: State) { s.consumer.CFailed? || !RightFile(s) }

  /** The ring is filled to the target, or full, and stays so. */
  predicate Enough(s: State, target: nat, occupied: int) {
    target == 0 || (Stuck(s) && (s.bufferedBytes >= target || occupied >= |s.slots|))
  }

  lemma StuckStays(s: State, a: Action)
    requires Inv(s) && Enabled(s, a) && Stuck(s)
    ensures Stuck(Next(s, a)) && Next(s, a).bufferedBytes >= s.bufferedBytes
            && Next(s, a).occupiedSlots >= s.occupiedSlots
  {
    TakenInside(s);
    hide Counted, BytesCounted, Stored, Finished, ProducerStep, ProducerEnabled, SlotAt, Load;
    match a
    case ByProducer(pa) =>
      ProducerAdds(s, pa);
    case ByConsumer(ca) =>
      if s.consumer.CGranted? {
        AcquireSucceeds(s);
      }
    case _ =>
  }

  lemma ProducerAdds(s: State, a: ProducerAction)
    requires Shaped(s) && ProducerEnabled(s, a)
    ensures var t := ProducerStep(s, a);
      && t.consumer == s.consumer && t.readIndex == s.readIndex && s.published <= t.published
      && t.bufferedBytes >= s.bufferedBytes && t.occupiedSlots >= s.occupiedSlots
  {
    hide SlotIndex, Zeros, SlotAt;
  }

  /** The call cannot report DONE: it is bound to give up, or has all it asks for. */
  predicate BoundToStop(s: State) {
    match s.observer
    case OIdle => true
    case OStarted(target) => s.cancelled || s.error || Enough(s, target, s.occupiedSlots)
    case OUncancelled(target) => s.error || Enough(s, target, s.occupiedSlots)
    case OClear(target) => Enough(s, target, s.occupiedSlots)
    case OSawOccupied(target, o) => Enough(s, target, o)
    case OReturned(_, code) => code != DONE
    case _ => false
  }

  lemma StopStep(s: State, a: Action)
    requires Inv(s) && Enabled(s, a) && BoundToStop(s) && !(a.ByObserver? && a.oa.Watch?)
    ensures BoundToStop(Next(s, a))
  {
    ShapedKept(s, a);
    hide Shaped, ProducerStep, ConsumerStep, ProducerEnabled, ConsumerEnabled, Counted, Stored, InOrder, Finished,
         Stuck;
    assert s.bufferedBytes >= 0;
    if Stuck(s) { StuckStays(s, a); }
    if a.ByObserver? { LooksOnly(s, a.oa); } else { ObserverUnmoved(s, a); }
  }

  lemma LooksOnly(s: State, a: ObserverAction)
    requires Shaped(s) && ObserverEnabled(s, a)
    ensures var t := ObserverStep(s, a); t == s.(observer := t.observer) && Stuck(t) == Stuck(s)
  {
  }

  lemma {:induction false} StopRun(s: State, run: seq<Action>)
    requires Inv(s) && Allowed(s, run) && NoNewWatch(run) && BoundToStop(s)
    ensures BoundToStop(After(s, run))
    decreases |run|
  {
    if run != [] {
      assert NoNewWatch(run[1..]) && !(run[0].ByObserver? && run[0].oa.Watch?);
      hide Inv, Next, Enabled, BoundToStop, NoNewWatch;
      StopStep(s, run[0]);
      StepKeeps(s, run[0]);
      ShapedKept(s, run[0]);
      StopRun(Next(s, run[0]), run[1..]);
    }
  }

  lemma NeverDone(s: State)
    requires Inv(s) && BoundToStop(s)
    ensures forall run: seq<Action> :: Allowed(s, run) && NoNewWatch(run) ==>
      !(After(s, run).observer.OReturned? && After(s, run).observer.code == DONE)
  {
    forall run: seq<Action> | Allowed(s, run) && NoNewWatch(run)
      ensures !(After(s, run).observer.OReturned? && After(s, run).observer.code == DONE)
    {
      StopRun(s, run);
    }
  }

  /** DONE from `wait_until_buffered` guarantees a drained ring exactly when the producer had
      completed before the call, or the call cannot report DONE at all: it is stopped, or the ring
      holds what it asks for and will go on holding it.  Otherwise, whatever producer and consumer are in
      the middle of, the call reads the slot count before the completion flag. */
  lemma DoneMeansDrainedIff(s: State)
    requires Inv(s) && s.observer.OStarted?
    ensures DoneMeansDrained(s) <==>
      || s.producerDone || s.cancelled || s.error || s.observer.target == 0
      || (!RightFile(s) && (s.bufferedBytes >= s.observer.target || s.occupiedSlots >= |s.slots|))
  {
    if s.producerDone {
      DoneAfterCompletion(s);
    } else if BoundToStop(s) {
      NeverDone(s);
    } else {
      var run, t := StuckOrStale(s);
      assert After(s, run) == t;
    }
    Failed(s);
  }

  lemma Failed(s: State)
    requires Inv(s)
    ensures s.consumer.CFailed? ==> s.error
  {
  }

  lemma StuckOrStale(s: State) returns (run: seq<Action>, t: State)
    requires Inv(s) && s.observer.OStarted? && !s.producerDone && !BoundToStop(s)
    ensures Leads(s, run, t) && NoNewWatch(run) && t.observer.OReturned? && t.observer.code == DONE && !Drained(t)
  {
    if RightFile(s) {
      run, t := StaleDone(s);
    } else {
      run, t := StuckDone(s);
    }
  }
}
