/** The pool in use: its threads work while the consumer waits for one file after another, takes each
    and gives it back. */
module PoolWaiting {
  import opened Common
  import opened PoolState
  import opened SmallFiles

  /** One section run by a thread of the pool: an open worker takes a file, opens it or fails to; a read
      ends; the watchdog gives up.  Where it speaks of a file that no thread is at, nothing happens. */
  datatype PoolStep =
    | TakeFile
    | OpenFailed(index: nat, retryable: bool)
    | Opened(index: nat)
    | ReadEnded(index: nat, ok: bool, retryable: bool)
    | GiveUpReading

  /** What happens between two looks of the waiting consumer, and whether it is cancelled. */
  datatype Look = Look(steps: seq<PoolStep>, cancelled: bool)

  /** The threads neither add nor remove files, and leave the file that is being read out alone. */
  ghost predicate Undisturbed(before: map<nat, Entry>, after: map<nat, Entry>) {
    && after.Keys == before.Keys
    && forall k :: k in before ==>
       after[k].len == before[k].len && (before[k].status.Borrowed? ==> after[k] == before[k])
  }

  lemma StillUndisturbed(a: map<nat, Entry>, b: map<nat, Entry>, c: map<nat, Entry>)
    requires Undisturbed(a, b) && Undisturbed(b, c)
    ensures Undisturbed(a, c)
  {
  }

  lemma OneUndisturbed(before: map<nat, Entry>, index: nat, e: Entry)
    requires index in before && e.len == before[index].len && !before[index].status.Borrowed?
    ensures Undisturbed(before, before[index := e])
  {
  }

  lemma NoneDisturbed(entries: map<nat, Entry>)
    ensures Undisturbed(entries, entries)
  {
  }

  /** A file an open worker takes was pending. */
  lemma PickedPending(entries: map<nat, Entry>, queues: seq<seq<Item>>, reserved: nat, lim: Limits, choice: Item)
    requires FlatChoice(entries, queues, reserved, lim, Some(choice))
    ensures choice.index in entries && entries[choice.index].status.Pending?
  {
  }

  method TakeStep(pool: SmallFilePool, step: PoolStep)
    requires pool.Valid() && !pool.isShutdown
    modifies pool
    ensures pool.Valid() && !pool.isShutdown && pool.demand == old(pool.demand)
    ensures Undisturbed(old(pool.entries), pool.entries)
    ensures pool.isFatal == (old(pool.isFatal) || step.GiveUpReading?)
  {
    hide SmallFilePool.Valid, Undisturbed, FlatChoice, TakenFrom, Capacity;
    NoneDisturbed(pool.entries);
    match step
    case TakeFile =>
      ghost var entries, queues, reserved := pool.entries, pool.queues, pool.reservedBytes;
      var task, choice := pool.OpenNext();
      if task.Some? {
        PickedPending(entries, queues, reserved, pool.limits, choice.value);
        OneUndisturbed(entries, task.value.0, pool.entries[task.value.0]);
      }
    case OpenFailed(index, retryable) =>
      if index in pool.opening {
        Working(pool, index);
        ghost var entries := pool.entries;
        pool.SmallFailure(index, pool.opening[index], retryable);
        OneUndisturbed(entries, index, pool.entries[index]);
      }
    case Opened(index) =>
      if index in pool.opening {
        Working(pool, index);
        ghost var entries := pool.entries;
        if pool.entries[index].len == 0 {
          pool.FinishEmpty(index, pool.opening[index]);
        } else {
          pool.SubmitRead(index, pool.opening[index]);
        }
        OneUndisturbed(entries, index, pool.entries[index]);
      }
    case ReadEnded(index, ok, retryable) =>
      if index in pool.operations {
        Working(pool, index);
        ghost var entries := pool.entries;
        pool.Complete(index, ok, retryable);
        OneUndisturbed(entries, index, pool.entries[index]);
      }
    case GiveUpReading =>
      pool.Fail();
  }

  lemma Working(pool: SmallFilePool, index: nat)
    requires pool.Valid() && (index in pool.opening || index in pool.operations)
    ensures index in pool.entries && !pool.entries[index].status.Borrowed?
  {
    hide Accounted, QueuesOk, DemandOk;
  }

  method TakeSteps(pool: SmallFilePool, steps: seq<PoolStep>)
    requires pool.Valid() && !pool.isShutdown
    modifies pool
    ensures pool.Valid() && !pool.isShutdown && pool.demand == old(pool.demand)
    ensures Undisturbed(old(pool.entries), pool.entries)
    ensures old(pool.isFatal) ==> pool.isFatal
    ensures pool.isFatal ==> old(pool.isFatal) || GiveUpReading in steps
  {
    hide SmallFilePool.Valid, Undisturbed;
    NoneDisturbed(pool.entries);
    for i := 0 to |steps|
      invariant pool.Valid() && !pool.isShutdown && pool.demand == old(pool.demand)
      invariant Undisturbed(old(pool.entries), pool.entries)
      invariant old(pool.isFatal) ==> pool.isFatal
      invariant pool.isFatal ==> old(pool.isFatal) || GiveUpReading in steps
    {
      ghost var entries := pool.entries;
      TakeStep(pool, steps[i]);
      StillUndisturbed(old(pool.entries), entries, pool.entries);
    }
  }

  /** The file failed for good: not worth a retry, or retried often enough. */
  predicate FailedForGood(entries: map<nat, Entry>, index: nat, maxRetries: nat) {
    index in entries && entries[index].status.Failed?
    && (!entries[index].status.retryable || entries[index].attempts > maxRetries)
  }

  /** Nothing but the file waited for was added. */
  ghost predicate AddedOnly(before: map<nat, Entry>, after: map<nat, Entry>, index: nat, len: nat) {
    && (forall k :: k in after && k != index ==> k in before && after[k].len == before[k].len)
    && (index in after ==> after[index].len == len)
  }

  lemma AddedThen(before: map<nat, Entry>, mid: map<nat, Entry>, after: map<nat, Entry>, index: nat, len: nat)
    requires AddedOnly(before, mid, index, len)
    requires Undisturbed(mid, after) || AddedOnly(mid, after, index, len)
    ensures AddedOnly(before, after, index, len)
  {
  }

  lemma SmallEnough(pool: SmallFilePool, len: nat)
    requires pool.Valid() && len <= pool.threshold
    ensures BufferClass(len).Some?
  {
    CapacityMonotone(len, pool.threshold);
  }

  /** The consumer's demand, first made or repeated. */
  method Demand(pool: SmallFilePool, index: nat, len: nat)
    requires pool.Valid() && !pool.isShutdown && len <= pool.threshold
    requires pool.demand == None || pool.demand == Some(index)
    requires index in pool.entries ==> pool.entries[index].len == len
    modifies pool`entries, pool`queues, pool`nextGeneration, pool`demand
    ensures pool.Valid() && (pool.isFatal || pool.demand == Some(index))
    ensures AddedOnly(old(pool.entries), pool.entries, index, len)
  {
    hide SmallFilePool.Valid, BufferClass, Requeued;
    SmallEnough(pool, len);
    pool.Enqueue(index, len, true);
  }

  /** After the retry delay. */
  method Retry(pool: SmallFilePool, index: nat, len: nat, attempts: nat)
    requires pool.Valid() && pool.demand == Some(index) && attempts <= pool.limits.maxRetries
    requires index in pool.entries ==> pool.entries[index].len == len
    modifies pool`entries, pool`queues, pool`nextGeneration
    ensures pool.Valid() && AddedOnly(old(pool.entries), pool.entries, index, len)
  {
    hide SmallFilePool.Valid, BufferClass, Capacity, ClassOf, Requeued;
    pool.RetryFailed(index, attempts);
  }

  const GIVE_UP: Look := Look([], true)

  function NextLook(looks: seq<Look>): Look { if looks == [] then GIVE_UP else looks[0] }

  function LaterLooks(looks: seq<Look>): seq<Look> { if looks == [] then [] else looks[1..] }

  predicate SomeCancelled(looks: seq<Look>) { exists i :: 0 <= i < |looks| && looks[i].cancelled }

  predicate LeftOver(looks: seq<Look>, rest: seq<Look>) { |rest| <= |looks| && rest == looks[|looks| - |rest|..] }

  lemma AllLeft(looks: seq<Look>)
    ensures LeftOver(looks, looks)
  {
  }

  lemma LookLeft(looks: seq<Look>, rest: seq<Look>)
    requires LeftOver(looks, rest)
    ensures LeftOver(looks, LaterLooks(rest)) && (rest != [] ==> |LaterLooks(rest)| < |rest|)
    ensures rest == [] ==> NextLook(rest).cancelled && LaterLooks(rest) == []
    ensures rest != [] && NextLook(rest).cancelled ==> SomeCancelled(looks)
  {
    if rest != [] {
      assert rest[0] == looks[|looks| - |rest|];
    }
  }

  /** Why a file does not come: interrupted, because the looks are used up or the consumer is cancelled; or
      else because the pool is at an end or the file failed for good. */
  ghost predicate Refused(pool: SmallFilePool, index: nat, looks: seq<Look>, rest: seq<Look>, interrupted: bool)
    reads pool`entries, pool`isFatal
  {
    if interrupted then rest == [] || SomeCancelled(looks)
    else pool.isFatal || FailedForGood(pool.entries, index, pool.limits.maxRetries)
  }

  /** No look used so far saw a cancellation. */
  ghost predicate Unseen(looks: seq<Look>, rest: seq<Look>) {
    |rest| <= |looks| && forall i :: 0 <= i < |looks| - |rest| ==> !looks[i].cancelled
  }

  lemma UnseenNext(looks: seq<Look>, rest: seq<Look>)
    requires LeftOver(looks, rest)
    ensures Unseen(looks, looks)
    ensures Unseen(looks, rest) && !NextLook(rest).cancelled ==> Unseen(looks, LaterLooks(rest))
  {
    if rest != [] {
      assert rest[0] == looks[|looks| - |rest|];
    }
  }

  /** Demands a file and waits until it is read, retrying it as often as allowed. */
  method WaitTake(pool: SmallFilePool, index: nat, len: nat, looks: seq<Look>)
    returns (taken: Taken, rest: seq<Look>)
    requires pool.Valid() && !pool.isShutdown && pool.demand == None && len <= pool.threshold
    requires index in pool.entries ==> pool.entries[index].len == len
    modifies pool
    ensures pool.Valid() && !pool.isShutdown && AddedOnly(old(pool.entries), pool.entries, index, len)
    ensures taken.TookFile? || taken == Interrupted || taken == GaveUp
    ensures taken.TookFile? ==>
      index in pool.entries && pool.entries[index].status.Borrowed? && taken.reserved == Capacity(len)
                            && pool.demand == Some(index)
    ensures taken != Interrupted ==> Unseen(looks, rest)
    ensures !taken.TookFile? ==> Refused(pool, index, looks, rest, taken == Interrupted)
  {
    hide SmallFilePool.Valid, Undisturbed, Capacity, BufferClass, LeftOver, NextLook, LaterLooks, SomeCancelled, Unseen;
    Demand(pool, index, len);
    rest := looks;
    AllLeft(looks);
    UnseenNext(looks, looks);
    while true
      invariant pool.Valid() && !pool.isShutdown && AddedOnly(old(pool.entries), pool.entries, index, len)
      invariant pool.isFatal || pool.demand == Some(index)
      invariant LeftOver(looks, rest) && Unseen(looks, rest)
      decreases |rest|
    {
      ghost var start := rest;
      LookLeft(looks, rest);
      UnseenNext(looks, rest);
      var look := NextLook(rest);
      rest := LaterLooks(rest);
      ghost var before := pool.entries;
      TakeSteps(pool, look.steps);
      AddedThen(old(pool.entries), before, pool.entries, index, len);
      before := pool.entries;
      var r := pool.WaitStep(index, look.cancelled);
      AddedThen(old(pool.entries), before, pool.entries, index, len);
      match r
      case TookFile(_) =>
        return r, rest;
      case Interrupted =>
        return r, rest;
      case GaveUp =>
        return r, rest;
      case NotQueued =>
        before := pool.entries;
        Demand(pool, index, len);
        AddedThen(old(pool.entries), before, pool.entries, index, len);
      case RetryAfter(attempts) =>
        LookLeft(looks, rest);
        UnseenNext(looks, rest);
        look := NextLook(rest);
        rest := LaterLooks(rest);
        before := pool.entries;
        TakeSteps(pool, look.steps);
        AddedThen(old(pool.entries), before, pool.entries, index, len);
        if look.cancelled {
          return Interrupted, rest;
        }
        before := pool.entries;
        Retry(pool, index, len, attempts);
        AddedThen(old(pool.entries), before, pool.entries, index, len);
      case KeepWaiting =>
    }
  }

  lemma EmptyPool(pool: SmallFilePool)
    requires pool.Valid() && pool.entries == map[]
    ensures pool.reservedBytes == 0 && pool.activeFiles == 0 && pool.opening == map[] && pool.operations == map[]
  {
    hide QueuesOk, DemandOk;
  }
}
