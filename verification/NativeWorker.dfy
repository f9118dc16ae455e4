/** The worker that reads the selected files in order and publishes them.  Reading a large file and
    publishing its chunks are two phases here; the code publishes each chunk as it is consumed. */
module NativeWorker {
  import opened Common
  import opened AsyncReader
  import opened NativeRing
  import P = PoolWaiting
  import PoolState
  import S = SmallFiles

  datatype FileTask = FileTask(index: nat, content: seq<Byte>)

  /** What the environment does while one file is processed: for a small one, what the pool's threads do
      while the worker waits for it and while it publishes it. */
  datatype FileScript = FileScript(cancelled: bool, looks: seq<P.Look>, meanwhile: seq<P.PoolStep>,
                                   initialError: Option<Failure>, answers: seq<Answer>, hashOk: bool,
                                   publishTurns: seq<seq<Turn>>, eofTurns: seq<Turn>)

  /** How the work on a file, or the whole run, ended. */
  datatype Ending = Served | Interrupted | Broken

  datatype ReadConfig = ReadConfig(smallThreshold: nat, chunkSize: nat, alignmentBits: nat, queueDepth: nat,
                                   fatalCodes: set<nat>, maxRetries: nat, prefetch: bool,
                                   openWorkers: nat, activeFiles: nat, inflightBytes: nat)

  const POOL_BATCH: nat := 64

  /** The whole slot stream: the selected files in order. */
  function Streams(files: seq<FileTask>, slotSize: nat): seq<Piece>
    requires slotSize > 0
  {
    if files == [] then [] else FileStream(files[0].index, files[0].content, slotSize) + Streams(files[1..], slotSize)
  }

  lemma {:induction false} StreamsConcat(a: seq<FileTask>, b: seq<FileTask>, slotSize: nat)
    requires slotSize > 0
    ensures Streams(a + b, slotSize) == Streams(a, slotSize) + Streams(b, slotSize)
  {
    hide FileStream;
    if a == [] {
      assert a + b == b;
    } else {
      assert (a + b)[1..] == a[1..] + b;
      StreamsConcat(a[1..], b, slotSize);
    }
  }

  lemma StreamsSplit(files: seq<FileTask>, k: nat, slotSize: nat)
    requires slotSize > 0 && k < |files|
    ensures Streams(files, slotSize) == Streams(files[..k], slotSize)
            + FileStream(files[k].index, files[k].content, slotSize)
                                        + Streams(files[k + 1..], slotSize)
    ensures Streams(files[..k + 1], slotSize) == Streams(files[..k], slotSize)
            + FileStream(files[k].index, files[k].content, slotSize)
  {
    hide FileStream;
    assert files == files[..k + 1] + files[k + 1..];
    assert files[..k + 1] == files[..k] + [files[k]];
    StreamsConcat(files[..k + 1], files[k + 1..], slotSize);
    StreamsConcat(files[..k], [files[k]], slotSize);
    assert [files[k]][1..] == [];
  }

  lemma {:induction false} PiecesOfChunksConcat(fileIndex: nat, a: seq<Chunk>, b: seq<Chunk>, slotSize: nat)
    requires slotSize > 0
    ensures PiecesOfChunks(fileIndex, a + b, slotSize) == PiecesOfChunks(fileIndex, a, slotSize)
            + PiecesOfChunks(fileIndex, b, slotSize)
  {
    if a == [] {
      assert a + b == b;
    } else {
      assert (a + b)[1..] == a[1..] + b;
      PiecesOfChunksConcat(fileIndex, a[1..], b, slotSize);
    }
  }

  /** The slots of chunks read so far are the first slots of the file. */
  lemma ChunksPrefix(fileIndex: nat, file: seq<Byte>, chunks: seq<Chunk>, position: nat, chunkSize: nat, slotSize: nat)
    requires slotSize > 0 && chunkSize > 0 && OnChunk(chunkSize, slotSize)
             && Consecutive(file, chunks, 0, position, chunkSize)
    ensures PiecesOfChunks(fileIndex, chunks, slotSize) <= Pieces(fileIndex, 0, file, 0, slotSize)
    ensures position == |file| ==>
      PiecesOfChunks(fileIndex, chunks, slotSize) == Pieces(fileIndex, 0, file, 0, slotSize) && Joined(chunks) == file
  {
    ChunkingInvisible(fileIndex, file, 0, chunkSize, slotSize);
    PiecesOfChunksConcat(fileIndex, chunks, Cut(file, position, chunkSize), slotSize);
    if position == |file| {
      assert Cut(file, position, chunkSize) == [];
      assert chunks + [] == chunks;
      CutJoins(file, 0, chunkSize);
    }
  }

  lemma {:induction false} JoinedAppend(a: seq<Chunk>, c: Chunk)
    ensures Joined(a + [c]) == Joined(a) + c.data
  {
    if a == [] {
      assert ([] + [c])[1..] == [];
    } else {
      assert (a + [c])[1..] == a[1..] + [c];
      JoinedAppend(a[1..], c);
    }
  }

  predicate SomeCancelledIn(turns: seq<seq<Turn>>) { exists k :: 0 <= k < |turns| && CancelledIn(turns[k]) }

  predicate SomeFailedIn(turns: seq<seq<Turn>>) { exists k :: 0 <= k < |turns| && FailedIn(turns[k]) }

  /** Why publishing may end early: interrupted by a cancellation, or because the consumer never made room; or
      broken by an error. */
  ghost predicate RingTrouble(ending: Ending, turns: seq<seq<Turn>>, cancelled: bool, failed: bool, full: bool) {
    match ending
    case Served => true
    case Interrupted => cancelled || full || SomeCancelledIn(turns)
    case Broken => failed || SomeFailedIn(turns)
  }

  /** Why reading a large file may fail: the preparation's failure or the read's own, a cancellation told from
      the others; or what consumes the bytes, other than publishing them. */
  ghost predicate ReadTrouble(ending: Ending, file: FileTask, config: ReadConfig, script: FileScript,
                              remains: Remains)
    requires config.chunkSize > 0
  {
    |file.content| > config.smallThreshold &&
    var rest := remains.answers;
    match remains.failure
    case Some(f) =>
      (ending.Interrupted? <==> f == Cancelled) &&
      (script.initialError == Some(f)
       || HasCause(script.answers, rest, f, [], |file.content|, remains.position, config.chunkSize,
                   config.alignmentBits, config.queueDepth))
    case None =>
      ending.Broken? && |rest| <= |script.answers|
      && (rest == [] || SomeRefusal(script.answers, |script.answers| - |rest|))
  }

  /** What a failure left behind, for its reason to be told. */
  datatype Remains = Remains(answers: seq<Answer>, failure: Option<Failure>, position: nat, looks: seq<P.Look>)

  predicate IsSmall(file: FileTask, config: ReadConfig) { |file.content| <= config.smallThreshold }

  /** Why the content of a file may not get through. */
  ghost predicate ContentTrouble(ending: Ending, pool: S.SmallFilePool, file: FileTask, config: ReadConfig,
                                 script: FileScript, remains: Remains, cancelled: bool, failed: bool, full: bool)
    requires config.chunkSize > 0
    reads pool`entries, pool`isFatal
  {
    || (IsSmall(file, config) && P.Refused(pool, file.index, script.looks, remains.looks, ending.Interrupted?))
    || ReadTrouble(ending, file, config, script, remains)
    || RingTrouble(ending, script.publishTurns, cancelled, failed, full)
  }

  /** Why a file may not be served, and whether that interrupts the run or breaks it; `cancelled`, `failed`
      speak of the state before the file, `full` of the ring at the end. */
  ghost predicate FileTrouble(ending: Ending, pool: S.SmallFilePool, file: FileTask, config: ReadConfig,
                              script: FileScript, remains: Remains, cancelled: bool, failed: bool, full: bool)
    requires config.chunkSize > 0
    reads pool`entries, pool`isFatal
  {
    || ContentTrouble(ending, pool, file, config, script, remains, cancelled, failed, full)
    || (ending.Interrupted? && (script.cancelled || CancelledIn(script.eofTurns)))
    || (ending.Broken? && (!script.hashOk || FailedIn(script.eofTurns)))
  }

  // ----- the pool between two files

  /** Between two files: nothing in demand, and what the pool knows of this file is right. */
  ghost predicate Between(pool: S.SmallFilePool, file: FileTask, config: ReadConfig)
    reads pool
  {
    && pool.Valid() && !pool.isShutdown && pool.demand == None && pool.threshold == config.smallThreshold
    && (file.index in pool.entries ==> pool.entries[file.index].len == |file.content|)
  }

  /** The pool holds nothing new, and a small file that was read out no more. */
  ghost predicate GivenBack(before: map<nat, PoolState.Entry>, after: map<nat, PoolState.Entry>, file: FileTask,
                            config: ReadConfig)
  {
    forall k :: k in after ==>
      k in before && after[k].len == before[k].len && (IsSmall(file, config) ==> k != file.index)
  }

  /** What is in the pool is one of the small files still to come. */
  ghost predicate StillToCome(entries: map<nat, PoolState.Entry>, files: seq<FileTask>, config: ReadConfig, from: nat) {
    forall k :: k in entries ==>
      exists j ::
        from <= j < |files| && files[j].index == k && entries[k].len == |files[j].content| && IsSmall(files[j], config)
  }

  predicate DistinctFiles(files: seq<FileTask>) {
    forall i, j :: 0 <= i < j < |files| ==> files[i].index != files[j].index
  }

  lemma KnownRight(entries: map<nat, PoolState.Entry>, files: seq<FileTask>, config: ReadConfig, from: nat, i: nat)
    requires StillToCome(entries, files, config, from) && DistinctFiles(files) && i < |files|
             && files[i].index in entries
    ensures entries[files[i].index].len == |files[i].content|
  {
  }

  lemma OneFileLess(before: map<nat, PoolState.Entry>, after: map<nat, PoolState.Entry>, files: seq<FileTask>,
                    config: ReadConfig, k: nat)
    requires StillToCome(before, files, config, k) && DistinctFiles(files) && k < |files|
    requires GivenBack(before, after, files[k], config)
    ensures StillToCome(after, files, config, k + 1)
  {
  }

  lemma NothingToCome(entries: map<nat, PoolState.Entry>, files: seq<FileTask>, config: ReadConfig)
    requires StillToCome(entries, files, config, |files|)
    ensures entries == map[]
  {
  }

  /** Publishes the chunks of a large file and feeds its hash with them. */
  method PublishChunks(state: NativeState, fileIndex: nat, chunks: seq<Chunk>, turns: seq<seq<Turn>>)
    returns (ending: Ending, hashed: seq<Byte>)
    requires state.Valid()
    modifies state
    ensures state.Valid() && state.done == old(state.done) && state.results == old(state.results)
    ensures ending.Served? ==>
      state.published == old(state.published) + PiecesOfChunks(fileIndex, chunks, state.slotSize)
      && hashed == Joined(chunks)
    ensures !ending.Served? ==>
      && old(state.published) <= state.published
      && state.published <= old(state.published) + PiecesOfChunks(fileIndex, chunks, state.slotSize)
    ensures ending.Served? ==> state.cancelled == old(state.cancelled) && state.failed == old(state.failed)
    ensures ending.Broken? ==> state.cancelled == old(state.cancelled)
    ensures RingTrouble(ending, turns, old(state.cancelled), old(state.failed), state.occupiedSlots == |state.slots|)
  {
    hide NativeState.Valid, Pieces, PiecesOfChunks, Joined, CancelledIn, FailedIn;
    state.Occupancy();
    hashed := [];
    ghost var before := state.published;
    NoChunks(fileIndex, state.slotSize);
    for k := 0 to |chunks|
      invariant state.Valid() && state.done == old(state.done) && state.results == old(state.results)
      invariant state.published == before + PiecesOfChunks(fileIndex, chunks[..k], state.slotSize)
                && hashed == Joined(chunks[..k])
      invariant state.cancelled == old(state.cancelled) && state.failed == old(state.failed)
    {
      var c := chunks[k];
      hashed := hashed + c.data;
      assert chunks[..k + 1] == chunks[..k] + [c];
      PiecesOfChunksAppend(fileIndex, chunks[..k], c, state.slotSize);
      JoinedAppend(chunks[..k], c);
      var r, _ := state.PublishBatch(fileIndex, c.offset, c.data, if k < |turns| then turns[k] else []);
      if r != PublishedOk {
        assert chunks == chunks[..k + 1] + chunks[k + 1..];
        PiecesOfChunksConcat(fileIndex, chunks[..k + 1], chunks[k + 1..], state.slotSize);
        NoTurns();
        return EndingOf(r), hashed;
      }
    }
    assert chunks[..|chunks|] == chunks;
    ending := Served;
  }

  /** What an error of publishing makes of the run: a cancellation is told from every other error. */
  function EndingOf(r: Published): Ending {
    match r
    case PublishedOk => Served
    case WasCancelled => Interrupted
    case _ => Broken
  }

  lemma NoTurns()
    ensures !CancelledIn([]) && !FailedIn([])
  {
  }

  lemma NoChunks(fileIndex: nat, slotSize: nat)
    requires slotSize > 0
    ensures PiecesOfChunks(fileIndex, [], slotSize) == [] && Joined([]) == []
  {
  }

  /** Content of one file: the small-file pool hands over the whole file, a large file is read in
      chunks; either way the slots are the same.  A file the pool handed over is given back. */
  method PublishContent(state: NativeState, pool: S.SmallFilePool, file: FileTask, config: ReadConfig,
                        script: FileScript)
    returns (ending: Ending, hashed: seq<Byte>, ghost remains: Remains)
    requires state.Valid() && config.chunkSize > 0 && OnChunk(config.chunkSize, state.slotSize)
             && Between(pool, file, config)
    modifies state, pool
    ensures state.Valid() && state.done == old(state.done) && state.results == old(state.results)
    ensures pool.Valid() && !pool.isShutdown
    ensures ending.Served? ==>
      state.published == old(state.published) + Pieces(file.index, 0, file.content, 0, state.slotSize)
      && hashed == file.content
    ensures ending.Served? ==> state.cancelled == old(state.cancelled) && state.failed == old(state.failed)
    ensures ending.Served? ==> pool.demand == None && GivenBack(old(pool.entries), pool.entries, file, config)
    ensures !ending.Served? ==>
      old(state.published) <= state.published <= old(state.published)
        + Pieces(file.index, 0, file.content, 0, state.slotSize)
    // the content does not get through only for one of these reasons
    ensures ending.Broken? ==> state.cancelled == old(state.cancelled)
    ensures !ending.Served? ==>
      ContentTrouble(ending, pool, file, config, script, remains, old(state.cancelled), old(state.failed),
                     state.occupiedSlots == |state.slots|)
  {
    hide NativeState.Valid, Pieces, PiecesOfChunks, Joined, Consecutive, Cut, OnChunk, CancelledIn, FailedIn, HasCause,
         SomeRefusal, LeftOf, S.SmallFilePool.Valid, GoesSmoothly, Usable, S.SmallFilePool.Snapshot;
    state.Occupancy();
    NoTurns();
    remains := Remains(script.answers, None, 0, script.looks);
    if IsSmall(file, config) {
      ending, hashed, remains := PublishSmall(state, pool, file, config, script);
    } else {
      P.TakeSteps(pool, script.meanwhile);
      var outcome, chunks, position, _, left :=
        ReadFileOverlapped(file.content, |file.content|, config.chunkSize, config.alignmentBits, config.queueDepth,
                           config.fatalCodes, config.maxRetries, null, script.initialError, script.answers);
      remains := Remains(left, if outcome.IoError? then Some(outcome.failure) else None, position, script.looks);
      ChunksPrefix(file.index, file.content, chunks, position, config.chunkSize, state.slotSize);
      ending, hashed := PublishChunks(state, file.index, chunks, script.publishTurns);
      if ending.Served? && !outcome.Finished? {
        ending := if outcome == IoError(Cancelled) then Interrupted else Broken;
      }
    }
  }

  /** A small file: demanded, waited for, published and given back. */
  method PublishSmall(state: NativeState, pool: S.SmallFilePool, file: FileTask, config: ReadConfig, script: FileScript)
    returns (ending: Ending, hashed: seq<Byte>, ghost remains: Remains)
    requires state.Valid() && Between(pool, file, config) && IsSmall(file, config)
    modifies state, pool
    ensures state.Valid() && state.done == old(state.done) && state.results == old(state.results)
    ensures pool.Valid() && !pool.isShutdown
    ensures ending.Served? ==>
      state.published == old(state.published) + Pieces(file.index, 0, file.content, 0, state.slotSize)
      && hashed == file.content
    ensures ending.Served? ==> state.cancelled == old(state.cancelled) && state.failed == old(state.failed)
    ensures ending.Served? ==> pool.demand == None && GivenBack(old(pool.entries), pool.entries, file, config)
    ensures !ending.Served? ==>
      old(state.published) <= state.published <= old(state.published)
        + Pieces(file.index, 0, file.content, 0, state.slotSize)
    ensures ending.Broken? ==> state.cancelled == old(state.cancelled)
    ensures !ending.Served? ==>
      P.Refused(pool, file.index, script.looks, remains.looks, ending.Interrupted?)
      || RingTrouble(ending, script.publishTurns, old(state.cancelled), old(state.failed),
                     state.occupiedSlots == |state.slots|)
  {
    hide NativeState.Valid, Pieces, CancelledIn, FailedIn, S.SmallFilePool.Valid, S.SmallFilePool.Snapshot, P.Refused;
    state.Occupancy();
    NoTurns();
    hashed := [];
    var taken, left := P.WaitTake(pool, file.index, |file.content|, script.looks);
    remains := Remains([], None, 0, left);
    if !taken.TookFile? {
      return if taken == S.Taken.Interrupted then Interrupted else Broken, hashed, remains;
    }
    hashed := file.content;
    P.TakeSteps(pool, script.meanwhile);
    var r, _ := state.PublishBatch(file.index, 0, file.content, if |script.publishTurns| > 0 then script.publishTurns[0]
      else []);
    if r != PublishedOk {
      return EndingOf(r), hashed, remains;
    }
    pool.Release(file.index, taken.reserved);
    ending := Served;
  }

  /** One file: its content, then its hash recorded, then its end-of-file slot. */
  method ProcessFile(state: NativeState, pool: S.SmallFilePool, file: FileTask, config: ReadConfig, script: FileScript)
    returns (ending: Ending, ghost remains: Remains)
    requires state.Valid() && config.chunkSize > 0 && OnChunk(config.chunkSize, state.slotSize)
             && Between(pool, file, config)
    modifies state, pool
    ensures state.Valid() && state.done == old(state.done) && pool.Valid() && !pool.isShutdown
    ensures ending.Served? ==>
      state.published == old(state.published) + FileStream(file.index, file.content, state.slotSize)
      && state.results == old(state.results)[file.index := file.content]
    ensures ending.Served? ==> !state.cancelled && !state.failed && !old(state.cancelled) && !old(state.failed)
    ensures ending.Served? ==> !script.cancelled && script.hashOk
    ensures ending.Served? ==> pool.demand == None && GivenBack(old(pool.entries), pool.entries, file, config)
    ensures !ending.Served? ==>
      old(state.published) <= state.published <= old(state.published)
        + FileStream(file.index, file.content, state.slotSize)
    ensures ending.Broken? ==> state.cancelled == old(state.cancelled)
    ensures !ending.Served? ==>
      FileTrouble(ending, pool, file, config, script, remains, old(state.cancelled), old(state.failed),
                  state.occupiedSlots == |state.slots|)
  {
    hide NativeState.Valid, Pieces, OnChunk, ReadTrouble, CancelledIn, FailedIn, P.Refused, S.SmallFilePool.Valid,
         GivenBack;
    state.Occupancy();
    remains := Remains(script.answers, None, 0, script.looks);
    if script.cancelled {
      return Interrupted, remains;
    }
    var hashed;
    ending, hashed, remains := PublishContent(state, pool, file, config, script);
    if !ending.Served? {
      return;
    }
    if !script.hashOk {
      return Broken, remains;
    }
    state.Record(file.index, hashed);
    var r, _ := state.Publish(Piece(file.index, |file.content|, [], FLAG_EOF), script.eofTurns);
    ending := EndingOf(r);
  }

  /** Small files are queued ahead of their turn. */
  method LookAhead(pool: S.SmallFilePool, files: seq<FileTask>, config: ReadConfig)
    requires pool.Valid() && !pool.isShutdown && pool.demand == None && pool.threshold == config.smallThreshold
    requires DistinctFiles(files) && pool.entries == map[]
    modifies pool`entries, pool`queues, pool`nextGeneration, pool`demand
    ensures pool.Valid() && pool.demand == None && StillToCome(pool.entries, files, config, 0)
  {
    hide S.SmallFilePool.Valid, PoolState.BufferClass, S.Requeued;
    for i := 0 to |files|
      invariant pool.Valid() && pool.demand == None && StillToCome(pool.entries, files, config, 0)
    {
      if IsSmall(files[i], config) {
        if files[i].index in pool.entries { KnownRight(pool.entries, files, config, 0, i); }
        pool.Enqueue(files[i].index, |files[i].content|, false);
      }
    }
  }

  /** One file after the other, up to the first that cannot be served. */
  method ServeFiles(state: NativeState, pool: S.SmallFilePool, files: seq<FileTask>, config: ReadConfig,
                    scripts: seq<FileScript>)
    returns (ending: Ending, at: nat, ghost remains: Remains)
    requires state.Valid() && config.chunkSize > 0 && OnChunk(config.chunkSize, state.slotSize) && state.published == []
    requires |scripts| == |files| && DistinctFiles(files)
    requires pool.Valid() && !pool.isShutdown && pool.demand == None && pool.threshold == config.smallThreshold
             && StillToCome(pool.entries, files, config, 0)
    modifies state, pool
    ensures state.Valid() && pool.Valid()
    ensures ending.Served? ==>
      state.published == Streams(files, state.slotSize) && StillToCome(pool.entries, files, config, |files|)
      && forall i :: 0 <= i < |files| ==>
           files[i].index in state.results && state.results[files[i].index] == files[i].content
           && !scripts[i].cancelled && scripts[i].hashOk
    ensures ending.Served? ==> state.cancelled == old(state.cancelled) && state.failed == old(state.failed)
    ensures ending.Broken? ==> state.cancelled == old(state.cancelled)
    ensures !ending.Served? ==>
      && at < |files| && Streams(files[..at], state.slotSize) <= state.published <= Streams(files, state.slotSize)
      && FileTrouble(ending, pool, files[at], config, scripts[at], remains, old(state.cancelled), old(state.failed),
                     state.occupiedSlots == |state.slots|)
  {
    hide NativeState.Valid, OnChunk, FileStream, Streams, FileTrouble, S.SmallFilePool.Valid, S.SmallFilePool.Snapshot,
         StillToCome, GivenBack, DistinctFiles;
    state.Occupancy();
    NoFiles(files, state.slotSize);
    at, remains := 0, Remains([], None, 0, []);
    for k := 0 to |files|
      invariant state.Valid() && state.published == Streams(files[..k], state.slotSize)
      invariant forall i :: 0 <= i < k ==>
        files[i].index in state.results && state.results[files[i].index] == files[i].content
        && !scripts[i].cancelled && scripts[i].hashOk
      invariant state.cancelled == old(state.cancelled) && state.failed == old(state.failed)
      invariant pool.Valid() && !pool.isShutdown && pool.demand == None && StillToCome(pool.entries, files, config, k)
    {
      StreamsSplit(files, k, state.slotSize);
      at := k;
      if files[k].index in pool.entries { KnownRight(pool.entries, files, config, k, k); }
      ghost var entries := pool.entries;
      ending, remains := ProcessFile(state, pool, files[k], config, scripts[k]);
      if !ending.Served? {
        return;
      }
      OneFileLess(entries, pool.entries, files, config, k);
      Apart(files, k);
    }
    assert files[..|files|] == files;
    ending := Served;
  }

  /** The whole run: on success the consumer is served exactly the files' streams in order, every hash is of
      the bytes of its file, and the pool got all its budget back.  Otherwise it stopped in the file at `at`,
      for one of the reasons there are, with all files before it served; or the pool's configuration was
      refused.  A cancellation leaves the run cancelled, everything else leaves it failed. */
  method RunWorker(state: NativeState, files: seq<FileTask>, config: ReadConfig, scripts: seq<FileScript>)
    returns (ending: Ending, at: nat, pool: S.SmallFilePool?, ghost remains: Remains)
    requires state.Valid() && config.chunkSize > 0 && OnChunk(config.chunkSize, state.slotSize) && state.published == []
    requires |scripts| == |files| && DistinctFiles(files)
    modifies state
    ensures state.Valid() && state.done && (pool != null ==> fresh(pool) && pool.Valid() && pool.isShutdown)
    ensures ending.Served? ==>
      state.published == Streams(files, state.slotSize)
      && forall i :: 0 <= i < |files| ==>
           files[i].index in state.results && state.results[files[i].index] == files[i].content
           && !scripts[i].cancelled && scripts[i].hashOk
    ensures ending.Served? ==> pool != null && pool.entries == map[] && pool.reservedBytes == 0 && pool.activeFiles == 0
    ensures !ending.Served? ==> state.published <= Streams(files, state.slotSize)
    ensures ending.Interrupted? ==> state.cancelled
    ensures ending.Broken? ==> state.failed && state.cancelled == old(state.cancelled)
    ensures ending.Served? ==> state.failed == old(state.failed) && state.cancelled == old(state.cancelled)
    ensures pool == null <==>
      !S.ConfigOk(config.openWorkers, config.activeFiles, config.inflightBytes, config.smallThreshold, POOL_BATCH)
    ensures pool == null ==> ending.Broken?
    ensures !ending.Served? && pool != null ==>
      && at < |files| && Streams(files[..at], state.slotSize) <= state.published
      && FileTrouble(ending, pool, files[at], config, scripts[at], remains, old(state.cancelled), old(state.failed),
                     state.occupiedSlots == |state.slots|)
  {
    hide NativeState.Valid, OnChunk, FileStream, Streams, FileTrouble, S.SmallFilePool.Valid, S.ConfigOk,
         S.SmallFilePool.Snapshot, StillToCome, DistinctFiles;
    state.Occupancy();
    NoFiles(files, state.slotSize);
    at, remains := 0, Remains([], None, 0, []);
    if !S.ConfigOk(config.openWorkers, config.activeFiles, config.inflightBytes, config.smallThreshold, POOL_BATCH) {
      state.Finish(false, true);
      return Broken, at, null, remains;
    }
    pool := new S.SmallFilePool(config.openWorkers, config.activeFiles, config.inflightBytes, config.smallThreshold,
                                POOL_BATCH,
                                config.maxRetries);
    NothingQueued(files, config);
    if config.prefetch {
      LookAhead(pool, files, config);
    }
    ending, at, remains := ServeFiles(state, pool, files, config, scripts);
    state.Finish(ending.Interrupted?, ending.Broken?);
    if ending.Served? {
      NothingToCome(pool.entries, files, config);
      P.EmptyPool(pool);
    }
    pool.Shutdown();
  }

  lemma NothingQueued(files: seq<FileTask>, config: ReadConfig)
    ensures StillToCome(map[], files, config, 0)
  {
  }

  lemma Apart(files: seq<FileTask>, k: nat)
    requires DistinctFiles(files) && k < |files|
    ensures forall i :: 0 <= i < k ==> files[i].index != files[k].index
  {
  }

  lemma NoFiles(files: seq<FileTask>, slotSize: nat)
    requires slotSize > 0
    ensures Streams([], slotSize) == [] && files[..0] == []
  {
  }
}
