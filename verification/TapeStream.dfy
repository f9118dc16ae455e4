/** Streaming one file from tape into the bridge ring: reads with LOCATE and retry, records cut into
    slots, and the hash of what was published.  A record longer than the block size counts up to it. */
module TapeStream {
  import opened Alignment
  import opened Common
  import opened StableMerge
  import B = BridgeRing
  import N = NativeRing

  type Byte = B.Byte

  // ----- the drive

  /** What a READ reports back. */
  datatype Reply = Reply(status: nat, key: nat, filemark: bool, endOfMedium: bool, ili: bool, residual: int)

  /** Length of a successful READ; `None` for a failed one. */
  function ScsiReadLength(reply: Reply, allocation: nat): Option<nat> {
    var lengthDifference := reply.status == 2 && reply.key == 0 && reply.ili;
    if (reply.status != 0 && !lengthDifference) || reply.filemark || reply.endOfMedium
      || (reply.key != 0 && reply.key != 1) then None
    else
      var actual := SaturatingSub(allocation, Max(reply.residual, 0));
      if actual == 0 then None else Some(actual)
  }

  /** The reply of a drive that read a record of `length` bytes into a buffer of `allocation`. */
  function ReplyFor(length: nat, allocation: nat): Reply {
    if length == allocation then Reply(0, 0, false, false, false, 0)
    else Reply(2, 0, false, false, true, allocation - length)
  }

  /** A short, exact or long record each give the length actually read; an empty one is an error. */
  lemma ReadLengthOfRecord(length: nat, allocation: nat)
    requires allocation > 0
    ensures ScsiReadLength(ReplyFor(length, allocation), allocation) == if length == 0 then None
            else Some(Min(length, allocation))
  {
  }

  /** A reply that reports more than a difference in length: a filemark, the end of the medium, a sense
      key above "recovered", or a status that is neither good nor a length difference alone. */
  predicate Trouble(reply: Reply) {
    reply.filemark || reply.endOfMedium || reply.key > 1
    || (reply.status != 0 && !(reply.status == 2 && reply.key == 0 && reply.ili))
  }

  /** Exactly such a reply, or one that leaves nothing of the record, fails the read; any other gives what
      the residual leaves of the allocation, whatever the sign of the residual. */
  lemma TroubleFails(reply: Reply, allocation: nat)
    requires allocation > 0
    ensures ScsiReadLength(reply, allocation) == None <==> Trouble(reply) || reply.residual >= allocation
    ensures forall n :: ScsiReadLength(reply, allocation) == Some(n) ==>
      0 < n <= allocation && (n == allocation <==> reply.residual <= 0)
  {
  }

  /** What a drive replies when it could not read the record under the head. */
  type Fault = r: Reply | Trouble(r) witness Reply(255, 0, false, false, false, 0)

  datatype Answer = Answer(cancelled: bool, locateOk: bool, fault: Option<Fault>, retry: bool, publishOk: bool)

  const GIVE_UP: Answer := Answer(true, false, Some(Reply(255, 0, false, false, false, 0)), false, false)

  function NextAnswer(answers: seq<Answer>): Answer { if answers == [] then GIVE_UP else answers[0] }

  function LaterAnswers(answers: seq<Answer>): (rest: seq<Answer>)
    ensures |rest| <= |answers| && (answers != [] ==> |rest| < |answers|)
  {
    if answers == [] then [] else answers[1..]
  }

  type Records = (nat, nat) -> seq<Byte>

  class TapeDrive {
    const records: Records
    /** Where the head is known to stand: partition and block. */
    var head: Option<(nat, nat)>

    constructor (records: Records)
      ensures this.records == records && head == None
    {
      this.records := records;
      head := None;
    }

    method Locate(partition: nat, block: nat, ok: bool)
      modifies this
      ensures head == if ok then Some((partition, block)) else None
    {
      head := if ok then Some((partition, block)) else None;
    }

    /** Reads the record under the head, which must be the one the caller means. */
    method Read(allocation: nat, fault: Option<Fault>, ghost partition: nat, ghost block: nat)
      returns (length: Option<nat>, data: seq<Byte>)
      requires head == Some((partition, block)) && allocation > 0
      modifies this
      ensures length.Some? ==> 0 < length.value == |data| == Min(|records(partition, block)|, allocation)
                               && data == records(partition, block)[..|data|] && head == Some((partition, block + 1))
      ensures length.None? ==> head == None
      ensures length.Some? <==> fault.None? && |records(partition, block)| > 0
    {
      var (p, b) := head.value;
      var record := records(p, b);
      ReadLengthOfRecord(|record|, allocation);
      var reply: Reply := if fault.Some? then fault.value else ReplyFor(|record|, allocation);
      TroubleFails(reply, allocation);
      length := ScsiReadLength(reply, allocation);
      data := if length.Some? then record[..length.value] else [];
      head := if length.Some? then Some((p, b + 1)) else None;
    }
  }

  predicate Clean(a: Answer) { !a.cancelled && a.locateOk && a.fault.None? }

  /** A script in which no read fails more often in a row than it is retried automatically, and nothing
      else goes wrong. */
  ghost predicate Patient(answers: seq<Answer>, automaticRetries: nat) {
    && (forall i :: 0 <= i < |answers| ==> !answers[i].cancelled && answers[i].publishOk)
    && (forall i :: 0 <= i && i + automaticRetries < |answers| ==> CleanWithin(answers, i, automaticRetries))
  }

  ghost predicate CleanWithin(answers: seq<Answer>, from: nat, automaticRetries: nat) {
    exists j :: from <= j <= from + automaticRetries && j < |answers| && Clean(answers[j])
  }

  datatype ReadResult = ReadOk(data: seq<Byte>) | ReadCancelled | ReadFailed

  // ----- which answer ends the reading of a block

  /** The `i`th answer; a script that is used up answers with a cancellation. */
  function AnswerAt(answers: seq<Answer>, i: nat): Answer { if i < |answers| then answers[i] else GIVE_UP }

  /** A round is `automaticRetries` + 1 attempts, then the user is asked. */
  predicate AsksUser(i: nat, automaticRetries: nat) { Place(i, automaticRetries) == automaticRetries + 1 }

  function Place(i: nat, automaticRetries: nat): nat { i % (automaticRetries + 2) }

  /** The attempt that answer `i` stands for reads the block; only the first may need no LOCATE. */
  predicate Reads(answers: seq<Answer>, i: nat, located: bool, readable: bool) {
    var a := AnswerAt(answers, i);
    !a.cancelled && (a.locateOk || (located && i == 0)) && a.fault.None? && readable
  }

  /** After answer `i` the reading goes on: a failed attempt, or a user who wants another round. */
  predicate GoesOn(answers: seq<Answer>, i: nat, automaticRetries: nat, located: bool, readable: bool) {
    if AsksUser(i, automaticRetries) then AnswerAt(answers, i).retry
    else !AnswerAt(answers, i).cancelled && !Reads(answers, i, located, readable)
  }

  ghost predicate GoesOnUntil(answers: seq<Answer>, until: nat, automaticRetries: nat, located: bool, readable: bool) {
    forall i :: 0 <= i < until ==> GoesOn(answers, i, automaticRetries, located, readable)
  }

  /** The reading ends at the first answer after which there is nothing more to try, and that decides the result. */
  ghost predicate Ends(r: ReadResult, answers: seq<Answer>, used: nat, automaticRetries: nat, located: bool,
                       readable: bool) {
    used > 0 && GoesOnUntil(answers, used - 1, automaticRetries, located, readable) &&
    var last, asked := AnswerAt(answers, used - 1), AsksUser(used - 1, automaticRetries);
    match r
    case ReadOk(_) => !asked && Reads(answers, used - 1, located, readable)
    case ReadCancelled => !asked && last.cancelled
    case ReadFailed => asked && !last.retry
  }

  lemma NextInRound(i: nat, automaticRetries: nat)
    ensures Place(i + 1, automaticRetries) == if AsksUser(i, automaticRetries) then 0
            else Place(i, automaticRetries) + 1
  {
    var m := automaticRetries + 2;
    var q, k := i / m, i % m;
    if AsksUser(i, automaticRetries) {
      UniqueRemainder(i + 1, m, q + 1, 0);
    } else {
      UniqueRemainder(i + 1, m, q, k + 1);
    }
  }

  lemma FirstOfRound(automaticRetries: nat)
    ensures Place(0, automaticRetries) == 0
    ensures forall k :: 0 <= k <= automaticRetries ==> !AsksUser(k, automaticRetries)
  {
    forall k | 0 <= k <= automaticRetries ensures !AsksUser(k, automaticRetries) {
      UniqueRemainder(k, automaticRetries + 2, 0, k);
    }
  }

  /** What is left of a script of which `used` answers were used. */
  function Unused(answers: seq<Answer>, used: nat): seq<Answer> { if used <= |answers| then answers[used..] else [] }

  lemma NextUnread(answers: seq<Answer>, rest: seq<Answer>, used: nat)
    requires rest == Unused(answers, used)
    ensures NextAnswer(rest) == AnswerAt(answers, used) && LaterAnswers(rest) == Unused(answers, used + 1)
  {
  }

  lemma UnusedTwice(answers: seq<Answer>, used: nat, more: nat)
    ensures Unused(Unused(answers, used), more) == Unused(answers, used + more)
    ensures forall i: nat :: AnswerAt(Unused(answers, used), i) == AnswerAt(answers, used + i)
  {
  }

  /** One block, located first when asked to and after every failure; the user may ask for more
      rounds of automatic retries.  Every READ happens on the intended block. */
  method ReadBlockWithRetry(drive: TapeDrive, partition: nat, block: nat, allocation: nat, automaticRetries: nat,
                            locateBeforeRead: bool, answers: seq<Answer>)
    returns (r: ReadResult, rest: seq<Answer>, ghost used: nat)
    requires allocation > 0 && (!locateBeforeRead ==> drive.head == Some((partition, block)))
    modifies drive
    ensures used > 0 && rest == Unused(answers, used)
    ensures Ends(r, answers, used, automaticRetries, !locateBeforeRead, |drive.records(partition, block)| > 0)
    ensures r.ReadOk? ==> 0 < |r.data| == Min(|drive.records(partition, block)|, allocation)
                          && r.data == drive.records(partition, block)[..|r.data|]
                          && drive.head == Some((partition, block + 1))
  {
    hide Place, Unused, AnswerAt;
    NothingUsed(answers);
    ghost var readable := |drive.records(partition, block)| > 0;
    var needLocate := locateBeforeRead;
    rest, used := answers, 0;
    FirstOfRound(automaticRetries);
    while true
      invariant rest == Unused(answers, used)
      invariant !needLocate ==> drive.head == Some((partition, block))
      invariant needLocate == (locateBeforeRead || used > 0)
      invariant Place(used, automaticRetries) == 0
      invariant GoesOnUntil(answers, used, automaticRetries, !locateBeforeRead, readable)
      decreases |rest|
    {
      ghost var round := |rest|;
      for attempt := 0 to automaticRetries + 1
        invariant rest == Unused(answers, used)
        invariant !needLocate ==> drive.head == Some((partition, block))
        invariant needLocate == (locateBeforeRead || used > 0)
        invariant Place(used, automaticRetries) == attempt
        invariant GoesOnUntil(answers, used, automaticRetries, !locateBeforeRead, readable)
        invariant |rest| <= round && (attempt > 0 ==> |rest| < round)
      {
        NextUnread(answers, rest, used);
        NextInRound(used, automaticRetries);
        var a := NextAnswer(rest);
        rest := LaterAnswers(rest);
        used := used + 1;
        if a.cancelled {
          return ReadCancelled, rest, used;
        }
        if needLocate || attempt > 0 {
          drive.Locate(partition, block, a.locateOk);
        }
        if drive.head.Some? {
          var length, data := drive.Read(allocation, a.fault, partition, block);
          if length.Some? {
            return ReadOk(data), rest, used;
          }
        }
        needLocate := true;
      }
      NextUnread(answers, rest, used);
      NextInRound(used, automaticRetries);
      var again := NextAnswer(rest).retry;
      rest := LaterAnswers(rest);
      used := used + 1;
      if !again {
        return ReadFailed, rest, used;
      }
    }
  }

  /** So a clean answer within the automatic retries is enough. */
  lemma CleanAnswerReads(r: ReadResult, answers: seq<Answer>, used: nat, automaticRetries: nat, located: bool, k: nat)
    requires Ends(r, answers, used, automaticRetries, located, true)
    requires k <= automaticRetries && Clean(AnswerAt(answers, k))
    requires forall j :: 0 <= j < k ==> !AnswerAt(answers, j).cancelled
    ensures r.ReadOk? && used <= k + 1
  {
    hide AsksUser;
    FirstOfRound(automaticRetries);
    assert k < used - 1 ==> GoesOn(answers, k, automaticRetries, located, true);
  }

  /** In a patient script long enough the block is read within the automatic retries. */
  lemma PatientReads(answers: seq<Answer>, used: nat, automaticRetries: nat) returns (k: nat)
    requires Patient(answers, automaticRetries) && used + automaticRetries < |answers|
    ensures k <= automaticRetries && Clean(AnswerAt(Unused(answers, used), k))
    ensures forall j :: 0 <= j < k ==> !AnswerAt(Unused(answers, used), j).cancelled
  {
    hide Patient, Unused, AnswerAt;
    k := CleanSoon(answers, used, automaticRetries);
    forall j | 0 <= j <= k
      ensures AnswerAt(Unused(answers, used), j) == answers[used + j] && !answers[used + j].cancelled
    {
      UnusedAt(answers, used, j);
      NotCancelled(answers, automaticRetries, used + j);
    }
  }

  lemma UnusedAt(answers: seq<Answer>, used: nat, j: nat)
    requires used + j < |answers|
    ensures AnswerAt(Unused(answers, used), j) == answers[used + j]
  {
  }

  lemma NotCancelled(answers: seq<Answer>, automaticRetries: nat, i: nat)
    requires Patient(answers, automaticRetries) && i < |answers|
    ensures !answers[i].cancelled
  {
  }

  lemma CleanSoon(answers: seq<Answer>, used: nat, automaticRetries: nat) returns (k: nat)
    requires Patient(answers, automaticRetries) && used + automaticRetries < |answers|
    ensures k <= automaticRetries && Clean(answers[used + k])
  {
    assert CleanWithin(answers, used, automaticRetries);
    var j :| used <= j <= used + automaticRetries && j < |answers| && Clean(answers[j]);
    k := j - used;
  }

  /** Answers enough for `n` bytes: no byte takes more than one round of attempts. */
  function Cost(automaticRetries: nat, n: nat): nat { (automaticRetries + 1) * n }

  lemma CostMore(automaticRetries: nat, n: nat, take: nat)
    ensures Cost(automaticRetries, n + take) == Cost(automaticRetries, n) + Cost(automaticRetries, take)
    ensures if take == 0 then Cost(automaticRetries, take) == 0 else Cost(automaticRetries, take) > automaticRetries
  {
    var m := automaticRetries + 1;
    assert m * (n + take) == m * n + m * take;
    if take > 0 {
      assert m * take == m + m * (take - 1) && m * (take - 1) >= 0;
    }
  }

  // ----- the logical file

  datatype Extent = Extent(fileOffset: nat, partition: nat, startBlock: nat, byteOffset: nat, byteCount: nat)

  datatype Content = Content(bytes: seq<Byte>, complete: bool)

  /** The bytes of an extent from `block` on, of which `count` are still wanted, skipping `offset`
      bytes of the first record; incomplete where a record is too short to reach the offset. */
  function ExtentContent(records: Records, partition: nat, block: nat, offset: nat, count: nat, blockSize: nat): Content
    requires offset < blockSize
    decreases count
  {
    if count == 0 then Content([], true)
    else
      var record := records(partition, block);
      var usable := Min(|record|, blockSize);
      if usable <= offset then Content([], false)
      else
        var take := Min(usable - offset, count);
        Follow(record[offset..offset + take], ExtentContent(records, partition, block + 1, 0, count - take, blockSize))
  }

  function Follow(bytes: seq<Byte>, c: Content): Content { Content(bytes + c.bytes, c.complete) }

  /** All extents in order, up to the first that is incomplete. */
  function FileContent(records: Records, extents: seq<Extent>, blockSize: nat): Content
    requires forall e :: e in extents ==> e.byteOffset < blockSize
  {
    if extents == [] then Content([], true)
    else
      var e := extents[0];
      var c := ExtentContent(records, e.partition, e.startBlock, e.byteOffset, e.byteCount, blockSize);
      if !c.complete then c else Follow(c.bytes, FileContent(records, extents[1..], blockSize))
  }

  lemma {:induction false} ExtentLength(records: Records, partition: nat, block: nat, offset: nat, count: nat,
                                        blockSize: nat)
    requires offset < blockSize
    ensures var c := ExtentContent(records, partition, block, offset, count, blockSize);
            |c.bytes| <= count && (c.complete ==> |c.bytes| == count)
    decreases count
  {
    if count > 0 {
      var usable := Min(|records(partition, block)|, blockSize);
      if usable > offset {
        ExtentLength(records, partition, block + 1, 0, count - Min(usable - offset, count), blockSize);
      }
    }
  }

  /** Extents sorted by file offset cover the file without gap or overlap. */
  ghost predicate Contiguous(extents: seq<Extent>, expected: nat, fileLength: nat, blockSize: nat) {
    if extents == [] then expected == fileLength
    else
      var e := extents[0];
      e.fileOffset == expected && e.byteCount > 0 && e.byteOffset < blockSize
      && Contiguous(extents[1..], expected + e.byteCount, fileLength, blockSize)
  }

  method CheckCoverage(extents: seq<Extent>, fileLength: nat, blockSize: nat) returns (ok: bool)
    ensures ok <==> Contiguous(extents, 0, fileLength, blockSize)
  {
    var expected: nat := 0;
    for k := 0 to |extents|
      invariant Contiguous(extents, 0, fileLength, blockSize) <==>
                Contiguous(extents[k..], expected, fileLength, blockSize)
    {
      var e := extents[k];
      assert extents[k..][1..] == extents[k + 1..];
      if e.fileOffset != expected || e.byteCount == 0 || e.byteOffset >= blockSize {
        return false;
      }
      expected := expected + e.byteCount;
    }
    ok := expected == fileLength;
  }

  lemma {:induction false} ContiguousOffsets(extents: seq<Extent>, expected: nat, fileLength: nat, blockSize: nat)
    requires Contiguous(extents, expected, fileLength, blockSize)
    ensures forall e :: e in extents ==> e.byteOffset < blockSize
  {
    if extents != [] {
      ContiguousOffsets(extents[1..], expected + extents[0].byteCount, fileLength, blockSize);
    }
  }

  /** A file whose content is complete has the length its extents promise. */
  lemma {:induction false} ContentLength(records: Records, extents: seq<Extent>, expected: nat, fileLength: nat,
                                         blockSize: nat)
    requires Contiguous(extents, expected, fileLength, blockSize)
    requires forall e :: e in extents ==> e.byteOffset < blockSize
    ensures var c := FileContent(records, extents, blockSize);
            |c.bytes| <= fileLength - expected && (c.complete ==> |c.bytes| == fileLength - expected)
  {
    if extents != [] {
      var e := extents[0];
      ExtentLength(records, e.partition, e.startBlock, e.byteOffset, e.byteCount, blockSize);
      ContentLength(records, extents[1..], expected + e.byteCount, fileLength, blockSize);
    }
  }

  // ----- what is published

  /** Content from position `from` on, cut into slots. */
  function DataSlots(fileIndex: int, content: seq<Byte>, from: nat, slotSize: nat): seq<B.Payload>
    requires slotSize > 0
    decreases |content| - from
  {
    if from >= |content| then []
    else
      [B.Payload(fileIndex, from, content[from..Min(from + slotSize, |content|)], 0, [])]
      + DataSlots(fileIndex, content, from + slotSize, slotSize)
  }

  lemma {:induction false} FewSlots(fileIndex: int, content: seq<Byte>, from: nat, slotSize: nat)
    requires slotSize > 0
    ensures |DataSlots(fileIndex, content, from, slotSize)| <= if from <= |content| then |content| - from else 0
    decreases |content| - from
  {
    if from < |content| { FewSlots(fileIndex, content, from + slotSize, slotSize); }
  }

  function TapeFileSlots(fileIndex: int, content: seq<Byte>, slotSize: nat,
                         hash: seq<Byte> -> seq<Byte>): seq<B.Payload>
    requires slotSize > 0
  {
    DataSlots(fileIndex, content, 0, slotSize) + [B.Payload(fileIndex, |content|, [], N.FLAG_EOF, hash(content))]
  }

  /** Every data slot but the last is full, and together they are the content. */
  lemma {:induction false} DataSlotsShape(fileIndex: int, content: seq<Byte>, from: nat, slotSize: nat)
    requires slotSize > 0
    ensures var s := DataSlots(fileIndex, content, from, slotSize);
            && (forall i :: 0 <= i < |s| ==> 0 < |s[i].data| <= slotSize && (i + 1 < |s| ==> |s[i].data| == slotSize))
            && (from <= |content| ==> Bytes(s) == content[from..])
    decreases |content| - from
  {
    if from < |content| {
      var s := DataSlots(fileIndex, content, from, slotSize);
      DataSlotsShape(fileIndex, content, from + slotSize, slotSize);
      assert s[1..] == DataSlots(fileIndex, content, from + slotSize, slotSize);
      assert s[0].data == content[from..Min(from + slotSize, |content|)];
      assert from + slotSize < |content| || s[1..] == [];
      hide DataSlots;
      forall i | 0 <= i < |s| ensures 0 < |s[i].data| <= slotSize && (i + 1 < |s| ==> |s[i].data| == slotSize) {
        if i > 0 {
          assert s[i] == s[1..][i - 1];
        }
      }
      if from + slotSize <= |content| {
        assert content[from..] == content[from..from + slotSize] + content[from + slotSize..];
      } else {
        assert s[1..] == [];
        assert content[from..|content|] == content[from..];
      }
    }
  }

  /** Each data slot is a stretch of the content, and starts where the one before it ends. */
  lemma {:induction false} DataSlotsPlaces(fileIndex: int, content: seq<Byte>, from: nat, slotSize: nat)
    requires slotSize > 0
    ensures var s := DataSlots(fileIndex, content, from, slotSize);
            && (forall i :: 0 <= i < |s| ==> SlotAt(s[i], fileIndex, content))
            && (forall i :: 0 <= i < |s| - 1 ==> s[i + 1].fileOffset == s[i].fileOffset + slotSize)
            && (s != [] ==> s[0].fileOffset == from)
    decreases |content| - from
  {
    if from < |content| {
      DataSlotsPlaces(fileIndex, content, from + slotSize, slotSize);
      var p := B.Payload(fileIndex, from, content[from..Min(from + slotSize, |content|)], 0, []);
      var s, rest := DataSlots(fileIndex, content, from, slotSize),
                     DataSlots(fileIndex, content, from + slotSize, slotSize);
      assert s == [p] + rest && SlotAt(p, fileIndex, content);
      hide DataSlots, SlotAt;
      assert forall i :: 1 <= i < |s| ==> s[i] == rest[i - 1];
    }
  }

  ghost predicate SlotAt(p: B.Payload, fileIndex: int, content: seq<Byte>) {
    p.fileIndex == fileIndex && p.flags == 0 && p.hashes == []
    && p.fileOffset + |p.data| <= |content| && p.data == content[p.fileOffset..p.fileOffset + |p.data|]
  }

  /** After the data comes an empty slot at the content's end, with flag 1 and the hash. */
  lemma EndSlot(fileIndex: int, content: seq<Byte>, slotSize: nat, hash: seq<Byte> -> seq<Byte>)
    requires slotSize > 0
    ensures var s := TapeFileSlots(fileIndex, content, slotSize, hash);
            && s != [] && s[|s| - 1] == B.Payload(fileIndex, |content|, [], 1, hash(content))
            && s[..|s| - 1] == DataSlots(fileIndex, content, 0, slotSize)
  {
  }

  function Bytes(s: seq<B.Payload>): seq<Byte> { if s == [] then [] else s[0].data + Bytes(s[1..]) }

  // ----- the streamer

  /** The streamer's locals: the slot being filled, the offset of its first byte, the bytes hashed. */
  datatype Writer = Writer(published: seq<B.Payload>, target: seq<Byte>, logicalOffset: nat, hashed: seq<Byte>)

  /** `n` bytes of the content were taken: full slots are published and hashed, the rest waits. */
  ghost predicate Writing(w: Writer, content: seq<Byte>, n: nat, fileIndex: int, slotSize: nat)
    requires slotSize > 0
  {
    && w.logicalOffset <= n <= |content| && w.target == content[w.logicalOffset..n] && |w.target| < slotSize
    && w.hashed == content[..w.logicalOffset]
    && w.published + DataSlots(fileIndex, content, w.logicalOffset, slotSize) ==
       DataSlots(fileIndex, content, 0, slotSize)
  }

  lemma WritingStart(content: seq<Byte>, fileIndex: int, slotSize: nat)
    requires slotSize > 0
    ensures Writing(Writer([], [], 0, []), content, 0, fileIndex, slotSize)
  {
    assert [] + DataSlots(fileIndex, content, 0, slotSize) == DataSlots(fileIndex, content, 0, slotSize);
  }

  /** Taking bytes that leave the slot unfilled. */
  lemma WritingTake(w: Writer, content: seq<Byte>, n: nat, m: nat, fileIndex: int, slotSize: nat)
    requires slotSize > 0 && Writing(w, content, n, fileIndex, slotSize) && n <= m <= |content|
             && m - w.logicalOffset < slotSize
    ensures Writing(w.(target := w.target + content[n..m]), content, m, fileIndex, slotSize)
  {
    hide DataSlots;
    assert content[w.logicalOffset..n] + content[n..m] == content[w.logicalOffset..m];
  }

  /** A full slot, or at the end a partial one, is published and hashed. */
  lemma WritingPublish(w: Writer, content: seq<Byte>, n: nat, fileIndex: int, slotSize: nat)
    requires slotSize > 0 && w.logicalOffset < n <= |content| && w.target == content[w.logicalOffset..n]
    requires w.hashed == content[..w.logicalOffset]
    requires |w.target| == slotSize || (|w.target| < slotSize && n == |content|)
    requires w.published + DataSlots(fileIndex, content, w.logicalOffset, slotSize) ==
             DataSlots(fileIndex, content, 0, slotSize)
    ensures Writing(Published(w, fileIndex), content, n, fileIndex, slotSize)
    ensures Published(w, fileIndex).published <= DataSlots(fileIndex, content, 0, slotSize)
  {
    var p := B.Payload(fileIndex, w.logicalOffset, w.target, 0, []);
    var next := Min(w.logicalOffset + slotSize, |content|);
    assert next == n;
    assert DataSlots(fileIndex, content, w.logicalOffset, slotSize) == [p]
           + DataSlots(fileIndex, content, w.logicalOffset + slotSize, slotSize);
    assert DataSlots(fileIndex, content, w.logicalOffset + slotSize, slotSize) ==
           DataSlots(fileIndex, content, n, slotSize);
    assert w.published + ([p] + DataSlots(fileIndex, content, n, slotSize)) == (w.published + [p])
           + DataSlots(fileIndex, content, n, slotSize);
    assert content[..w.logicalOffset] + content[w.logicalOffset..n] == content[..n];
    assert content[n..n] == [];
  }

  function Published(w: Writer, fileIndex: int): Writer {
    Writer(w.published + [B.Payload(fileIndex, w.logicalOffset, w.target, 0, [])], [], w.logicalOffset + |w.target|,
           w.hashed + w.target)
  }

  lemma SubSlice(source: seq<Byte>, from: nat, until: nat, content: seq<Byte>, n: nat, i: nat, j: nat)
    requires from <= i <= j <= until <= |source| && n + (until - from) <= |content|
             && source[from..until] == content[n..n + (until - from)]
    ensures source[i..j] == content[n + (i - from)..n + (j - from)]
  {
    forall k | 0 <= k < j - i ensures source[i..j][k] == content[n + (i - from)..n + (j - from)][k] {
      assert source[from..until][i - from + k] == content[n..n + (until - from)][i - from + k];
    }
  }

  lemma JoinSlices(content: seq<Byte>, i: nat, j: nat, k: nat)
    requires i <= j <= k <= |content|
    ensures content[i..j] + content[j..k] == content[i..k]
  {
  }

  lemma WritingFull(w: Writer, content: seq<Byte>, n: nat, m: nat, fileIndex: int, slotSize: nat)
    requires slotSize > 0 && Writing(w, content, n, fileIndex, slotSize) && n <= m <= |content|
             && m - w.logicalOffset == slotSize
    ensures var full := w.(target := w.target + content[n..m]);
            |full.target| == slotSize && Writing(Published(full, fileIndex), content, m, fileIndex, slotSize)
            && Published(full, fileIndex).published <= DataSlots(fileIndex, content, 0, slotSize)
  {
    hide DataSlots;
    JoinSlices(content, w.logicalOffset, n, m);
    WritingPublish(w.(target := w.target + content[n..m]), content, m, fileIndex, slotSize);
  }

  lemma WritingFacts(w: Writer, content: seq<Byte>, n: nat, fileIndex: int, slotSize: nat)
    requires slotSize > 0 && Writing(w, content, n, fileIndex, slotSize)
    ensures w.logicalOffset <= n <= |content| && |w.target| == n - w.logicalOffset < slotSize
  {
    hide DataSlots;
  }

  /** Puts one slot into the ring, unless it is refused. */
  method PublishSlot(published: seq<B.Payload>, p: B.Payload, answers: seq<Answer>)
    returns (ok: bool, now: seq<B.Payload>, rest: seq<Answer>)
    ensures ok == NextAnswer(answers).publishOk && rest == LaterAnswers(answers)
    ensures now == if ok then published + [p] else published
  {
    ok, rest := NextAnswer(answers).publishOk, LaterAnswers(answers);
    now := published;
    if ok {
      now := now + [p];
    }
  }

  /** Copies a stretch of a source block into slots, publishing each slot that fills up. */
  method CopyToSlots(w0: Writer, source: seq<Byte>, from: nat, until: nat, fileIndex: int, slotSize: nat,
                     answers: seq<Answer>, ghost content: seq<Byte>, ghost n: nat)
    returns (ok: bool, w: Writer, rest: seq<Answer>, ghost used: nat)
    requires slotSize > 0 && from <= until <= |source| && Writing(w0, content, n, fileIndex, slotSize)
    requires n + (until - from) <= |content| && source[from..until] == content[n..n + (until - from)]
    ensures rest == Unused(answers, used)
    ensures ok ==> Writing(w, content, n + (until - from), fileIndex, slotSize)
    ensures w.published <= DataSlots(fileIndex, content, 0, slotSize)
    // one answer for every slot, and it stops only where one is refused
    ensures |w.published| == |w0.published| + used - (if ok then 0 else 1)
    ensures forall i :: 0 <= i < (if ok then used else used - 1) ==> AnswerAt(answers, i).publishOk
    ensures !ok ==> used > 0 && !AnswerAt(answers, used - 1).publishOk
  {
    hide DataSlots, Writing, Unused, AnswerAt;
    w, rest, used := w0, answers, 0;
    NothingUsed(answers);
    var sourceOffset: nat := from;
    PrefixNow(w, content, n, fileIndex, slotSize);
    while sourceOffset < until
      invariant from <= sourceOffset <= until && rest == Unused(answers, used)
      invariant Writing(w, content, n + (sourceOffset - from), fileIndex, slotSize)
      invariant w.published <= DataSlots(fileIndex, content, 0, slotSize)
      invariant |w.published| == |w0.published| + used
      invariant forall i :: 0 <= i < used ==> AnswerAt(answers, i).publishOk
      decreases until - sourceOffset
    {
      ghost var at := n + (sourceOffset - from);
      WritingFacts(w, content, at, fileIndex, slotSize);
      var copy := Min(slotSize - |w.target|, until - sourceOffset);
      SubSlice(source, from, until, content, n, sourceOffset, sourceOffset + copy);
      if |w.target| + copy < slotSize {
        WritingTake(w, content, at, at + copy, fileIndex, slotSize);
      } else {
        WritingFull(w, content, at, at + copy, fileIndex, slotSize);
      }
      w := w.(target := w.target + source[sourceOffset..sourceOffset + copy]);
      sourceOffset := sourceOffset + copy;
      if |w.target| == slotSize {
        NextUnread(answers, rest, used);
        var published;
        ok, published, rest := PublishSlot(w.published, B.Payload(fileIndex, w.logicalOffset, w.target, 0, []), rest);
        used := used + 1;
        if !ok {
          return false, w, rest, used;
        }
        w := Writer(published, [], w.logicalOffset + |w.target|, w.hashed + w.target);
      }
    }
    ok := true;
  }

  lemma NothingUsed(answers: seq<Answer>)
    ensures Unused(answers, 0) == answers
  {
  }

  /** What is still to come: the rest of the current extent, then the extents after it. */
  function Coming(records: Records, partition: nat, block: nat, offset: nat, count: nat, later: seq<Extent>,
                  blockSize: nat): Content
    requires offset < blockSize && forall e :: e in later ==> e.byteOffset < blockSize
  {
    var c := ExtentContent(records, partition, block, offset, count, blockSize);
    if !c.complete then c else Follow(c.bytes, FileContent(records, later, blockSize))
  }

  /** What a READ of the next record brings, when it asks for as much as the extent and the block allow. */
  lemma {:induction false} ExtentNext(records: Records, partition: nat, block: nat, offset: nat, count: nat,
                                      blockSize: nat, data: seq<Byte>)
    requires offset < blockSize && count > 0
    requires |data| == Min(|records(partition, block)|, Min(count + offset, blockSize))
             && data == records(partition, block)[..|data|]
    ensures |data| <= offset ==>
      ExtentContent(records, partition, block, offset, count, blockSize) == Content([], false)
    ensures |data| > offset ==>
      var take := Min(|data| - offset, count);
      ExtentContent(records, partition, block, offset, count, blockSize)
      == Follow(data[offset..offset + take], ExtentContent(records, partition, block + 1, 0, count - take, blockSize))
  {
    var record := records(partition, block);
    if |data| > offset {
      var take := Min(|data| - offset, count);
      assert take == Min(Min(|record|, blockSize) - offset, count);
      assert record[offset..offset + take] == data[offset..offset + take];
    }
  }

  lemma {:induction false} ComingNext(records: Records, partition: nat, block: nat, offset: nat, count: nat,
                                      later: seq<Extent>, blockSize: nat, data: seq<Byte>)
    requires offset < blockSize && count > 0 && forall e :: e in later ==> e.byteOffset < blockSize
    requires |data| == Min(|records(partition, block)|, Min(count + offset, blockSize))
             && data == records(partition, block)[..|data|]
    ensures |data| <= offset ==>
      Coming(records, partition, block, offset, count, later, blockSize) == Content([], false)
    ensures |data| > offset ==>
      var take := Min(|data| - offset, count);
      Coming(records, partition, block, offset, count, later, blockSize)
      == Follow(data[offset..offset + take], Coming(records, partition, block + 1, 0, count - take, later, blockSize))
  {
    hide ExtentContent, FileContent;
    ExtentNext(records, partition, block, offset, count, blockSize, data);
    if |data| > offset {
      var take := Min(|data| - offset, count);
      var next := ExtentContent(records, partition, block + 1, 0, count - take, blockSize);
      var rest := FileContent(records, later, blockSize);
      assert data[offset..offset + take] + (next.bytes + rest.bytes) == (data[offset..offset + take] + next.bytes)
             + rest.bytes;
    }
  }

  lemma {:induction false} ComingDone(records: Records, partition: nat, block: nat, offset: nat, later: seq<Extent>,
                                      blockSize: nat)
    requires offset < blockSize && forall e :: e in later ==> e.byteOffset < blockSize
    ensures Coming(records, partition, block, offset, 0, later, blockSize) == FileContent(records, later, blockSize)
  {
    assert [] + FileContent(records, later, blockSize).bytes == FileContent(records, later, blockSize).bytes;
  }

  lemma {:induction false} ComingStart(records: Records, extents: seq<Extent>, blockSize: nat)
    requires extents != [] && forall e :: e in extents ==> e.byteOffset < blockSize
    ensures var e := extents[0];
            FileContent(records, extents, blockSize)
            == Coming(records, e.partition, e.startBlock, e.byteOffset, e.byteCount, extents[1..], blockSize)
  {
  }

  /** The stream is at position `n` of the content, with `c` to come. */
  ghost predicate At(whole: Content, n: nat, c: Content) {
    n <= |whole.bytes| && whole.bytes[n..] == c.bytes && whole.complete == c.complete
  }

  lemma AtNext(whole: Content, n: nat, x: seq<Byte>, c: Content)
    requires At(whole, n, Follow(x, c))
    ensures n + |x| <= |whole.bytes| && whole.bytes[n..n + |x|] == x && At(whole, n + |x|, c)
  {
    assert whole.bytes[n..][..|x|] == x && whole.bytes[n..][|x|..] == c.bytes;
    assert whole.bytes[n..n + |x|] == whole.bytes[n..][..|x|];
    assert whole.bytes[n + |x|..] == whole.bytes[n..][|x|..];
  }

  datatype Outcome = Streamed | Cancelled | Failed | Invalid

  /** Why a stream of complete content ended early, by the last answers it used: a cancelled attempt, a slot
      that was refused, or a whole round of failed attempts after which the user wanted no other. */
  ghost predicate EndedBy(r: Outcome, answers: seq<Answer>, used: nat, automaticRetries: nat) {
    used > 0 &&
    match r
    case Cancelled => AnswerAt(answers, used - 1).cancelled
    case Failed => !AnswerAt(answers, used - 1).publishOk || RoundRefused(answers, used, automaticRetries)
    case _ => false
  }

  ghost predicate RoundRefused(answers: seq<Answer>, used: nat, automaticRetries: nat) {
    && used >= automaticRetries + 2 && !AnswerAt(answers, used - 1).retry
    && (forall j :: used - automaticRetries - 2 <= j < used - 1 ==> !Clean(AnswerAt(answers, j)))
  }

  /** A block that could not be read, although it is there: cancelled, or a whole round of failures. */
  lemma BlockEnded(read: ReadResult, answers: seq<Answer>, before: nat, used: nat, automaticRetries: nat,
                   located: bool, readable: bool)
    requires !read.ReadOk? && (read.ReadFailed? ==> readable)
    requires Ends(read, Unused(answers, before), used, automaticRetries, located, readable)
    ensures EndedBy(if read.ReadCancelled? then Cancelled else Failed, answers, before + used, automaticRetries)
  {
    hide AsksUser;
    var rest := Unused(answers, before);
    var r := if read.ReadCancelled? then Cancelled else Failed;
    if r == Failed {
      RoundAttempts(used - 1, automaticRetries);
      forall j | used - automaticRetries - 2 <= j < used - 1 ensures !Clean(AnswerAt(rest, j)) {
        assert GoesOn(rest, j, automaticRetries, located, true);
      }
    }
    EndedLater(r, answers, before, used, automaticRetries);
  }

  /** Before the user is asked there is a whole round of attempts. */
  lemma RoundAttempts(i: nat, automaticRetries: nat)
    requires AsksUser(i, automaticRetries)
    ensures i >= automaticRetries + 1
    ensures forall j :: i - automaticRetries - 1 <= j < i ==> !AsksUser(j, automaticRetries)
  {
    var m := automaticRetries + 2;
    var q := i / m;
    assert i == q * m + (automaticRetries + 1);
    assert q * m >= 0;
    forall j | i - automaticRetries - 1 <= j < i ensures !AsksUser(j, automaticRetries) {
      UniqueRemainder(j, m, q, j - q * m);
    }
  }

  /** A later part of the script ended the stream. */
  lemma EndedLater(r: Outcome, answers: seq<Answer>, before: nat, used: nat, automaticRetries: nat)
    requires EndedBy(r, Unused(answers, before), used, automaticRetries)
    ensures EndedBy(r, answers, before + used, automaticRetries)
  {
    var rest := Unused(answers, before);
    UnusedTwice(answers, before, 0);
    assert AnswerAt(rest, used - 1) == AnswerAt(answers, before + (used - 1));
    if RoundRefused(rest, used, automaticRetries) {
      forall j | before + used - automaticRetries - 2 <= j < before + used - 1 ensures !Clean(AnswerAt(answers, j)) {
        assert AnswerAt(rest, j - before) == AnswerAt(answers, before + (j - before));
      }
    }
  }

  lemma PatientRest(answers: seq<Answer>, used: nat, automaticRetries: nat)
    requires Patient(answers, automaticRetries)
    ensures Patient(Unused(answers, used), automaticRetries)
  {
    var rest := Unused(answers, used);
    forall i | 0 <= i < |rest| ensures !rest[i].cancelled && rest[i].publishOk {
      assert rest[i] == answers[used + i];
    }
    forall i | 0 <= i && i + automaticRetries < |rest| ensures CleanWithin(rest, i, automaticRetries) {
      assert CleanWithin(answers, used + i, automaticRetries);
      var j :| used + i <= j <= used + i + automaticRetries && j < |answers| && Clean(answers[j]);
      assert rest[j - used] == answers[j];
    }
  }

  lemma PatientAnswer(answers: seq<Answer>, automaticRetries: nat, i: nat)
    requires Patient(answers, automaticRetries) && i < |answers|
    ensures AnswerAt(answers, i).publishOk && !AnswerAt(answers, i).cancelled
  {
  }

  /** Reading on at position `m` of the content: the block must be there and the rest of the script must last. */
  ghost predicate Lasts(answers: seq<Answer>, used: nat, automaticRetries: nat, left: nat, unpublished: int) {
    used + Cost(automaticRetries, left) + unpublished < |answers|
  }

  lemma LastsLater(answers: seq<Answer>, before: nat, used: nat, automaticRetries: nat, left: nat, unpublished: nat)
    ensures Lasts(Unused(answers, before), used, automaticRetries, left, unpublished)
            <==> Lasts(answers, before + used, automaticRetries, left, unpublished)
  {
  }

  lemma LastsNow(answers: seq<Answer>, used: nat, automaticRetries: nat, left: nat, unpublished: nat)
    requires Lasts(answers, used, automaticRetries, left, unpublished)
    ensures used + unpublished < |answers|
  {
    CostMore(automaticRetries, 0, left);
  }

  /** One extent, block by block: located once, then read on from where the head stands. */
  method StreamExtent(drive: TapeDrive, e: Extent, blockSize: nat, automaticRetries: nat, w0: Writer, fileIndex: int,
                      slotSize: nat, answers: seq<Answer>, ghost whole: Content, ghost n: nat, ghost later: seq<Extent>)
    returns (r: Outcome, w: Writer, rest: seq<Answer>, ghost m: nat, ghost used: nat)
    requires slotSize > 0 && e.byteOffset < blockSize && (forall x :: x in later ==> x.byteOffset < blockSize)
    requires Writing(w0, whole.bytes, n, fileIndex, slotSize)
    requires At(whole, n, Coming(drive.records, e.partition, e.startBlock, e.byteOffset, e.byteCount, later, blockSize))
    modifies drive
    ensures rest == Unused(answers, used) && w.published <= DataSlots(fileIndex, whole.bytes, 0, slotSize)
    ensures r.Streamed? ==> Writing(w, whole.bytes, m, fileIndex, slotSize)
                            && At(whole, m, FileContent(drive.records, later, blockSize))
    // with the records readable it ends early only for one of these reasons
    ensures !r.Streamed? ==> r == Failed || r == Cancelled
    ensures r == Cancelled || (r == Failed && whole.complete) ==> EndedBy(r, answers, used, automaticRetries)
    // and not at all when every read succeeds within the automatic retries
    ensures Patient(answers, automaticRetries) && whole.complete
            && Lasts(answers, 0, automaticRetries, |whole.bytes| - n, |whole.bytes| - |w0.published|) ==>
      r.Streamed? && m <= |whole.bytes|
      && Lasts(answers, used, automaticRetries, |whole.bytes| - m, |whole.bytes| - |w.published|)
  {
    hide Writing, Coming, FileContent, DataSlots, At, Unused, AnswerAt, Patient, Lasts, Ends, EndedBy;
    NothingUsed(answers);
    w, rest, m, used := w0, answers, n, 0;
    var remaining: nat, byteOffset: nat, physicalBlock: nat, locateBeforeRead := e.byteCount, e.byteOffset,
      e.startBlock, true;
    PrefixNow(w, whole.bytes, m, fileIndex, slotSize);
    WritingFacts(w, whole.bytes, m, fileIndex, slotSize);
    ghost var patient := Patient(answers, automaticRetries) && whole.complete
            && Lasts(answers, 0, automaticRetries, |whole.bytes| - n, |whole.bytes| - |w0.published|);
    while remaining > 0
      invariant rest == Unused(answers, used) && byteOffset < blockSize
                && w.published <= DataSlots(fileIndex, whole.bytes, 0, slotSize)
      invariant m <= |whole.bytes| && Writing(w, whole.bytes, m, fileIndex, slotSize)
      invariant At(whole, m, Coming(drive.records, e.partition, physicalBlock, byteOffset, remaining, later, blockSize))
      invariant !locateBeforeRead && remaining > 0 ==> drive.head == Some((e.partition, physicalBlock))
      invariant patient ==>
        Lasts(answers, used, automaticRetries, |whole.bytes| - m, |whole.bytes| - |w.published|)
      decreases remaining
    {
      var required := Min(remaining + byteOffset, blockSize);
      var read;
      ghost var before, attempts, w1 := used, 0, w;
      read, rest, attempts := ReadBlockWithRetry(drive, e.partition, physicalBlock, required, automaticRetries,
                                                 locateBeforeRead, rest);
      used := before + attempts;
      UnusedTwice(answers, before, attempts);
      EmptyRecord(drive.records, e.partition, physicalBlock, byteOffset, remaining, later, blockSize, whole, m);
      if patient {
        BytesLeft(drive.records, e.partition, physicalBlock, byteOffset, remaining, later, blockSize, whole, m);
        FewPublished(w, whole.bytes, fileIndex, slotSize);
        PatientBlock(read, answers, before, attempts, automaticRetries, !locateBeforeRead, |whole.bytes| - m,
                     |whole.bytes| - |w.published|);
      }
      if !read.ReadOk? {
        r := if read.ReadCancelled? then Cancelled else Failed;
        if r == Cancelled || whole.complete {
          BlockEnded(read, answers, before, attempts, automaticRetries, !locateBeforeRead,
                     |drive.records(e.partition, physicalBlock)| > 0);
        }
        return;
      }
      var source := read.data;
      locateBeforeRead := false;
      ComingNext(drive.records, e.partition, physicalBlock, byteOffset, remaining, later, blockSize, source);
      if |source| <= byteOffset {
        AtIncomplete(whole, m);
        return Failed, w, rest, m, used;
      }
      var take := Min(|source| - byteOffset, remaining);
      AtNext(whole, m, source[byteOffset..byteOffset + take],
             Coming(drive.records, e.partition, physicalBlock + 1, 0, remaining - take, later, blockSize));
      var ok;
      ghost var slots, middle := 0, used;
      ok, w, rest, slots := CopyToSlots(w, source, byteOffset, byteOffset + take, fileIndex, slotSize, rest,
                                        whole.bytes, m);
      UnusedTwice(answers, middle, slots);
      used := middle + slots;
      FewPublished(w, whole.bytes, fileIndex, slotSize);
      if patient {
        StillLasts(answers, before, attempts, slots, automaticRetries, |whole.bytes| - m, take,
                   |whole.bytes| - |w1.published|, |whole.bytes| - |w.published|, ok);
      }
      if !ok {
        SlotRefused(answers, middle, slots, automaticRetries);
        return Failed, w, rest, m, used;
      }
      m := m + take;
      remaining := remaining - take;
      byteOffset := 0;
      physicalBlock := physicalBlock + 1;
    }
    ComingDone(drive.records, e.partition, physicalBlock, byteOffset, later, blockSize);
    r := Streamed;
  }

  /** While an extent of complete content is not read to its end, bytes are still to come. */
  lemma {:induction false} BytesLeft(records: Records, partition: nat, block: nat, offset: nat, count: nat,
                                     later: seq<Extent>, blockSize: nat, whole: Content, m: nat)
    requires offset < blockSize && count > 0 && forall e :: e in later ==> e.byteOffset < blockSize
    requires At(whole, m, Coming(records, partition, block, offset, count, later, blockSize)) && whole.complete
    ensures m < |whole.bytes|
  {
    ExtentLength(records, partition, block, offset, count, blockSize);
  }

  /** There are no more slots than bytes. */
  lemma FewPublished(w: Writer, content: seq<Byte>, fileIndex: int, slotSize: nat)
    requires slotSize > 0 && w.published <= DataSlots(fileIndex, content, 0, slotSize)
    ensures |w.published| <= |content|
  {
    FewSlots(fileIndex, content, 0, slotSize);
  }

  lemma PatientBlock(r: ReadResult, answers: seq<Answer>, used: nat, attempts: nat, automaticRetries: nat,
                     located: bool, left: nat, unpublished: nat)
    requires Patient(answers, automaticRetries) && left > 0
    requires Lasts(answers, used, automaticRetries, left, unpublished)
    requires Ends(r, Unused(answers, used), attempts, automaticRetries, located, true)
    ensures r.ReadOk? && attempts <= automaticRetries + 1
  {
    hide Ends;
    CostMore(automaticRetries, 0, left);
    var k := PatientReads(answers, used, automaticRetries);
    CleanAnswerReads(r, Unused(answers, used), attempts, automaticRetries, located, k);
  }

  /** A block read in one round and the slots it filled used no more answers than its bytes allow. */
  lemma StillLasts(answers: seq<Answer>, before: nat, attempts: nat, slots: nat, automaticRetries: nat, left: nat,
                   take: nat, unpublished: nat, after: nat, ok: bool)
    requires Patient(answers, automaticRetries) && Lasts(answers, before, automaticRetries, left, unpublished)
    requires 0 < take <= left && attempts <= automaticRetries + 1
    requires unpublished - after == slots - (if ok then 0 else 1)
    requires !ok ==> slots > 0 && !AnswerAt(Unused(answers, before + attempts), slots - 1).publishOk
    ensures ok && Lasts(answers, before + attempts + slots, automaticRetries, left - take, after)
  {
    CostMore(automaticRetries, left - take, take);
    if !ok {
      UnusedTwice(answers, before + attempts, 0);
      PatientAnswer(answers, automaticRetries, before + attempts + (slots - 1));
    }
  }

  lemma SlotRefused(answers: seq<Answer>, before: nat, used: nat, automaticRetries: nat)
    requires used > 0 && !AnswerAt(Unused(answers, before), used - 1).publishOk
    ensures EndedBy(Failed, answers, before + used, automaticRetries)
  {
    UnusedTwice(answers, before, 0);
    assert AnswerAt(Unused(answers, before), used - 1) == AnswerAt(answers, before + (used - 1));
  }

  lemma {:induction false} EmptyRecord(records: Records, partition: nat, block: nat, offset: nat, count: nat,
                                       later: seq<Extent>, blockSize: nat, whole: Content, n: nat)
    requires offset < blockSize && count > 0 && forall e :: e in later ==> e.byteOffset < blockSize
    requires At(whole, n, Coming(records, partition, block, offset, count, later, blockSize))
    ensures |records(partition, block)| == 0 ==> !whole.complete
  {
  }

  lemma AtIncomplete(whole: Content, n: nat)
    ensures At(whole, n, Content([], false)) ==> !whole.complete
  {
  }

  lemma PrefixNow(w: Writer, content: seq<Byte>, n: nat, fileIndex: int, slotSize: nat)
    requires slotSize > 0 && Writing(w, content, n, fileIndex, slotSize)
    ensures w.published <= DataSlots(fileIndex, content, 0, slotSize)
  {
  }

  // ----- the whole file

  function ExtentLeq(): (Extent, Extent) -> bool { (x: Extent, y: Extent) => x.fileOffset <= y.fileOffset }

  function TagExtents(es: seq<Extent>): (t: seq<Tagged<Extent>>)
    ensures |t| == |es| && forall i :: 0 <= i < |es| ==> t[i] == Tagged(es[i], i)
  {
    seq(|es|, i requires 0 <= i < |es| => Tagged(es[i], i))
  }

  function Untag(t: seq<Tagged<Extent>>): (es: seq<Extent>)
    ensures |es| == |t| && forall i :: 0 <= i < |t| ==> es[i] == t[i].item
  {
    seq(|t|, i requires 0 <= i < |t| => t[i].item)
  }

  /** The extents in file order, by a stable sort. */
  function SortedExtents(es: seq<Extent>): seq<Extent> { Untag(StableSort(TagExtents(es), ExtentLeq())) }

  lemma SortedExtentsOrder(es: seq<Extent>)
    ensures multiset(SortedExtents(es)) == multiset(es)
    ensures forall i, j :: 0 <= i < j < |SortedExtents(es)| ==>
      SortedExtents(es)[i].fileOffset <= SortedExtents(es)[j].fileOffset
  {
    var leq, t := ExtentLeq(), TagExtents(es);
    var s := StableSort(t, leq);
    StableSortSorts(t, leq);
    StableSortPermutes(t, leq);
    UntagSame(s, t);
    assert Untag(t) == es;
    forall i, j | 0 <= i < j < |s| ensures Untag(s)[i].fileOffset <= Untag(s)[j].fileOffset {
      assert Before(s[i], s[j], leq);
    }
  }

  lemma {:induction false} UntagSame(a: seq<Tagged<Extent>>, b: seq<Tagged<Extent>>)
    requires multiset(a) == multiset(b)
    ensures multiset(Untag(a)) == multiset(Untag(b))
    decreases |a|
  {
    hide Untag;
    SameLength(a, b);
    if a != [] {
      var c := TakenOut(a, b);
      UntagSame(a[1..], c);
      FirstItem(a);
    }
  }

  /** The other one without the first element of this one. */
  lemma TakenOut(a: seq<Tagged<Extent>>, b: seq<Tagged<Extent>>) returns (c: seq<Tagged<Extent>>)
    requires multiset(a) == multiset(b) && a != []
    ensures multiset(a[1..]) == multiset(c)
    ensures multiset(Untag(b)) == multiset{a[0].item} + multiset(Untag(c))
  {
    hide Untag;
    assert a[0] in multiset(b);
    var i :| 0 <= i < |b| && b[i] == a[0];
    c := b[..i] + b[i + 1..];
    WithoutItem(b, i);
    Without(b, i);
    assert a == [a[0]] + a[1..];
    SameRest(a[0], a[1..], c);
  }

  lemma FirstItem(a: seq<Tagged<Extent>>)
    requires a != []
    ensures multiset(Untag(a)) == multiset{a[0].item} + multiset(Untag(a[1..]))
  {
    assert Untag(a) == [a[0].item] + Untag(a[1..]);
  }

  lemma SameRest(x: Tagged<Extent>, a: seq<Tagged<Extent>>, b: seq<Tagged<Extent>>)
    requires multiset{x} + multiset(a) == multiset{x} + multiset(b)
    ensures multiset(a) == multiset(b)
  {
    assert multiset(a) == multiset{x} + multiset(a) - multiset{x};
    assert multiset(b) == multiset{x} + multiset(b) - multiset{x};
  }

  lemma Without(b: seq<Tagged<Extent>>, i: nat)
    requires i < |b|
    ensures multiset(b) == multiset{b[i]} + multiset(b[..i] + b[i + 1..])
  {
    assert b == b[..i] + [b[i]] + b[i + 1..];
  }

  lemma WithoutItem(b: seq<Tagged<Extent>>, i: nat)
    requires i < |b|
    ensures multiset(Untag(b)) == multiset{b[i].item} + multiset(Untag(b[..i] + b[i + 1..]))
  {
    var u := Untag(b);
    assert u == u[..i] + [u[i]] + u[i + 1..];
    assert Untag(b[..i] + b[i + 1..]) == u[..i] + u[i + 1..];
  }

  /** On success exactly the slots of the file the sorted extents define are published: full data
      slots, then the end-of-file slot with the hash of those same bytes; otherwise a prefix of them. */
  method StreamTapeFile(drive: TapeDrive, fileIndex: int, fileLength: nat, blockSize: nat, extents: seq<Extent>,
                        slotSize: nat, automaticRetries: nat, hash: seq<Byte> -> seq<Byte>, answers: seq<Answer>)
    returns (r: Outcome, published: seq<B.Payload>, rest: seq<Answer>, ghost used: nat)
    requires slotSize > 0
    modifies drive
    ensures r.Invalid? <==> fileIndex < 0 || blockSize == 0 || blockSize > 0x00FF_FFFF || automaticRetries > 10
                            || !Contiguous(SortedExtents(extents), 0, fileLength, blockSize)
    ensures rest == Unused(answers, used) && (r.Invalid? ==> published == [] && used == 0)
    ensures !r.Invalid? ==>
      (forall e :: e in SortedExtents(extents) ==> e.byteOffset < blockSize)
      && var c := FileContent(drive.records, SortedExtents(extents), blockSize);
         && published <= TapeFileSlots(fileIndex, c.bytes, slotSize, hash)
         && (r.Streamed? ==>
               c.complete && |c.bytes| == fileLength && published == TapeFileSlots(fileIndex, c.bytes, slotSize, hash))
         // with the records readable, only a cancellation, a refused slot or a whole round of failures and a
         // user who wants no other end it early
         && (r == Cancelled || (r == Failed && c.complete) ==> EndedBy(r, answers, used, automaticRetries))
         // so it streams whenever no read fails more often in a row than it is retried automatically
         && (c.complete && Patient(answers, automaticRetries)
             && |answers| > Cost(automaticRetries, fileLength) + fileLength ==>
               r.Streamed?)
  {
    hide Writing, FileContent, DataSlots, At, StableSort, SortedExtents, Contiguous, Patient, AnswerAt, Unused, EndedBy;
    rest, used := answers, 0;
    NothingUsed(answers);
    if fileIndex < 0 || blockSize == 0 || blockSize > 0x00FF_FFFF || automaticRetries > 10 {
      return Invalid, [], rest, used;
    }
    var values := SortedExtents(extents);
    var covered := CheckCoverage(values, fileLength, blockSize);
    if !covered {
      return Invalid, [], rest, used;
    }
    ContiguousOffsets(values, 0, fileLength, blockSize);
    ghost var whole := FileContent(drive.records, values, blockSize);
    ContentLength(drive.records, values, 0, fileLength, blockSize);
    var w := Writer([], [], 0, []);
    ghost var n: nat := 0;
    WritingStart(whole.bytes, fileIndex, slotSize);
    AtStart(whole);
    ghost var patient := whole.complete && Patient(answers, automaticRetries)
                         && |answers| > Cost(automaticRetries, fileLength) + fileLength;
    for k := 0 to |values|
      invariant rest == Unused(answers, used)
      invariant n <= |whole.bytes| && Writing(w, whole.bytes, n, fileIndex, slotSize)
      invariant At(whole, n, FileContent(drive.records, values[k..], blockSize))
      invariant patient ==> Lasts(answers, used, automaticRetries, |whole.bytes| - n, |whole.bytes| - |w.published|)
    {
      ComingStart(drive.records, values[k..], blockSize);
      assert values[k..][1..] == values[k + 1..];
      ghost var before, more := used, 0;
      PrefixNow(w, whole.bytes, n, fileIndex, slotSize);
      FewPublished(w, whole.bytes, fileIndex, slotSize);
      if patient {
        PatientRest(answers, before, automaticRetries);
        LastsLater(answers, before, 0, automaticRetries, |whole.bytes| - n, |whole.bytes| - |w.published|);
      }
      r, w, rest, n, more := StreamExtent(drive, values[k], blockSize, automaticRetries, w, fileIndex, slotSize, rest,
                                          whole, n, values[k + 1..]);
      used := before + more;
      UnusedTwice(answers, before, more);
      if !r.Streamed? {
        if r == Cancelled || whole.complete {
          EndedLater(r, answers, before, more, automaticRetries);
        }
        return r, w.published, rest, used;
      }
      WritingFacts(w, whole.bytes, n, fileIndex, slotSize);
      FewPublished(w, whole.bytes, fileIndex, slotSize);
      if patient {
        LastsLater(answers, before, more, automaticRetries, |whole.bytes| - n, |whole.bytes| - |w.published|);
      }
    }
    AtEnd(drive.records, whole, n, blockSize);
    WritingFacts(w, whole.bytes, n, fileIndex, slotSize);
    PrefixNow(w, whole.bytes, n, fileIndex, slotSize);
    FewPublished(w, whole.bytes, fileIndex, slotSize);
    ghost var before, more := used, 0;
    r, published, rest, more := FinishFile(w, fileIndex, fileLength, slotSize, hash, rest, whole.bytes);
    used := before + more;
    UnusedTwice(answers, before, more);
    if r == Failed && whole.complete {
      SlotRefused(answers, before, more, automaticRetries);
      if patient {
        LastsNow(answers, before, automaticRetries, 0, |whole.bytes| - |w.published|);
        PatientAnswer(answers, automaticRetries, before + (more - 1));
      }
    }
  }

  /** What is left in the slot being filled, then the end-of-file slot. */
  method FinishFile(w0: Writer, fileIndex: int, fileLength: nat, slotSize: nat, hash: seq<Byte> -> seq<Byte>,
                    answers: seq<Answer>, ghost content: seq<Byte>)
    returns (r: Outcome, published: seq<B.Payload>, rest: seq<Answer>, ghost used: nat)
    requires slotSize > 0 && Writing(w0, content, |content|, fileIndex, slotSize)
    ensures rest == Unused(answers, used) && used + |w0.published| <= |content| + 1
    ensures r == Streamed || r == Failed
    ensures published <= TapeFileSlots(fileIndex, content, slotSize, hash)
    ensures r == Streamed ==>
      |content| == fileLength && published == TapeFileSlots(fileIndex, content, slotSize, hash)
    ensures r == Failed ==> |content| != fileLength || (used > 0 && !AnswerAt(answers, used - 1).publishOk)
  {
    hide Writing, DataSlots, Unused, AnswerAt;
    NothingUsed(answers);
    var w := w0;
    rest, used := answers, 0;
    WritingFacts(w, content, |content|, fileIndex, slotSize);
    PrefixNow(w, content, |content|, fileIndex, slotSize);
    FewPublished(w, content, fileIndex, slotSize);
    if w.target != [] {
      WritingLast(w, content, fileIndex, slotSize);
      FewPublished(Published(w, fileIndex), content, fileIndex, slotSize);
      NextUnread(answers, rest, used);
      var accepted;
      accepted, published, rest := PublishSlot(w.published,
                                               B.Payload(fileIndex, w.logicalOffset, w.target, 0, []), rest);
      used := used + 1;
      if !accepted {
        return Failed, published, rest, used;
      }
      w := Writer(published, [], w.logicalOffset + |w.target|, w.hashed + w.target);
    }
    WritingEnds(w, content, fileIndex, slotSize);
    if w.logicalOffset != fileLength {
      return Failed, w.published, rest, used;
    }
    NextUnread(answers, rest, used);
    var accepted;
    accepted, published, rest := PublishSlot(w.published, B.Payload(fileIndex, w.logicalOffset, [], N.FLAG_EOF,
                                                                    hash(w.hashed)), rest);
    used := used + 1;
    if !accepted {
      return Failed, published, rest, used;
    }
    r := Streamed;
  }

  lemma AtStart(whole: Content)
    ensures At(whole, 0, whole)
  {
  }

  lemma AtEnd(records: Records, whole: Content, n: nat, blockSize: nat)
    requires At(whole, n, FileContent(records, [], blockSize))
    ensures n == |whole.bytes| && whole.complete
  {
    assert |whole.bytes[n..]| == 0;
  }

  lemma WritingLast(w: Writer, content: seq<Byte>, fileIndex: int, slotSize: nat)
    requires slotSize > 0 && Writing(w, content, |content|, fileIndex, slotSize) && w.target != []
    ensures Writing(Published(w, fileIndex), content, |content|, fileIndex, slotSize)
            && Published(w, fileIndex).target == []
    ensures Published(w, fileIndex).published <= DataSlots(fileIndex, content, 0, slotSize)
  {
    hide DataSlots;
    WritingPublish(w, content, |content|, fileIndex, slotSize);
  }

  lemma WritingEnds(w: Writer, content: seq<Byte>, fileIndex: int, slotSize: nat)
    requires slotSize > 0 && Writing(w, content, |content|, fileIndex, slotSize) && w.target == []
    ensures w.logicalOffset == |content| && w.hashed == content
            && w.published == DataSlots(fileIndex, content, 0, slotSize)
  {
    assert |content[w.logicalOffset..]| == 0;
    assert DataSlots(fileIndex, content, |content|, slotSize) == [];
    assert w.published + [] == w.published;
    assert content[..|content|] == content;
  }
}
